/** Text helpers shared by the models: splitting and joining at a separator, trimming line
    ends, searching for a character, and decimal numbers. */
module Text {

  datatype Option<+T> = None | Some(value: T)

  // The text before, between and after every occurrence of `sep` (Go's strings.Split).
  function Split(s: string, sep: char): (parts: seq<string>)
    ensures |parts| > 0
  {
    if s == "" then [""]
    else
      var rest := Split(s[1..], sep);
      if s[0] == sep then [""] + rest else [[s[0]] + rest[0]] + rest[1..]
  }

  // Go's strings.Join with a one-character separator.
  function Join(parts: seq<string>, sep: char): string
  {
    if parts == [] then ""
    else if |parts| == 1 then parts[0]
    else parts[0] + [sep] + Join(parts[1..], sep)
  }

  ghost predicate Free(parts: seq<string>, sep: char)
  {
    forall i :: 0 <= i < |parts| ==> sep !in parts[i]
  }

  lemma {:induction false} SplitWithout(s: string, sep: char)
    requires sep !in s
    ensures Split(s, sep) == [s]
  {
    if s != "" {
      SplitWithout(s[1..], sep);
      assert [s[0]] + s[1..] == s;
    }
  }

  lemma {:induction false} SplitAt(first: string, sep: char, rest: string)
    requires sep !in first
    ensures Split(first + [sep] + rest, sep) == [first] + Split(rest, sep)
  {
    var s := first + [sep] + rest;
    if first == "" {
      assert s[1..] == rest;
    } else {
      assert s[1..] == first[1..] + [sep] + rest;
      SplitAt(first[1..], sep, rest);
      assert [first[0]] + first[1..] == first;
    }
  }

  // Split and Join are inverse: on every text ...
  lemma {:induction false} JoinSplit(s: string, sep: char)
    ensures Join(Split(s, sep), sep) == s
    ensures Free(Split(s, sep), sep)
  {
    if s != "" {
      JoinSplit(s[1..], sep);
      var rest := Split(s[1..], sep);
      if s[0] == sep {
        assert Split(s, sep)[1..] == rest;
      } else {
        assert Split(s, sep)[1..] == rest[1..];
      }
    }
  }

  // ... and on every non-empty list of separator-free parts.
  lemma {:induction false} SplitJoin(parts: seq<string>, sep: char)
    requires parts != [] && Free(parts, sep)
    ensures Split(Join(parts, sep), sep) == parts
  {
    if |parts| == 1 {
      SplitWithout(parts[0], sep);
    } else {
      SplitJoin(parts[1..], sep);
      SplitAt(parts[0], sep, Join(parts[1..], sep));
    }
  }

  // The terminated lines of a text; what follows the last line feed is not a line.
  function Lines(s: string): seq<string>
  {
    var parts := Split(s, '\n');
    parts[..|parts| - 1]
  }

  function Unlines(lines: seq<string>): string
  {
    if lines == [] then "" else lines[0] + "\n" + Unlines(lines[1..])
  }

  lemma LinesCons(line: string, rest: string)
    requires '\n' !in line
    ensures Lines(line + "\n" + rest) == [line] + Lines(rest)
  {
    SplitAt(line, '\n', rest);
  }

  lemma LinesUnterminated(s: string)
    requires '\n' !in s
    ensures Lines(s) == []
  {
    SplitWithout(s, '\n');
  }

  lemma LinesFree(s: string)
    ensures Free(Lines(s), '\n')
  {
    JoinSplit(s, '\n');
  }

  lemma {:induction false} LinesUnlines(lines: seq<string>)
    requires Free(lines, '\n')
    ensures Lines(Unlines(lines)) == lines
  {
    if lines != [] {
      LinesUnlines(lines[1..]);
      LinesCons(lines[0], Unlines(lines[1..]));
    }
  }

  lemma {:induction false} LinesAfter(lines: seq<string>, rest: string)
    requires Free(lines, '\n')
    ensures Lines(Unlines(lines) + rest) == lines + Lines(rest)
  {
    if lines == [] {
      assert Unlines(lines) + rest == rest;
    } else {
      LinesAfter(lines[1..], rest);
      LinesCons(lines[0], Unlines(lines[1..]) + rest);
      assert Unlines(lines) + rest == lines[0] + "\n" + (Unlines(lines[1..]) + rest);
    }
  }

  // The number of lines that lie whole, with their line feed, in the first n characters.
  function WholeLines(lines: seq<string>, n: nat): (k: nat)
    ensures k <= |lines|
  {
    if lines == [] || n <= |lines[0]| then 0 else 1 + WholeLines(lines[1..], n - |lines[0]| - 1)
  }

  // Cutting printed lines anywhere leaves the whole ones.
  lemma {:induction false} LinesOfPrefix(lines: seq<string>, cut: string)
    requires Free(lines, '\n') && cut <= Unlines(lines)
    ensures Lines(cut) == lines[..WholeLines(lines, |cut|)]
    ensures |cut| < |Unlines(lines)| ==> WholeLines(lines, |cut|) < |lines|
  {
    if lines == [] || |cut| <= |lines[0]| {
      if lines != [] {
        assert cut == lines[0][..|cut|];
      }
      LinesUnterminated(cut);
    } else {
      var tail := cut[|lines[0]| + 1..];
      TailOfPrefix(lines, cut, tail);
      LinesOfPrefix(lines[1..], tail);
      LinesCons(lines[0], tail);
    }
  }

  lemma TailOfPrefix(lines: seq<string>, cut: string, tail: string)
    requires lines != [] && cut <= Unlines(lines) && |cut| > |lines[0]| && tail == cut[|lines[0]| + 1..]
    ensures cut == lines[0] + "\n" + tail && tail <= Unlines(lines[1..])
    ensures |cut| < |Unlines(lines)| <==> |tail| < |Unlines(lines[1..])|
  {
    var full := Unlines(lines);
    assert full == lines[0] + "\n" + Unlines(lines[1..]);
    assert full[|lines[0]| + 1..] == Unlines(lines[1..]);
    assert cut == full[..|cut|];
  }

  // Go's strings.Index for one character.
  function IndexOf(s: string, c: char): (r: Option<nat>)
    ensures r.Some? ==> r.value < |s| && s[r.value] == c && c !in s[..r.value]
    ensures r.None? ==> c !in s
  {
    if s == "" then None
    else if s[0] == c then Some(0)
    else
      match IndexOf(s[1..], c)
      case None => None
      case Some(i) => assert s[..i + 1] == [s[0]] + s[1..][..i]; Some(i + 1)
  }

  lemma {:induction false} IndexOfFirst(before: string, c: char, after: string)
    requires c !in before
    ensures IndexOf(before + [c] + after, c) == Some(|before|)
  {
    if before != "" {
      assert (before + [c] + after)[1..] == before[1..] + [c] + after;
      IndexOfFirst(before[1..], c, after);
    }
  }

  // Go's strings.TrimRight(s, "\r\n").
  function TrimEol(s: string): (r: string)
    ensures r <= s
    ensures r != "" ==> r[|r| - 1] != '\r' && r[|r| - 1] != '\n'
  {
    if s != "" && (s[|s| - 1] == '\r' || s[|s| - 1] == '\n') then TrimEol(s[..|s| - 1]) else s
  }

  predicate EndsInEol(s: string)
  {
    s != "" && (s[|s| - 1] == '\r' || s[|s| - 1] == '\n')
  }

  lemma {:induction false} TrimEolAfter(prefix: string, s: string)
    requires prefix != "" && !EndsInEol(prefix)
    ensures TrimEol(prefix + s) == prefix + TrimEol(s)
  {
    if s == "" {
      assert prefix + s == prefix;
    } else if EndsInEol(s) {
      assert (prefix + s)[..|prefix + s| - 1] == prefix + s[..|s| - 1];
      TrimEolAfter(prefix, s[..|s| - 1]);
    }
  }

  // unicode.IsSpace as used by Go's fmt scanner.
  predicate IsSpace(c: char)
  {
    var n := c as int;
    0x09 <= n <= 0x0d || n == 0x20 || n == 0x85 || n == 0xa0 || n == 0x1680 || 0x2000 <= n <= 0x200a ||
    n == 0x2028 || n == 0x2029 || n == 0x202f || n == 0x205f || n == 0x3000
  }

  function SkipSpaces(s: string): string
  {
    if s != "" && IsSpace(s[0]) then SkipSpaces(s[1..]) else s
  }

  predicate IsDigit(c: char)
  {
    '0' <= c <= '9'
  }

  function LeadingDigits(s: string): (r: string)
    ensures forall i :: 0 <= i < |r| ==> IsDigit(r[i])
  {
    if s != "" && IsDigit(s[0]) then [s[0]] + LeadingDigits(s[1..]) else ""
  }

  function DigitValue(c: char): nat
    requires IsDigit(c)
  {
    c as int - '0' as int
  }

  function NatOf(digits: string): nat
    requires forall i :: 0 <= i < |digits| ==> IsDigit(digits[i])
  {
    if digits == "" then 0
    else 10 * NatOf(digits[..|digits| - 1]) + DigitValue(digits[|digits| - 1])
  }

  const MAX_INT64: int := 0x7fff_ffff_ffff_ffff

  // Go's 64-bit int.
  type GoInt = n: int | -MAX_INT64 - 1 <= n <= MAX_INT64

  // fmt.Sscanf(s, "%d", &n) into a zero n: blanks, a sign and digits; no digits or an
  // out-of-range number leave zero.
  function ScanInt(s: string): GoInt
  {
    var t := SkipSpaces(s);
    var signed := t != "" && (t[0] == '-' || t[0] == '+');
    var digits := LeadingDigits(if signed then t[1..] else t);
    if digits == "" then 0
    else
      var m: int := NatOf(digits);
      var n := if signed && t[0] == '-' then -m else m;
      if -MAX_INT64 - 1 <= n <= MAX_INT64 then n else 0
  }

  // fmt's %d for a natural number.
  function Decimal(n: nat): (s: string)
    ensures s != "" && forall i :: 0 <= i < |s| ==> IsDigit(s[i])
  {
    var last := [('0' as int + n % 10) as char];
    if n < 10 then last else Decimal(n / 10) + last
  }

  lemma {:induction false} NatOfDecimal(n: nat)
    ensures NatOf(Decimal(n)) == n
  {
    var s := Decimal(n);
    if n >= 10 {
      NatOfDecimal(n / 10);
      assert s[..|s| - 1] == Decimal(n / 10);
    }
  }

  lemma {:induction false} LeadingDigitsAll(s: string)
    requires forall i :: 0 <= i < |s| ==> IsDigit(s[i])
    ensures LeadingDigits(s) == s
  {
    if s != "" {
      LeadingDigitsAll(s[1..]);
    }
  }

  // Printing a number and scanning it back.
  lemma ScanDecimal(n: nat)
    requires n <= MAX_INT64
    ensures ScanInt(Decimal(n)) == n
  {
    var s := Decimal(n);
    assert IsDigit(s[0]);
    LeadingDigitsAll(s);
    NatOfDecimal(n);
  }

  lemma {:induction false} LeadingDigitsOf(digits: string, rest: string)
    requires (forall i :: 0 <= i < |digits| ==> IsDigit(digits[i])) && (rest == "" || !IsDigit(rest[0]))
    ensures LeadingDigits(digits + rest) == digits
    decreases digits
  {
    if digits == "" {
      assert digits + rest == rest;
    } else {
      assert (digits + rest)[1..] == digits[1..] + rest;
      LeadingDigitsOf(digits[1..], rest);
      assert digits == [digits[0]] + digits[1..];
    }
  }

  lemma {:induction false} SkipAllSpaces(spaces: string, rest: string)
    requires (forall i :: 0 <= i < |spaces| ==> IsSpace(spaces[i])) && (rest == "" || !IsSpace(rest[0]))
    ensures SkipSpaces(spaces + rest) == rest
    decreases spaces
  {
    if spaces == "" {
      assert spaces + rest == rest;
    } else {
      assert (spaces + rest)[1..] == spaces[1..] + rest;
      SkipAllSpaces(spaces[1..], rest);
    }
  }

  lemma NumberAt(n: nat, rest: string)
    requires rest == "" || !IsDigit(rest[0])
    ensures var number := Decimal(n) + rest;
            number != "" && IsDigit(number[0]) && LeadingDigits(number) == Decimal(n) && NatOf(Decimal(n)) == n
  {
    assert IsDigit(Decimal(n)[0]);
    LeadingDigitsOf(Decimal(n), rest);
    NatOfDecimal(n);
  }

  // What else the scanner accepts: blanks in front, a sign, and anything behind the digits; a number
  // that does not fit leaves zero.
  lemma ScanSigned(spaces: string, sign: string, n: nat, rest: string)
    requires (forall i :: 0 <= i < |spaces| ==> IsSpace(spaces[i])) && sign in {"", "+", "-"} && (rest == "" || !IsDigit(rest[0]))
    ensures var value := if sign == "-" then 0 - n else n;
            ScanInt(spaces + (sign + (Decimal(n) + rest))) == if -MAX_INT64 - 1 <= value <= MAX_INT64 then value else 0
  {
    var number := Decimal(n) + rest;
    var text := sign + number;
    NumberAt(n, rest);
    SkipAllSpaces(spaces, text);
    assert sign == "" ==> text == number;
    assert sign != "" ==> text[0] == sign[0] && text[1..] == number;
  }

  lemma ScanNothing(spaces: string, rest: string)
    requires forall i :: 0 <= i < |spaces| ==> IsSpace(spaces[i])
    requires rest == "" || (!IsSpace(rest[0]) && !IsDigit(rest[0]) && rest[0] != '-' && rest[0] != '+')
    ensures ScanInt(spaces + rest) == 0
  {
    SkipAllSpaces(spaces, rest);
  }
}
