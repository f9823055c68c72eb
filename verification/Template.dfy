/** The {key} interpolator of pkg/agent/template.go: a leftmost scan for placeholders, one
    replacement pass, and the strict form that refuses leftovers. */
module Template {
  import opened Text

  // ---------------------------------------------------------------- placeholders

  predicate IsWordChar(c: char) { 'A' <= c <= 'Z' || 'a' <= c <= 'z' || '0' <= c <= '9' || c == '_' }

  predicate IsWord(s: string) { s != "" && forall i :: 0 <= i < |s| ==> IsWordChar(s[i]) }

  // Letters, digits and underscore, by code.
  lemma WordCodes(c: char)
    ensures var n := c as int; IsWordChar(c) <==> 65 <= n <= 90 || 97 <= n <= 122 || 48 <= n <= 57 || n == 95
  {}

  // Words joined by dots.
  predicate IsKey(k: string) { forall i :: 0 <= i < |Split(k, '.')| ==> IsWord(Split(k, '.')[i]) }

  function Placeholder(k: string): string { "{" + k + "}" }

  // The key of the placeholder a text starts with, if it starts with one.
  function KeyAt(s: string): (r: Option<string>)
    ensures r.Some? ==> |r.value| + 2 <= |s|
  {
    if s == "" || s[0] != '{' then None
    else
      match IndexOf(s[1..], '}')
      case None => None
      case Some(i) => if IsKey(s[1..][..i]) then Some(s[1..][..i]) else None
  }

  lemma {:induction false} KeyChars(k: string)
    requires IsKey(k)
    ensures k != "" && forall i :: 0 <= i < |k| ==> IsWordChar(k[i]) || k[i] == '.'
  {
    JoinSplit(k, '.');
    JoinChars(Split(k, '.'));
    assert IsWord(Split(k, '.')[0]);
  }

  lemma {:induction false} JoinChars(parts: seq<string>)
    requires forall i :: 0 <= i < |parts| ==> IsWord(parts[i])
    ensures forall i :: 0 <= i < |Join(parts, '.')| ==> IsWordChar(Join(parts, '.')[i]) || Join(parts, '.')[i] == '.'
  {
    if |parts| > 1 {
      JoinChars(parts[1..]);
    }
  }

  lemma BehindBrace(s: string, k: string, rest: string)
    requires Placeholder(k) <= s && rest == s[|k| + 2..]
    ensures s[0] == '{' && s[1..] == k + ['}'] + rest
  {
    assert s == "{" + (k + "}" + rest);
  }

  // Reading the key off is exactly matching the pattern.
  lemma KeyAtIff(s: string, k: string)
    ensures KeyAt(s) == Some(k) <==> IsKey(k) && Placeholder(k) <= s
  {
    if KeyAt(s) == Some(k) {
      var i := |k|;
      assert s == s[..i + 2] + s[i + 2..];
      assert s[..i + 2] == Placeholder(k);
    }
    if IsKey(k) && Placeholder(k) <= s {
      KeyChars(k);
      var rest := s[|k| + 2..];
      BehindBrace(s, k, rest);
      IndexOfFirst(k, '}', rest);
      assert s[1..][..|k|] == k;
    }
  }

  // ---------------------------------------------------------------- the scan

  // Replaces each leftmost placeholder and goes on behind it.
  function Replace(s: string, fill: string -> string): string
  {
    if s == "" then ""
    else
      match KeyAt(s)
      case Some(k) => fill(k) + Replace(s[|k| + 2..], fill)
      case None => [s[0]] + Replace(s[1..], fill)
  }

  // The keys it meets, in order.
  function Keys(s: string): seq<string>
  {
    if s == "" then []
    else
      match KeyAt(s)
      case Some(k) => [k] + Keys(s[|k| + 2..])
      case None => Keys(s[1..])
  }

  // ---------------------------------------------------------------- what the scan computes

  // gap 0, fill 0, gap 1, fill 1, ..., last gap.
  function Interleave(gaps: seq<string>, fills: seq<string>): string
    requires |gaps| == |fills| + 1
  {
    if fills == [] then gaps[0] else gaps[0] + fills[0] + Interleave(gaps[1..], fills[1..])
  }

  function Map(fill: string -> string, keys: seq<string>): (r: seq<string>)
    ensures |r| == |keys| && forall i :: 0 <= i < |keys| ==> r[i] == fill(keys[i])
  {
    seq(|keys|, i requires 0 <= i < |keys| => fill(keys[i]))
  }

  ghost predicate NoPlaceholder(s: string)
  {
    forall i :: 0 <= i <= |s| ==> KeyAt(s[i..]).None?
  }

  // A text cut into literal gaps without placeholders and the placeholders between them.
  ghost predicate Segmented(s: string, gaps: seq<string>, keys: seq<string>)
  {
    && |gaps| == |keys| + 1 && s == Interleave(gaps, Map(Placeholder, keys))
    && (forall i :: 0 <= i < |keys| ==> IsKey(keys[i]))
    && (forall i :: 0 <= i < |gaps| ==> NoPlaceholder(gaps[i]))
  }

  // A key at the start of a text that begins with a gap would have to lie in the gap.
  lemma GapFirst(gap: string, keys: seq<string>, gaps: seq<string>)
    requires gap != "" && NoPlaceholder(gap) && |gaps| == |keys|
    ensures KeyAt(Interleave([gap] + gaps, Map(Placeholder, keys))).None?
  {
    var s := Interleave([gap] + gaps, Map(Placeholder, keys));
    assert gap <= s && (keys != [] ==> |s| > |gap| && s[|gap|] == '{') && (keys == [] ==> s == gap) by {
      if keys != [] { assert ([gap] + gaps)[1..] == gaps; }
    }
    assert gap[0..] == gap;
    forall k | IsKey(k) ensures !(Placeholder(k) <= s) {
      KeyChars(k);
      KeyAtIff(gap, k);
      assert forall i :: 0 < i < |k| + 2 ==> Placeholder(k)[i] != '{';
    }
    if KeyAt(s).Some? { KeyAtIff(s, KeyAt(s).value); }
  }

  // Everything behind the first gap.
  function Behind(gaps: seq<string>, fills: seq<string>): string
    requires |gaps| == |fills|
  {
    if fills == [] then "" else fills[0] + Interleave(gaps, fills[1..])
  }

  lemma InterleaveBehind(gap: string, gaps: seq<string>, fills: seq<string>)
    requires |gaps| == |fills|
    ensures Interleave([gap] + gaps, fills) == gap + Behind(gaps, fills)
  {
    assert ([gap] + gaps)[1..] == gaps;
  }

  lemma ShiftOne(gap: string, rest: string)
    requires gap != ""
    ensures gap + rest == [gap[0]] + (gap[1..] + rest) && gap <= gap + rest
  {}

  lemma InterleaveShift(gap: string, gaps: seq<string>, fills: seq<string>)
    requires |gaps| == |fills| && gap != ""
    ensures Interleave([gap] + gaps, fills) == [gap[0]] + Interleave([gap[1..]] + gaps, fills)
    ensures gap <= Interleave([gap] + gaps, fills)
  {
    var all, tail, rest := Interleave([gap] + gaps, fills), Interleave([gap[1..]] + gaps, fills), Behind(gaps, fills);
    assert all == gap + rest by { InterleaveBehind(gap, gaps, fills); }
    assert tail == gap[1..] + rest by { InterleaveBehind(gap[1..], gaps, fills); }
    ShiftOne(gap, rest);
  }

  lemma InterleaveFill(gaps: seq<string>, fills: seq<string>)
    requires |gaps| == |fills| && fills != []
    ensures Interleave([""] + gaps, fills) == fills[0] + Interleave(gaps, fills[1..])
  {
    InterleaveBehind("", gaps, fills);
    var rest := Behind(gaps, fills);
    assert "" + rest == rest;
  }

  lemma DropKey(k: string, rest: string)
    requires IsKey(k)
    ensures KeyAt(Placeholder(k) + rest) == Some(k) && (Placeholder(k) + rest)[|k| + 2..] == rest
  {
    KeyAtIff(Placeholder(k) + rest, k);
  }

  lemma TailNoPlaceholder(gap: string)
    requires gap != "" && NoPlaceholder(gap)
    ensures NoPlaceholder(gap[1..])
  {
    forall i | 0 <= i <= |gap[1..]| ensures KeyAt(gap[1..][i..]).None? {
      assert gap[1..][i..] == gap[i + 1..];
    }
  }

  // Dropping the first character of the first gap, or the first placeholder behind an empty one.
  lemma SegmentedTail(s: string, gap: string, more: seq<string>, keys: seq<string>)
    requires gap != "" && Segmented(s, [gap] + more, keys)
    ensures KeyAt(s).None? && s != "" && s[0] == gap[0] && Segmented(s[1..], [gap[1..]] + more, keys)
  {
    InterleaveShift(gap, more, Map(Placeholder, keys));
    GapFirst(gap, keys, more);
    TailNoPlaceholder(gap);
    assert forall i :: 0 <= i < |more| ==> more[i] == ([gap] + more)[i + 1];
  }

  lemma SegmentedRest(s: string, more: seq<string>, keys: seq<string>) returns (rest: string)
    requires keys != [] && Segmented(s, [""] + more, keys)
    ensures s == Placeholder(keys[0]) + rest && IsKey(keys[0]) && Segmented(rest, more, keys[1..])
  {
    var holes := Map(Placeholder, keys);
    InterleaveFill(more, holes);
    assert holes[1..] == Map(Placeholder, keys[1..]);
    rest := Interleave(more, holes[1..]);
    assert forall i :: 0 <= i < |more| ==> more[i] == ([""] + more)[i + 1];
  }

  // However a text is cut up, the scan keeps the gaps, replaces each placeholder by its fill and
  // never looks at what it inserted.
  lemma {:induction false} ReplaceSegmented(s: string, gaps: seq<string>, keys: seq<string>, fill: string -> string)
    requires Segmented(s, gaps, keys)
    ensures Replace(s, fill) == Interleave(gaps, Map(fill, keys)) && Keys(s) == keys
    decreases |s|
  {
    var gap, more, fills := gaps[0], gaps[1..], Map(fill, keys);
    assert gaps == [gap] + more;
    if gap != "" {
      SegmentedTail(s, gap, more, keys);
      InterleaveShift(gap, more, fills);
      ReplaceSegmented(s[1..], [gap[1..]] + more, keys, fill);
    } else if keys != [] {
      var rest := SegmentedRest(s, more, keys);
      InterleaveFill(more, fills);
      assert fills[1..] == Map(fill, keys[1..]);
      DropKey(keys[0], rest);
      ReplaceSegmented(rest, more, keys[1..], fill);
    }
  }

  lemma SegmentedKey(k: string, rest: string, gaps: seq<string>, keys: seq<string>)
    requires IsKey(k) && Segmented(rest, gaps, keys)
    ensures Segmented(Placeholder(k) + rest, [""] + gaps, [k] + keys)
  {
    assert Map(Placeholder, [k] + keys)[1..] == Map(Placeholder, keys);
    InterleaveFill(gaps, Map(Placeholder, [k] + keys));
    assert KeyAt(""[0..]).None?;
  }

  lemma SegmentedChar(s: string, gaps: seq<string>, keys: seq<string>)
    requires s != "" && KeyAt(s).None? && Segmented(s[1..], gaps, keys)
    ensures Segmented(s, [[s[0]] + gaps[0]] + gaps[1..], keys)
  {
    var gap, more := [s[0]] + gaps[0], gaps[1..];
    assert gaps == [gaps[0]] + more && gap[1..] == gaps[0];
    InterleaveShift(gap, more, Map(Placeholder, keys));
    assert s == [s[0]] + s[1..];
    LongerGap(s, gap);
  }

  // Every text can be cut up.
  lemma {:induction false} Segmentation(s: string) returns (gaps: seq<string>, keys: seq<string>)
    ensures Segmented(s, gaps, keys)
    decreases |s|
  {
    if s == "" {
      gaps, keys := [""], [];
    } else if KeyAt(s).Some? {
      var k := KeyAt(s).value;
      KeyAtIff(s, k);
      var rest := s[|k| + 2..];
      assert s == Placeholder(k) + rest;
      gaps, keys := Segmentation(rest);
      SegmentedKey(k, rest, gaps, keys);
      gaps, keys := [""] + gaps, [k] + keys;
    } else {
      gaps, keys := Segmentation(s[1..]);
      SegmentedChar(s, gaps, keys);
      gaps := [[s[0]] + gaps[0]] + gaps[1..];
    }
  }

  lemma LongerGap(s: string, gap: string)
    requires gap != "" && gap <= s && KeyAt(s).None? && NoPlaceholder(gap[1..])
    ensures NoPlaceholder(gap)
  {
    forall i | 0 <= i <= |gap| ensures KeyAt(gap[i..]).None? {
      if i > 0 {
        assert gap[i..] == gap[1..][i - 1..];
      } else {
        assert gap[0..] == gap;
        forall k ensures KeyAt(gap) != Some(k) {
          KeyAtIff(gap, k);
          KeyAtIff(s, k);
        }
      }
    }
  }

  // A text without placeholders is its own replacement.
  lemma NoKeysNoChange(s: string, fill: string -> string)
    ensures Keys(s) == [] <==> NoPlaceholder(s)
    ensures Keys(s) == [] ==> Replace(s, fill) == s
  {
    var gaps, keys := Segmentation(s);
    ReplaceSegmented(s, gaps, keys, fill);
    if keys == [] {
      assert gaps == [s];
    }
    if NoPlaceholder(s) {
      assert Map(Placeholder, []) == [];
      assert Segmented(s, [s], []);
      ReplaceSegmented(s, [s], [], fill);
    }
  }

  // ---------------------------------------------------------------- context values

  datatype Value = Scalar(text: string) | Dict(fields: map<string, Value>)

  // Following field names down nested maps.
  function Lookup(v: Value, parts: seq<string>): Option<Value>
    decreases |parts|
  {
    if parts == [] then Some(v)
    else if v.Dict? && parts[0] in v.fields then Lookup(v.fields[parts[0]], parts[1..])
    else None
  }

  method GetNestedValue(context: map<string, Value>, key: string) returns (r: Option<Value>)
    ensures r == Lookup(Dict(context), Split(key, '.'))
  {
    var parts := Split(key, '.');
    var current := Dict(context);
    for i := 0 to |parts|
      invariant Lookup(Dict(context), parts) == Lookup(current, parts[i..])
    {
      assert parts[i..][1..] == parts[i + 1..];
      match current {
        case Dict(fields) =>
          if parts[i] !in fields {
            return None;
          }
          current := fields[parts[i]];
        case Scalar(_) =>
          return None;
      }
    }
    r := Some(current);
  }

  // ---------------------------------------------------------------- interpolation

  // The context and how its values are shown; a nil context changes nothing.
  datatype Context = Nil | Context(values: map<string, Value>, show: Value -> string)

  function Resolve(c: Context, key: string): Option<string>
    requires c.Context?
  {
    match Lookup(Dict(c.values), Split(key, '.'))
    case None => None
    case Some(v) => Some(c.show(v))
  }

  function Fill(c: Context, key: string): string
    requires c.Context?
  {
    match Resolve(c, key) case None => Placeholder(key) case Some(text) => text
  }

  function Filler(c: Context): string -> string
    requires c.Context?
  {
    key => Fill(c, key)
  }

  function Missing(c: Context, keys: seq<string>): seq<string>
    requires c.Context?
  {
    if keys == [] then []
    else (if Resolve(c, keys[0]).None? then [keys[0]] else []) + Missing(c, keys[1..])
  }

  // The text and the keys warned about.
  function Interpolate(s: string, c: Context): (string, seq<string>)
  {
    if c.Nil? then (s, []) else (Replace(s, Filler(c)), Missing(c, Keys(s)))
  }

  function InterpolateStrict(s: string, c: Context): Option<string>
  {
    var (result, warnings) := Interpolate(s, c);
    if warnings != [] || HasTemplates(result) then None else Some(result)
  }

  // One step of the pass: the text put out, the keys warned about, and the text left.
  lemma NextStep(rest: string, c: Context)
    requires c.Context? && rest != ""
    ensures KeyAt(rest).None? ==>
              Replace(rest, Filler(c)) == [rest[0]] + Replace(rest[1..], Filler(c)) && Missing(c, Keys(rest)) == Missing(c, Keys(rest[1..]))
    ensures KeyAt(rest).Some? ==>
              var key := KeyAt(rest).value;
              var next := rest[|key| + 2..];
              && Replace(rest, Filler(c)) == Fill(c, key) + Replace(next, Filler(c))
              && Missing(c, Keys(rest)) == (if Resolve(c, key).None? then [key] else []) + Missing(c, Keys(next))
  {
    if KeyAt(rest).Some? {
      var key := KeyAt(rest).value;
      MissingFirst(c, key, Keys(rest[|key| + 2..]));
    }
  }

  lemma Regroup<T>(a: seq<T>, b: seq<T>, rest: seq<T>)
    ensures (a + b) + rest == a + (b + rest)
  {}

  // The replacement callback at a placeholder, and the copying of other characters.
  method ReplaceNext(rest: string, c: Context) returns (out: string, warned: seq<string>, next: string)
    requires c.Context? && rest != ""
    ensures Replace(rest, Filler(c)) == out + Replace(next, Filler(c))
    ensures Missing(c, Keys(rest)) == warned + Missing(c, Keys(next)) && |next| < |rest|
  {
    NextStep(rest, c);
    match KeyAt(rest) {
      case Some(key) =>
        next := rest[|key| + 2..];
        var value := GetNestedValue(c.values, key);
        if value.None? {
          out, warned := Placeholder(key), [key];
        } else {
          out, warned := c.show(value.value), [];
        }
      case None =>
        out, warned, next := [rest[0]], [], rest[1..];
    }
  }

  // One pass from left to right, collecting the keys that do not resolve.
  method InterpolateInstruction(instruction: string, c: Context) returns (result: string, warnings: seq<string>)
    ensures (result, warnings) == Interpolate(instruction, c)
  {
    if c.Nil? {
      return instruction, [];
    }
    ghost var text, missing := Interpolate(instruction, c).0, Interpolate(instruction, c).1;
    var rest := instruction;
    result, warnings := "", [];
    while rest != ""
      invariant result + Replace(rest, Filler(c)) == text
      invariant warnings + Missing(c, Keys(rest)) == missing
      decreases |rest|
    {
      var out, warned, next := ReplaceNext(rest, c);
      Regroup(result, out, Replace(next, Filler(c)));
      Regroup(warnings, warned, Missing(c, Keys(next)));
      result, warnings, rest := result + out, warnings + warned, next;
    }
    assert result + "" == result && warnings + [] == warnings;
  }

  lemma MissingFirst(c: Context, key: string, keys: seq<string>)
    requires c.Context?
    ensures Missing(c, [key] + keys) == (if Resolve(c, key).None? then [key] else []) + Missing(c, keys)
  {
    assert ([key] + keys)[1..] == keys;
  }

  // A match anywhere.
  predicate HasTemplates(s: string)
  {
    s != "" && (KeyAt(s).Some? || HasTemplates(s[1..]))
  }

  lemma {:induction false} HasTemplatesIff(s: string)
    ensures HasTemplates(s) <==> !NoPlaceholder(s)
  {
    assert s[0..] == s;
    if s != "" {
      HasTemplatesIff(s[1..]);
      assert forall i :: 1 <= i <= |s| ==> s[i..] == s[1..][i - 1..];
      if !NoPlaceholder(s[1..]) {
        var i :| 0 <= i <= |s[1..]| && KeyAt(s[1..][i..]).Some?;
        assert s[i + 1..] == s[1..][i..];
      }
    }
  }

  // Walking down the maps, field by field.
  ghost predicate Walk(path: seq<Value>, parts: seq<string>)
  {
    |path| == |parts| + 1 &&
    forall i :: 0 <= i < |parts| ==> path[i].Dict? && parts[i] in path[i].fields && path[i].fields[parts[i]] == path[i + 1]
  }

  lemma {:induction false} WalkFound(path: seq<Value>, parts: seq<string>)
    requires Walk(path, parts)
    ensures Lookup(path[0], parts) == Some(path[|parts|])
    decreases parts
  {
    if parts != [] {
      assert path[0].fields[parts[0]] == path[1];
      WalkFound(path[1..], parts[1..]);
    }
  }

  lemma {:induction false} FoundWalk(v: Value, parts: seq<string>) returns (path: seq<Value>)
    requires Lookup(v, parts).Some?
    ensures Walk(path, parts) && path[0] == v && path[|parts|] == Lookup(v, parts).value
    decreases parts
  {
    if parts == [] {
      path := [v];
    } else {
      var rest := FoundWalk(v.fields[parts[0]], parts[1..]);
      path := [v] + rest;
      forall i | 0 <= i < |parts|
        ensures path[i].Dict? && parts[i] in path[i].fields && path[i].fields[parts[i]] == path[i + 1]
      {
        if i > 0 { assert path[i] == rest[i - 1] && path[i + 1] == rest[i - 1 + 1] && parts[i] == parts[1..][i - 1]; }
      }
    }
  }

  // A dotted key leads to a value exactly along maps that have all its parts.
  lemma LookupIff(v: Value, parts: seq<string>, u: Value)
    ensures Lookup(v, parts) == Some(u) <==> exists path :: Walk(path, parts) && path[0] == v && path[|parts|] == u
  {
    if Lookup(v, parts) == Some(u) {
      var path := FoundWalk(v, parts);
    }
    if exists path :: Walk(path, parts) && path[0] == v && path[|parts|] == u {
      var path :| Walk(path, parts) && path[0] == v && path[|parts|] == u;
      WalkFound(path, parts);
    }
  }

  // What stands for a placeholder after a pass: the shown value, or the placeholder as it was.
  ghost predicate Stands(c: Context, key: string, text: string)
    requires c.Context?
  {
    var v := Lookup(Dict(c.values), Split(key, '.'));
    text == if v.Some? then c.show(v.value) else "{" + key + "}"
  }

  // Unresolved keys in order of occurrence: a list is that of its parts, and a single key is listed
  // exactly when it has no value.
  lemma {:induction false} MissingSplit(c: Context, a: seq<string>, b: seq<string>)
    requires c.Context?
    ensures Missing(c, a + b) == Missing(c, a) + Missing(c, b)
    decreases a
  {
    if a == [] {
      assert a + b == b;
    } else {
      assert (a + b)[1..] == a[1..] + b;
      MissingSplit(c, a[1..], b);
    }
  }

  lemma MissingOne(c: Context, key: string)
    requires c.Context?
    ensures Missing(c, [key]) == if Lookup(Dict(c.values), Split(key, '.')).None? then [key] else []
  {
    assert [key][1..] == [];
  }

  // The meaning of a pass, for the cut every text has: literal gaps stay, each placeholder becomes
  // its value or stays if its key is unresolved, and warnings list the unresolved keys in order.
  lemma InterpolateMeaning(s: string, c: Context) returns (gaps: seq<string>, keys: seq<string>, fills: seq<string>)
    requires c.Context?
    ensures Segmented(s, gaps, keys) && |fills| == |keys|
    ensures forall i :: 0 <= i < |keys| ==> Stands(c, keys[i], fills[i])
    ensures Interpolate(s, c) == (Interleave(gaps, fills), Missing(c, keys))
  {
    gaps, keys := Segmentation(s);
    fills := Map(Filler(c), keys);
    ReplaceSegmented(s, gaps, keys, Filler(c));
  }

  // A text none of whose keys resolves comes back as it was, with all of them listed.
  lemma UnresolvedStays(s: string, c: Context)
    requires c.Context? && forall i :: 0 <= i < |Keys(s)| ==> Resolve(c, Keys(s)[i]).None?
    ensures Interpolate(s, c) == (s, Keys(s))
  {
    var gaps, keys := Segmentation(s);
    ReplaceSegmented(s, gaps, keys, Filler(c));
    assert Map(Filler(c), keys) == Map(Placeholder, keys);
    AllMissing(c, keys);
  }

  lemma {:induction false} AllMissing(c: Context, keys: seq<string>)
    requires c.Context? && forall i :: 0 <= i < |keys| ==> Resolve(c, keys[i]).None?
    ensures Missing(c, keys) == keys
    decreases keys
  {
    if keys != [] {
      AllMissing(c, keys[1..]);
      assert keys == [keys[0]] + keys[1..];
    }
  }

  // A strict success holds no placeholder, so interpolating it again in any context is the identity.
  lemma StrictIsFinal(s: string, c: Context, again: Context)
    requires InterpolateStrict(s, c).Some?
    ensures var r := InterpolateStrict(s, c).value;
            NoPlaceholder(r) && Keys(r) == [] && Interpolate(r, again) == (r, []) && InterpolateStrict(r, again) == Some(r)
  {
    var r := InterpolateStrict(s, c).value;
    HasTemplatesIff(r);
    if again.Context? {
      NoKeysNoChange(r, Filler(again));
    } else {
      NoKeysNoChange(r, key => key);
    }
  }

  ghost predicate AllResolve(c: Context, keys: seq<string>)
    requires c.Context?
  {
    forall i :: 0 <= i < |keys| ==> Resolve(c, keys[i]).Some?
  }

  lemma {:induction false} NoneMissing(c: Context, keys: seq<string>)
    requires c.Context?
    ensures Missing(c, keys) == [] <==> AllResolve(c, keys)
    decreases keys
  {
    if keys != [] {
      NoneMissing(c, keys[1..]);
      if AllResolve(c, keys[1..]) && Resolve(c, keys[0]).Some? {
        forall i | 0 <= i < |keys| ensures Resolve(c, keys[i]).Some? {
          if i > 0 { assert keys[i] == keys[1..][i - 1]; }
        }
      }
      if AllResolve(c, keys) {
        forall i | 0 <= i < |keys[1..]| ensures Resolve(c, keys[1..][i]).Some? { assert keys[1..][i] == keys[i + 1]; }
      }
    }
  }

  // ---------------------------------------------------------------- when strict succeeds

  // The pieces a pass puts together: gap 0, fill 0, gap 1, ..., last gap.
  function Pieces(gaps: seq<string>, fills: seq<string>): seq<string>
    requires |gaps| == |fills| + 1
  {
    if fills == [] then gaps else [gaps[0], fills[0]] + Pieces(gaps[1..], fills[1..])
  }

  function Concat(pieces: seq<string>): string
  {
    if pieces == [] then "" else pieces[0] + Concat(pieces[1..])
  }

  lemma {:induction false} ConcatPieces(gaps: seq<string>, fills: seq<string>)
    requires |gaps| == |fills| + 1
    ensures Concat(Pieces(gaps, fills)) == Interleave(gaps, fills)
    decreases fills
  {
    if fills == [] {
      assert gaps[1..] == [] && gaps[0] + "" == gaps[0];
    } else {
      var rest := Pieces(gaps[1..], fills[1..]);
      ConcatPieces(gaps[1..], fills[1..]);
      assert ([gaps[0], fills[0]] + rest)[1..] == [fills[0]] + rest && ([fills[0]] + rest)[1..] == rest;
      Regroup(gaps[0], fills[0], Concat(rest));
    }
  }

  // A key and a closing brace.
  ghost predicate Closes(text: string) { exists k :: IsKey(k) && k + "}" <= text }

  // An opening brace at place j of piece i that the rest of its piece and the pieces behind it
  // complete to a placeholder.
  ghost predicate Completed(pieces: seq<string>, i: nat, j: nat)
    requires i < |pieces| && j < |pieces[i]|
  {
    pieces[i][j] == '{' && Closes(pieces[i][j + 1..] + Concat(pieces[i + 1..]))
  }

  ghost predicate NoneCompleted(pieces: seq<string>)
  {
    forall i, j :: 0 <= i < |pieces| && 0 <= j < |pieces[i]| ==> !Completed(pieces, i, j)
  }

  lemma PlaceholderStarts(text: string)
    requires text != ""
    ensures KeyAt(text).Some? <==> text[0] == '{' && Closes(text[1..])
  {
    if KeyAt(text).Some? {
      var k := KeyAt(text).value;
      KeyAtIff(text, k);
      BehindBrace(text, k, text[|k| + 2..]);
      assert k + "}" <= text[1..];
    }
    if text[0] == '{' && Closes(text[1..]) {
      var k :| IsKey(k) && k + "}" <= text[1..];
      assert Placeholder(k) == "{" + (k + "}") && text == "{" + text[1..];
      KeyAtIff(text, k);
    }
  }

  lemma CompletedAt(pieces: seq<string>, j: nat)
    requires pieces != [] && j < |pieces[0]|
    ensures Completed(pieces, 0, j) <==> KeyAt(Concat(pieces)[j..]).Some?
  {
    var text := Concat(pieces)[j..];
    assert text == pieces[0][j..] + Concat(pieces[1..]);
    assert text[0] == pieces[0][j] && text[1..] == pieces[0][j + 1..] + Concat(pieces[1..]);
    PlaceholderStarts(text);
  }

  lemma CompletedLater(pieces: seq<string>, i: nat, j: nat)
    requires i + 1 < |pieces| && j < |pieces[i + 1]|
    ensures Completed(pieces, i + 1, j) <==> Completed(pieces[1..], i, j)
  {
    assert pieces[1..][i + 1..] == pieces[i + 2..];
  }

  lemma NoneCompletedCons(pieces: seq<string>)
    requires pieces != []
    ensures NoneCompleted(pieces)
            <==> (forall j :: 0 <= j < |pieces[0]| ==> !Completed(pieces, 0, j)) && NoneCompleted(pieces[1..])
  {
    var rest := pieces[1..];
    forall i: nat, j: nat | i < |rest| && j < |rest[i]| ensures Completed(rest, i, j) <==> Completed(pieces, i + 1, j) {
      CompletedLater(pieces, i, j);
    }
    if (forall j :: 0 <= j < |pieces[0]| ==> !Completed(pieces, 0, j)) && NoneCompleted(rest) {
      forall i: nat, j: nat | i < |pieces| && j < |pieces[i]| ensures !Completed(pieces, i, j) {
        if i > 0 { assert Completed(rest, i - 1, j) <==> Completed(pieces, i - 1 + 1, j); }
      }
    }
  }

  lemma NoPlaceholderCons(p: string, rest: string)
    ensures NoPlaceholder(p + rest) <==> (forall j :: 0 <= j < |p| ==> KeyAt((p + rest)[j..]).None?) && NoPlaceholder(rest)
  {
    var s := p + rest;
    forall i | 0 <= i <= |rest| ensures s[|p| + i..] == rest[i..] {}
    if NoPlaceholder(s) {
      forall i | 0 <= i <= |rest| ensures KeyAt(rest[i..]).None? { assert KeyAt(s[|p| + i..]).None?; }
    }
    if (forall j :: 0 <= j < |p| ==> KeyAt(s[j..]).None?) && NoPlaceholder(rest) {
      forall i | 0 <= i <= |s| ensures KeyAt(s[i..]).None? {
        if i >= |p| { assert s[|p| + (i - |p|)..] == rest[i - |p|..]; }
      }
    }
  }

  lemma {:induction false} NoPlaceholderPieces(pieces: seq<string>)
    ensures NoPlaceholder(Concat(pieces)) <==> NoneCompleted(pieces)
  {
    if pieces == [] {
      assert KeyAt(""[0..]).None?;
    } else {
      NoPlaceholderPieces(pieces[1..]);
      NoPlaceholderCons(pieces[0], Concat(pieces[1..]));
      NoneCompletedCons(pieces);
      forall j | 0 <= j < |pieces[0]| ensures Completed(pieces, 0, j) <==> KeyAt(Concat(pieces)[j..]).Some? {
        CompletedAt(pieces, j);
      }
    }
  }

  // Whatever cut of the text one takes: strict interpolation succeeds exactly when every key
  // resolves and no opening brace in a gap or in a value is completed to a placeholder by what
  // follows it, and the result is then the gaps interleaved with the values.  Without a context it
  // succeeds exactly on texts without keys.
  lemma StrictIff(s: string, gaps: seq<string>, keys: seq<string>, c: Context)
    requires Segmented(s, gaps, keys)
    ensures c.Nil? ==> InterpolateStrict(s, c) == if keys == [] then Some(s) else None
    ensures c.Context? ==>
              InterpolateStrict(s, c)
              == if AllResolve(c, keys) && NoneCompleted(Pieces(gaps, Map(Filler(c), keys)))
                 then Some(Interleave(gaps, Map(Filler(c), keys))) else None
  {
    HasTemplatesIff(Interpolate(s, c).0);
    if c.Nil? {
      ReplaceSegmented(s, gaps, keys, Placeholder);
      NoKeysNoChange(s, Placeholder);
    } else {
      var fills := Map(Filler(c), keys);
      ReplaceSegmented(s, gaps, keys, Filler(c));
      NoneMissing(c, keys);
      ConcatPieces(gaps, fills);
      NoPlaceholderPieces(Pieces(gaps, fills));
    }
  }

  lemma {:induction false} PiecesWithout(gaps: seq<string>, fills: seq<string>, i: nat)
    requires |gaps| == |fills| + 1 && i < |Pieces(gaps, fills)|
    requires forall i :: 0 <= i < |gaps| ==> '{' !in gaps[i]
    requires forall i :: 0 <= i < |fills| ==> '{' !in fills[i]
    ensures '{' !in Pieces(gaps, fills)[i]
    decreases fills
  {
    if fills != [] && i >= 2 {
      PiecesWithout(gaps[1..], fills[1..], i - 2);
    }
  }

  // In particular when no opening brace stands outside a placeholder or in a value.
  lemma PlainStrict(s: string, gaps: seq<string>, keys: seq<string>, c: Context)
    requires c.Context? && Segmented(s, gaps, keys) && AllResolve(c, keys)
    requires forall i :: 0 <= i < |gaps| ==> '{' !in gaps[i]
    requires forall i :: 0 <= i < |keys| ==> '{' !in Fill(c, keys[i])
    ensures InterpolateStrict(s, c) == Some(Interleave(gaps, Map(Filler(c), keys)))
  {
    var fills := Map(Filler(c), keys);
    forall i: nat | i < |Pieces(gaps, fills)| ensures '{' !in Pieces(gaps, fills)[i] {
      PiecesWithout(gaps, fills, i);
    }
    StrictIff(s, gaps, keys, c);
  }

  lemma BraceGaps()
    ensures NoPlaceholder("{") && NoPlaceholder("}")
  {
    assert KeyAt("{"[0..]).None? && KeyAt("{"[1..]).None?;
    assert KeyAt("}"[0..]).None? && KeyAt("}"[1..]).None?;
  }

  lemma BracedSegments(k: string, fill: string -> string)
    requires IsKey(k)
    ensures Segmented("{" + Placeholder(k) + "}", ["{", "}"], [k])
    ensures Replace("{" + Placeholder(k) + "}", fill) == "{" + fill(k) + "}" && Keys("{" + Placeholder(k) + "}") == [k]
  {
    BraceGaps();
    var gaps: seq<string>, s := ["{", "}"], "{" + Placeholder(k) + "}";
    assert gaps[1..] == ["}"] && Map(Placeholder, [k])[1..] == [] && Map(fill, [k])[1..] == [];
    assert Interleave(gaps, Map(Placeholder, [k])) == s;
    ReplaceSegmented(s, gaps, [k], fill);
  }

  lemma BracedPieces(t: string)
    requires IsKey(t)
    ensures Pieces(["{", "}"], [t]) == ["{", t, "}"] && !NoneCompleted(["{", t, "}"])
    ensures Interleave(["{", "}"], [t]) == Placeholder(t)
  {
    var gaps: seq<string>, fills := ["{", "}"], [t];
    assert gaps[1..] == ["}"] && fills[1..] == [];
    assert Pieces(["}"], []) == ["}"];
    var pieces := ["{", t, "}"];
    assert pieces[1..] == [t, "}"] && [t, "}"][1..] == ["}"] && ["}"][1..] == [];
    assert Concat(["}"]) == "}" + "" == "}";
    assert "{"[1..] == "" && "" + (t + "}") == t + "}";
    assert Closes(t + "}");
    assert Completed(pieces, 0, 0);
  }

  // Inserted text can complete a placeholder with the braces around it: the only key resolves, and
  // strict interpolation still refuses.
  lemma ResolvedButRefused(k: string, c: Context)
    requires c.Context? && IsKey(k) && Resolve(c, k).Some? && IsKey(Resolve(c, k).value)
    ensures Interpolate("{" + Placeholder(k) + "}", c) == (Placeholder(Resolve(c, k).value), [])
    ensures InterpolateStrict("{" + Placeholder(k) + "}", c).None?
  {
    var t, s := Resolve(c, k).value, "{" + Placeholder(k) + "}";
    BracedSegments(k, Filler(c));
    NoneMissing(c, [k]);
    BracedPieces(t);
    assert Map(Filler(c), [k]) == [t];
    StrictIff(s, ["{", "}"], [k], c);
  }
}
