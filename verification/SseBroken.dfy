/** Streams that break, and lines no writer of ours prints: the reader's error path and its tolerance
    (ReadEvent in pkg/a2a/sse.go). */
module SseBroken {
  import opened Text
  import opened Sse
  import opened SseProofs

  // ---------------------------------------------------------------- call by call

  // The lines left after k read calls.
  function LinesAfterCalls(lines: seq<string>, k: nat, broken: Option<string>): seq<string>
    decreases k
  {
    if k == 0 then lines else LinesAfterCalls(ReadOne(lines, FRESH, broken).1, k - 1, broken)
  }

  function Ending(broken: Option<string>): ReadResult
  {
    match broken case None => Eof case Some(error) => Failed(error)
  }

  // The k-th call returns the k-th event, and the one after the last event reports how the stream
  // ended.
  lemma {:induction false} NthRead(lines: seq<string>, k: nat, broken: Option<string>)
    requires k <= |Decode(lines, FRESH, broken)|
    ensures var es := Decode(lines, FRESH, broken); var r := ReadOne(LinesAfterCalls(lines, k, broken), FRESH, broken).0;
            if k < |es| then r == Read(es[k]) else r == Ending(broken)
    decreases k
  {
    DecodeByCalls(lines, FRESH, broken);
    if k > 0 {
      NthRead(ReadOne(lines, FRESH, broken).1, k - 1, broken);
    }
  }

  // ---------------------------------------------------------------- a broken stream

  // A stream that breaks before the blank line that ends an event yields the error, whatever was
  // read of the event.
  lemma {:induction false} BreakFails(lines: seq<string>, d: Draft, error: string)
    requires NonBlank(lines)
    ensures ReadOne(lines, d, Some(error)) == (Failed(error), [])
    decreases lines
  {
    if lines != [] {
      assert TrimEol(lines[0]) != "";
      BreakFails(lines[1..], Accept(d, TrimEol(lines[0])), error);
    }
  }

  // How many events lie whole in the first n characters.
  function WholeEvents(es: seq<Event>, n: nat): (k: nat)
    ensures k <= |es|
    decreases es
  {
    if es == [] || n < |Encode(Ev(es[0]))| then 0
    else 1 + WholeEvents(es[1..], n - |Encode(Ev(es[0]))|)
  }

  lemma BrokenEvent(e: Event, cut: string, error: string)
    requires Clean(e) && cut < Encode(Ev(e))
    ensures Decode(Lines(cut), FRESH, Some(error)) == []
  {
    var lines, k := ItemLines(Ev(e)), WholeLines(ItemLines(Ev(e)), |cut|);
    ItemLinesFree(Ev(e));
    LinesOfPrefix(lines, cut);
    var part := FieldLines(e)[..k];
    assert lines[..k] == part;
    FieldsNonBlank(e);
    DecodeFeed(part, [], FRESH, Some(error));
    assert part + [] == part;
  }

  lemma WholeFirst(es: seq<Event>, first: string, n: nat)
    requires es != [] && first == Encode(Ev(es[0]))
    ensures n < |first| ==> WholeEvents(es, n) == 0 && CanonicalAll(es[..0]) == []
    ensures n >= |first| ==>
              var k := WholeEvents(es[1..], n - |first|);
              WholeEvents(es, n) == k + 1 && CanonicalAll(es[..k + 1]) == [Canonical(es[0])] + CanonicalAll(es[1..][..k])
  {
    if n >= |first| {
      var k := WholeEvents(es[1..], n - |first|);
      assert es[..k + 1][1..] == es[1..][..k];
    }
  }

  // A written stream cut at any character by a transport error yields exactly its whole events.
  lemma {:induction false} BrokenTruncation(es: seq<Event>, cut: string, error: string)
    requires AllClean(es) && cut <= EncodeAll(Items(es))
    ensures Decode(Lines(cut), FRESH, Some(error)) == CanonicalAll(es[..WholeEvents(es, |cut|)])
    decreases es
  {
    if es == [] {
      LinesUnterminated(cut);
    } else {
      var first, rest := Encode(Ev(es[0])), EncodeAll(Items(es[1..]));
      EncodeEvents(es);
      PrefixOfTwo(first, rest, cut);
      WholeFirst(es, first, |cut|);
      if |cut| < |first| {
        BrokenEvent(es[0], cut, error);
      } else {
        var tail := cut[|first|..];
        BrokenTruncation(es[1..], tail, error);
        DecodeWholeEvent(es[0], tail, Some(error));
      }
    }
  }

  // And the call after those returns the error.
  lemma BrokenReads(es: seq<Event>, cut: string, error: string, k: nat)
    requires AllClean(es) && cut <= EncodeAll(Items(es)) && k <= WholeEvents(es, |cut|)
    ensures var r := ReadOne(LinesAfterCalls(Lines(cut), k, Some(error)), FRESH, Some(error)).0;
            if k < WholeEvents(es, |cut|) then r == Read(Canonical(es[k])) else r == Failed(error)
  {
    var whole := es[..WholeEvents(es, |cut|)];
    BrokenTruncation(es, cut, error);
    CanonicalAt(whole);
    NthRead(Lines(cut), k, Some(error));
  }

  // ---------------------------------------------------------------- lines in other forms

  // A value needs no blank in front of it; of several blanks one is dropped.
  lemma BareField(d: Draft, field: string, value: string)
    requires field != "" && ':' !in field && (value == "" || value[0] != ' ')
    ensures Accept(d, field + ":" + value) == Assign(d, field, value)
    ensures Accept(d, field + ":" + (" " + value)) == Assign(d, field, value)
    ensures Accept(d, field + ":" + ("  " + value)) == Assign(d, field, " " + value)
  {
    FieldValue(d, field, value);
    FieldValue(d, field, " " + value);
    FieldValue(d, field, "  " + value);
    assert (" " + value)[1..] == value && ("  " + value)[1..] == " " + value;
  }

  lemma FieldValue(d: Draft, field: string, raw: string)
    requires field != "" && ':' !in field
    ensures Accept(d, field + ":" + raw) == Assign(d, field, TrimOneBlank(raw))
  {
    var line := field + ":" + raw;
    assert line == field + [':'] + raw;
    IndexOfFirst(field, ':', raw);
    assert line[..|field|] == field && line[|field| + 1..] == raw && line[0] == field[0];
  }

  // Comments, lines without a colon and unknown fields change nothing.
  lemma NoiseIgnored(d: Draft, line: string, field: string, value: string)
    requires line != "" && ':' !in line
    requires field != "" && ':' !in field && field !in {"event", "data", "id", "retry"}
    ensures Accept(d, line) == d && Accept(d, ":" + value) == d && Accept(d, field + ":" + value) == d
  {
    FieldValue(d, field, value);
  }

  // The four fields, each touching its own part of the draft; only data lines add up.
  lemma FieldsAssigned(d: Draft, value: string)
    ensures Assign(d, "event", value) == Draft(d.id, value, d.dataLines, d.retry)
    ensures Assign(d, "data", value) == Draft(d.id, d.name, d.dataLines + [value], d.retry)
    ensures Assign(d, "id", value) == Draft(value, d.name, d.dataLines, d.retry)
    ensures Assign(d, "retry", value) == Draft(d.id, d.name, d.dataLines, ScanInt(value))
  {}
}
