/** The writer and the reader undo each other: over whole streams with comments and
    retry-only events, and over streams cut at any character. */
module SseProofs {
  import opened Text
  import opened Sse

  // ---------------------------------------------------------------- what the reader sees

  function TrimAll(parts: seq<string>): (r: seq<string>)
    ensures |r| == |parts|
    ensures forall i :: 0 <= i < |parts| ==> r[i] == TrimEol(parts[i])
  {
    seq(|parts|, i requires 0 <= i < |parts| => TrimEol(parts[i]))
  }

  function Later(e: Event, pending: GoInt): GoInt { if e.retry > 0 then e.retry else pending }

  // An event as the reader reports it: line ends trimmed, an unset retry taken from a
  // retry-only event before it.
  function Received(e: Event, pending: GoInt): Event
  {
    Event(TrimEol(e.id), TrimEol(e.name),
          if e.data.None? then None else Some(Join(TrimAll(Split(e.data.value, '\n')), '\n')),
          Later(e, pending))
  }

  predicate Visible(e: Event)
  {
    e.data.Some? || TrimEol(e.id) != "" || TrimEol(e.name) != ""
  }

  // The events a reader gets out of a written stream.
  function Delivered(items: seq<Item>, pending: GoInt): seq<Event>
  {
    if items == [] then []
    else
      match items[0]
      case Comment(_) => Delivered(items[1..], pending)
      case Ev(e) =>
        if Visible(e) then [Received(e, pending)] + Delivered(items[1..], 0)
        else Delivered(items[1..], Later(e, pending))
  }

  ghost predicate SingleLine(item: Item)
  {
    match item
    case Ev(e) => '\n' !in e.id && '\n' !in e.name
    case Comment(text) => '\n' !in text
  }

  ghost predicate AllSingleLine(items: seq<Item>)
  {
    forall i :: 0 <= i < |items| ==> SingleLine(items[i])
  }

  // ---------------------------------------------------------------- feeding field lines

  ghost predicate NonBlank(lines: seq<string>)
  {
    forall i :: 0 <= i < |lines| ==> TrimEol(lines[i]) != ""
  }

  // One line that does not end an event.
  function TakeLine(d: Draft, raw: string): Draft
  {
    var line := TrimEol(raw);
    if line == "" then d else Accept(d, line)
  }

  ghost function Fold(step: (Draft, string) -> Draft, d: Draft, lines: seq<string>): Draft
    decreases lines
  {
    if lines == [] then d else Fold(step, step(d, lines[0]), lines[1..])
  }

  ghost function Feed(d: Draft, lines: seq<string>): Draft { Fold(TakeLine, d, lines) }

  lemma {:induction false} FoldAppend(step: (Draft, string) -> Draft, d: Draft, a: seq<string>, b: seq<string>)
    ensures Fold(step, d, a + b) == Fold(step, Fold(step, d, a), b)
    decreases a
  {
    if a == [] {
      assert a + b == b;
    } else {
      assert (a + b)[1..] == a[1..] + b;
      FoldAppend(step, step(d, a[0]), a[1..], b);
    }
  }

  lemma FoldOne(step: (Draft, string) -> Draft, d: Draft, line: string)
    ensures Fold(step, d, [line]) == step(d, line)
  {
    assert [line][1..] == [];
  }

  lemma {:induction false} FoldSame(f: (Draft, string) -> Draft, g: (Draft, string) -> Draft, d: Draft,
                                    a: seq<string>, b: seq<string>)
    requires |a| == |b| && forall i, d' :: 0 <= i < |a| ==> f(d', a[i]) == g(d', b[i])
    ensures Fold(f, d, a) == Fold(g, d, b)
    decreases a
  {
    if a != [] {
      FoldSame(f, g, f(d, a[0]), a[1..], b[1..]);
    }
  }

  function Push(d: Draft, v: string): Draft { d.(dataLines := d.dataLines + [v]) }

  lemma {:induction false} FoldPush(d: Draft, vals: seq<string>)
    ensures Fold(Push, d, vals) == d.(dataLines := d.dataLines + vals)
    decreases vals
  {
    if vals == [] {
      assert d.dataLines + vals == d.dataLines;
    } else {
      FoldPush(Push(d, vals[0]), vals[1..]);
      assert Push(d, vals[0]).dataLines + vals[1..] == d.dataLines + vals;
    }
  }

  lemma {:induction false} DecodeFeed(lines: seq<string>, rest: seq<string>, d: Draft, broken: Option<string>)
    requires NonBlank(lines)
    ensures Decode(lines + rest, d, broken) == Decode(rest, Feed(d, lines), broken)
    decreases lines
  {
    if lines == [] {
      assert lines + rest == rest;
    } else {
      assert (lines + rest)[0] == lines[0] && (lines + rest)[1..] == lines[1..] + rest;
      DecodeFeed(lines[1..], rest, TakeLine(d, lines[0]), broken);
    }
  }

  lemma TrimField(field: string, value: string)
    ensures TrimEol(FieldLine(field, value)) == FieldLine(field, TrimEol(value))
    ensures TrimEol(FieldLine(field, value)) != ""
  {
    TrimEolAfter(field + ": ", value);
  }

  lemma AcceptField(d: Draft, field: string, value: string)
    requires field != "" && ':' !in field
    ensures Accept(d, FieldLine(field, value)) == Assign(d, field, value)
  {
    var line := FieldLine(field, value);
    assert line == field + [':'] + (" " + value);
    IndexOfFirst(field, ':', " " + value);
    assert line[..|field|] == field;
    assert line[|field| + 1..] == " " + value;
    assert TrimOneBlank(" " + value) == value;
    assert line[0] == field[0];
  }

  // A printed field is read back with its value, line end trimmed.
  lemma TakeField(d: Draft, field: string, value: string)
    requires field != "" && ':' !in field
    ensures TakeLine(d, FieldLine(field, value)) == Assign(d, field, TrimEol(value))
  {
    TrimField(field, value);
    AcceptField(d, field, TrimEol(value));
  }

  lemma FeedId(e: Event, d: Draft)
    requires d.id == ""
    ensures Feed(d, IdLine(e)) == d.(id := TrimEol(e.id))
  {
    if e.id != "" {
      FoldOne(TakeLine, d, FieldLine("id", e.id));
      TakeField(d, "id", e.id);
    }
  }

  lemma FeedName(e: Event, d: Draft)
    requires d.name == ""
    ensures Feed(d, NameLine(e)) == d.(name := TrimEol(e.name))
  {
    if e.name != "" {
      FoldOne(TakeLine, d, FieldLine("event", e.name));
      TakeField(d, "event", e.name);
    }
  }

  lemma FeedHead(e: Event, d: Draft)
    requires d.id == "" && d.name == ""
    ensures Feed(d, IdLine(e) + NameLine(e)) == d.(id := TrimEol(e.id), name := TrimEol(e.name))
  {
    FeedId(e, d);
    FeedName(e, d.(id := TrimEol(e.id)));
    FoldAppend(TakeLine, d, IdLine(e), NameLine(e));
  }

  lemma TakeData(d: Draft, part: string)
    ensures TakeLine(d, FieldLine("data", part)) == Push(d, TrimEol(part))
  {
    TakeField(d, "data", part);
  }

  lemma FeedData(d: Draft, parts: seq<string>)
    ensures Feed(d, Prefixed(parts)) == d.(dataLines := d.dataLines + TrimAll(parts))
  {
    var lines, vals := Prefixed(parts), TrimAll(parts);
    forall i, d' | 0 <= i < |lines| ensures TakeLine(d', lines[i]) == Push(d', vals[i]) {
      TakeData(d', parts[i]);
    }
    FoldSame(TakeLine, Push, d, lines, vals);
    FoldPush(d, vals);
  }

  lemma {:induction false} TrimDigits(s: string)
    requires forall i :: 0 <= i < |s| ==> IsDigit(s[i])
    ensures TrimEol(s) == s
  {}

  lemma TakeRetry(d: Draft, n: nat)
    requires n <= MAX_INT64
    ensures TakeLine(d, FieldLine("retry", Decimal(n))) == d.(retry := n)
  {
    TakeField(d, "retry", Decimal(n));
    TrimDigits(Decimal(n));
    ScanDecimal(n);
  }

  lemma FeedRetry(e: Event, d: Draft)
    ensures Feed(d, RetryLine(e)) == d.(retry := Later(e, d.retry))
  {
    if e.retry > 0 {
      FoldOne(TakeLine, d, FieldLine("retry", Decimal(e.retry)));
      TakeRetry(d, e.retry);
    }
  }

  function PartsOf(e: Event): seq<string>
  {
    if e.data.None? then [] else Split(e.data.value, '\n')
  }

  lemma NonBlankAppend(a: seq<string>, b: seq<string>)
    requires NonBlank(a) && NonBlank(b)
    ensures NonBlank(a + b)
  {
    forall i | 0 <= i < |a + b| ensures TrimEol((a + b)[i]) != "" {
      if i < |a| { assert (a + b)[i] == a[i]; } else { assert (a + b)[i] == b[i - |a|]; }
    }
  }

  lemma DataNonBlank(e: Event)
    ensures NonBlank(DataLines(e))
  {
    forall i | 0 <= i < |DataLines(e)| ensures TrimEol(DataLines(e)[i]) != "" {
      TrimField("data", PartsOf(e)[i]);
    }
  }

  lemma FieldsNonBlank(e: Event)
    ensures NonBlank(FieldLines(e))
  {
    assert NonBlank(IdLine(e)) by { TrimField("id", e.id); }
    assert NonBlank(NameLine(e)) by { TrimField("event", e.name); }
    assert NonBlank(RetryLine(e)) by { if e.retry > 0 { TrimField("retry", Decimal(e.retry)); } }
    DataNonBlank(e);
    NonBlankAppend(IdLine(e), NameLine(e));
    NonBlankAppend(IdLine(e) + NameLine(e), DataLines(e));
    NonBlankAppend(IdLine(e) + NameLine(e) + DataLines(e), RetryLine(e));
  }

  lemma FeedEvent(e: Event, pending: GoInt)
    ensures Feed(FRESH.(retry := pending), FieldLines(e))
            == Draft(TrimEol(e.id), TrimEol(e.name), TrimAll(PartsOf(e)), Later(e, pending))
  {
    var d := FRESH.(retry := pending);
    FeedHead(e, d);
    var d1 := d.(id := TrimEol(e.id), name := TrimEol(e.name));
    FeedData(d1, PartsOf(e));
    var d2 := d1.(dataLines := TrimAll(PartsOf(e)));
    assert d1.dataLines + TrimAll(PartsOf(e)) == TrimAll(PartsOf(e));
    assert DataLines(e) == Prefixed(PartsOf(e));
    FeedRetry(e, d2);
    FoldAppend(TakeLine, d, IdLine(e) + NameLine(e), DataLines(e));
    FoldAppend(TakeLine, d, IdLine(e) + NameLine(e) + DataLines(e), RetryLine(e));
  }

  // ---------------------------------------------------------------- round trip

  lemma FieldFree(field: string, value: string)
    requires '\n' !in field && '\n' !in value
    ensures '\n' !in FieldLine(field, value)
  {}

  lemma DataLinesFree(e: Event)
    ensures Free(DataLines(e), '\n')
  {
    if e.data.Some? {
      JoinSplit(e.data.value, '\n');
      forall i | 0 <= i < |PartsOf(e)| ensures '\n' !in DataLines(e)[i] { FieldFree("data", PartsOf(e)[i]); }
    }
  }

  lemma ItemLinesFree(item: Item)
    requires SingleLine(item)
    ensures Free(ItemLines(item), '\n')
  {
    if item.Ev? {
      var e := item.event;
      assert Free(IdLine(e), '\n') by { FieldFree("id", e.id); }
      assert Free(NameLine(e), '\n') by { FieldFree("event", e.name); }
      assert Free(RetryLine(e), '\n') by {
        if e.retry > 0 { FieldFree("retry", Decimal(e.retry)); }
      }
      DataLinesFree(e);
    }
  }

  // What decoding yields when `item` comes first and `rest` follows.
  ghost function WithItem(item: Item, rest: seq<string>, pending: GoInt, broken: Option<string>): seq<Event>
  {
    match item
    case Comment(_) => Decode(rest, FRESH.(retry := pending), broken)
    case Ev(e) =>
      if Visible(e) then [Received(e, pending)] + Decode(rest, FRESH, broken)
      else Decode(rest, FRESH.(retry := Later(e, pending)), broken)
  }

  lemma DecodeComment(text: string, rest: seq<string>, d: Draft, broken: Option<string>)
    requires KeepAlive(d)
    ensures Decode([": " + text, ""] + rest, d, broken) == Decode(rest, d, broken)
  {
    var all := [": " + text, ""] + rest;
    TrimEolAfter(": ", text);
    assert TrimEol(all[0])[0] == ':';
    assert all[1..] == [""] + rest && ([""] + rest)[1..] == rest;
  }

  lemma DecodeBlank(rest: seq<string>, d: Draft, broken: Option<string>)
    ensures Decode([""] + rest, d, broken)
            == if KeepAlive(d) then Decode(rest, d, broken) else [Finish(d)] + Decode(rest, FRESH, broken)
  {
    assert ([""] + rest)[1..] == rest;
  }

  lemma DecodeEvent(e: Event, rest: seq<string>, pending: GoInt, broken: Option<string>)
    ensures Decode(FieldLines(e) + [""] + rest, FRESH.(retry := pending), broken) == WithItem(Ev(e), rest, pending, broken)
  {
    var d := FRESH.(retry := pending);
    FieldsNonBlank(e);
    assert FieldLines(e) + [""] + rest == FieldLines(e) + ([""] + rest);
    DecodeFeed(FieldLines(e), [""] + rest, d, broken);
    FeedEvent(e, pending);
    var d' := Feed(d, FieldLines(e));
    DecodeBlank(rest, d', broken);
    assert KeepAlive(d') <==> !Visible(e);
  }

  lemma DecodeItem(item: Item, rest: seq<string>, pending: GoInt, broken: Option<string>)
    ensures Decode(ItemLines(item) + rest, FRESH.(retry := pending), broken) == WithItem(item, rest, pending, broken)
  {
    match item {
      case Comment(text) => DecodeComment(text, rest, FRESH.(retry := pending), broken);
      case Ev(e) => DecodeEvent(e, rest, pending, broken);
    }
  }

  lemma DecodeFirst(items: seq<Item>, pending: GoInt, broken: Option<string>)
    requires items != [] && SingleLine(items[0])
    ensures Decode(Lines(EncodeAll(items)), FRESH.(retry := pending), broken)
            == WithItem(items[0], Lines(EncodeAll(items[1..])), pending, broken)
  {
    EncodeCons(items);
    ItemLinesFree(items[0]);
    LinesAfter(ItemLines(items[0]), EncodeAll(items[1..]));
    DecodeItem(items[0], Lines(EncodeAll(items[1..])), pending, broken);
  }

  // Reading a whole written stream, whether it ends or breaks.
  lemma {:induction false} RoundTrip(items: seq<Item>, pending: GoInt, broken: Option<string>)
    requires AllSingleLine(items)
    ensures Decode(Lines(EncodeAll(items)), FRESH.(retry := pending), broken) == Delivered(items, pending)
  {
    if items == [] {
      LinesUnterminated("");
    } else {
      DecodeFirst(items, pending, broken);
      match items[0] {
        case Comment(_) => RoundTrip(items[1..], pending, broken);
        case Ev(e) => RoundTrip(items[1..], if Visible(e) then 0 else Later(e, pending), broken);
      }
    }
  }

  // ---------------------------------------------------------------- exactly which events survive

  ghost predicate Tidy(s: string) { '\n' !in s && !EndsInEol(s) }

  ghost predicate AllTidy(parts: seq<string>)
  {
    forall i :: 0 <= i < |parts| ==> Tidy(parts[i])
  }

  // Some content, single-line id and name, and no carriage return before a line end.
  ghost predicate Clean(e: Event)
  {
    && (e.data.Some? || e.id != "" || e.name != "")
    && Tidy(e.id) && Tidy(e.name) && AllTidy(PartsOf(e))
  }

  // A retry that is not positive is not written, so it reads as zero.
  function Canonical(e: Event): Event { e.(retry := if e.retry > 0 then e.retry else 0) }

  function CanonicalAll(es: seq<Event>): seq<Event>
  {
    if es == [] then [] else [Canonical(es[0])] + CanonicalAll(es[1..])
  }

  function Items(es: seq<Event>): (items: seq<Item>)
    ensures |items| == |es|
    ensures forall i :: 0 <= i < |es| ==> items[i] == Ev(es[i])
  {
    seq(|es|, i requires 0 <= i < |es| => Ev(es[i]))
  }

  ghost predicate AllClean(es: seq<Event>)
  {
    forall i :: 0 <= i < |es| ==> Clean(es[i])
  }

  lemma CleanReceived(e: Event)
    requires Clean(e)
    ensures Visible(e) && Received(e, 0) == Canonical(e)
  {
    if e.data.Some? {
      assert TrimAll(PartsOf(e)) == PartsOf(e);
      JoinSplit(e.data.value, '\n');
    }
  }

  lemma {:induction false} CleanDelivered(es: seq<Event>)
    requires AllClean(es)
    ensures Delivered(Items(es), 0) == CanonicalAll(es)
  {
    if es != [] {
      CleanReceived(es[0]);
      CleanDelivered(es[1..]);
      assert Items(es)[1..] == Items(es[1..]);
    }
  }

  ghost predicate TidyDraft(d: Draft)
  {
    Tidy(d.id) && Tidy(d.name) && AllTidy(d.dataLines)
  }

  lemma AssignTidy(d: Draft, field: string, value: string)
    requires TidyDraft(d) && Tidy(value)
    ensures TidyDraft(Assign(d, field, value))
  {}

  lemma SuffixTidy(line: string, i: nat)
    requires Tidy(line) && i <= |line|
    ensures Tidy(line[i..]) && Tidy(TrimOneBlank(line[i..]))
  {
    var value := TrimOneBlank(line[i..]);
    assert value == line[|line| - |value|..];
  }

  lemma AcceptTidy(d: Draft, line: string)
    requires TidyDraft(d) && line != "" && Tidy(line)
    ensures TidyDraft(Accept(d, line))
  {
    var i := IndexOf(line, ':');
    if line[0] != ':' && i.Some? {
      SuffixTidy(line, i.value + 1);
      AssignTidy(d, line[..i.value], TrimOneBlank(line[i.value + 1..]));
    }
  }

  lemma FinishClean(d: Draft)
    requires TidyDraft(d) && !KeepAlive(d)
    ensures Clean(Finish(d))
  {
    if d.dataLines != [] {
      SplitJoin(d.dataLines, '\n');
    }
  }

  // Whatever the bytes, every event read is clean.
  lemma {:induction false} DecodedClean(lines: seq<string>, d: Draft, broken: Option<string>)
    requires Free(lines, '\n') && TidyDraft(d)
    ensures AllClean(Decode(lines, d, broken))
    decreases lines
  {
    if lines == [] {
      if d.dataLines != [] { FinishClean(d); }
    } else {
      var line := TrimEol(lines[0]);
      if line != "" {
        AcceptTidy(d, line);
        DecodedClean(lines[1..], Accept(d, line), broken);
      } else if KeepAlive(d) {
        DecodedClean(lines[1..], d, broken);
      } else {
        FinishClean(d);
        DecodedClean(lines[1..], FRESH, broken);
      }
    }
  }

  lemma {:induction false} CanonicalAt(es: seq<Event>)
    ensures |CanonicalAll(es)| == |es|
    ensures forall i :: 0 <= i < |es| ==> CanonicalAll(es)[i] == Canonical(es[i])
  {
    if es != [] { CanonicalAt(es[1..]); }
  }

  // A list of events comes back unchanged, in order and followed by EOF, exactly when every
  // event in it is clean.
  lemma ExactRoundTrip(es: seq<Event>)
    ensures DecodeText(EncodeAll(Items(es))) == CanonicalAll(es) <==> AllClean(es)
  {
    var text := EncodeAll(Items(es));
    CanonicalAt(es);
    if AllClean(es) {
      CleanDelivered(es);
      RoundTrip(Items(es), 0, None);
    }
    if DecodeText(text) == CanonicalAll(es) {
      LinesFree(text);
      DecodedClean(Lines(text), FRESH, None);
      forall i | 0 <= i < |es| ensures Clean(es[i]) {
        assert Clean(CanonicalAll(es)[i]);
        assert PartsOf(Canonical(es[i])) == PartsOf(es[i]);
      }
    }
  }

  // Whatever bytes arrive, writing the events read and reading them again gives the same events, up
  // to a retry that is not positive.
  lemma ReadAgain(text: string)
    ensures var es := DecodeText(text); DecodeText(EncodeAll(Items(es))) == CanonicalAll(es)
  {
    LinesFree(text);
    DecodedClean(Lines(text), FRESH, None);
    ExactRoundTrip(DecodeText(text));
  }

  // Comments anywhere in a stream change nothing.
  lemma {:induction false} CommentsIgnored(before: seq<Item>, text: string, after: seq<Item>, pending: GoInt)
    requires AllSingleLine(before) && '\n' !in text && AllSingleLine(after)
    ensures Decode(Lines(EncodeAll(before + [Comment(text)] + after)), FRESH.(retry := pending), None)
            == Decode(Lines(EncodeAll(before + after)), FRESH.(retry := pending), None)
  {
    RoundTrip(before + [Comment(text)] + after, pending, None);
    RoundTrip(before + after, pending, None);
    DeliveredSkips(before, text, after, pending);
  }

  lemma {:induction false} DeliveredSkips(before: seq<Item>, text: string, after: seq<Item>, pending: GoInt)
    ensures Delivered(before + [Comment(text)] + after, pending) == Delivered(before + after, pending)
    decreases before
  {
    if before == [] {
      assert before + after == after;
      assert (before + [Comment(text)] + after)[1..] == after;
    } else {
      assert (before + [Comment(text)] + after)[1..] == before[1..] + [Comment(text)] + after;
      assert (before + after)[1..] == before[1..] + after;
      DeliveredSkips(before[1..], text, after, pending);
      DeliveredSkips(before[1..], text, after, 0);
      if before[0].Ev? {
        DeliveredSkips(before[1..], text, after, Later(before[0].event, pending));
      }
    }
  }

  // A retry-only event yields nothing itself and sets the retry of the next event, unless that
  // event has its own.
  lemma RetryAbsorbed(retry: GoInt, e: Event, rest: seq<Item>)
    requires retry > 0 && Clean(e) && AllSingleLine(rest)
    ensures DecodeText(EncodeAll([Ev(Event("", "", None, retry)), Ev(e)] + rest))
            == [e.(retry := if e.retry > 0 then e.retry else retry)] + DecodeText(EncodeAll(rest))
  {
    var only := Event("", "", None, retry);
    var items := [Ev(only), Ev(e)] + rest;
    RoundTrip(items, 0, None);
    RoundTrip(rest, 0, None);
    assert items[1..] == [Ev(e)] + rest && items[1..][1..] == rest;
    CleanReceived(e);
    assert Received(e, retry) == Received(e, 0).(retry := Later(e, retry));
  }

  // ---------------------------------------------------------------- truncated streams

  // How many of the first k lines of an event are data lines.
  function DataAmong(e: Event, k: nat): (j: nat)
    ensures j <= |PartsOf(e)|
  {
    var head := |IdLine(e)| + |NameLine(e)|;
    if k <= head then 0 else if k - head <= |PartsOf(e)| then k - head else |PartsOf(e)|
  }

  // What the first k lines of an event yield at the end of the stream: nothing without a data line,
  // else its id, its name, the data lines that arrived, and its retry if that line arrived too.
  function FromLines(e: Event, k: nat): seq<Event>
  {
    var j := DataAmong(e, k);
    if j == 0 then []
    else [Event(e.id, e.name, Some(Join(PartsOf(e)[..j], '\n')), if k >= |FieldLines(e)| then Later(e, 0) else 0)]
  }

  // The whole events of a stream cut after n characters and what is left of the next one.
  function CutStream(es: seq<Event>, n: nat): seq<Event>
    decreases es
  {
    if es == [] then []
    else
      var size := |Encode(Ev(es[0]))|;
      if n < size then FromLines(es[0], WholeLines(ItemLines(Ev(es[0])), n))
      else [Canonical(es[0])] + CutStream(es[1..], n - size)
  }

  // The draft holds an id, a name and the first n data lines of a clean event.
  lemma CutInData(e: Event, n: nat)
    requires Clean(e) && n <= |PartsOf(e)|
    ensures Feed(FRESH, IdLine(e) + NameLine(e) + Prefixed(PartsOf(e)[..n]))
            == Draft(e.id, e.name, PartsOf(e)[..n], 0)
  {
    var some := PartsOf(e)[..n];
    FeedHead(e, FRESH);
    FeedData(FRESH.(id := e.id, name := e.name), some);
    FoldAppend(TakeLine, FRESH, IdLine(e) + NameLine(e), Prefixed(some));
    assert [] + TrimAll(some) == some;
  }

  lemma CutInHead(e: Event, lines: seq<string>)
    requires lines <= IdLine(e) + NameLine(e)
    ensures Feed(FRESH, lines).dataLines == []
  {
    FeedHead(e, FRESH);
    if lines != IdLine(e) + NameLine(e) && lines != [] {
      assert lines == IdLine(e);
      FeedId(e, FRESH);
    }
  }

  // The draft made of the first k lines ends up as the event those lines stand for.
  ghost predicate Stands(e: Event, k: nat, d: Draft)
  {
    FromLines(e, k) == if d.dataLines == [] then [] else [Finish(d)]
  }

  lemma CutAmongData(e: Event, n: nat)
    requires Clean(e) && 0 < n <= |PartsOf(e)| && |IdLine(e)| + |NameLine(e)| + n < |FieldLines(e)|
    ensures Stands(e, |IdLine(e)| + |NameLine(e)| + n, Feed(FRESH, IdLine(e) + NameLine(e) + Prefixed(PartsOf(e)[..n])))
  {
    CutInData(e, n);
  }

  lemma CutNowhere(e: Event)
    requires Clean(e)
    ensures Stands(e, |FieldLines(e)|, Feed(FRESH, FieldLines(e)))
  {
    FeedEvent(e, 0);
    assert TrimAll(PartsOf(e)) == PartsOf(e) == PartsOf(e)[..|PartsOf(e)|];
  }

  lemma CutFields(e: Event, k: nat)
    requires Clean(e) && k <= |FieldLines(e)|
    ensures Stands(e, k, Feed(FRESH, FieldLines(e)[..k]))
  {
    var head, data, lines := IdLine(e) + NameLine(e), DataLines(e), FieldLines(e)[..k];
    if k <= |head| {
      assert lines <= head;
      CutInHead(e, lines);
    } else if k <= |head| + |data| && k < |FieldLines(e)| {
      var n := k - |head|;
      assert lines == head + Prefixed(PartsOf(e)[..n]) by {
        assert lines == head + data[..n] && data[..n] == Prefixed(PartsOf(e)[..n]);
      }
      CutAmongData(e, n);
    } else {
      assert lines == FieldLines(e);
      CutNowhere(e);
    }
  }

  lemma CutEvent(e: Event, k: nat)
    requires Clean(e) && k <= |FieldLines(e)|
    ensures Decode(FieldLines(e)[..k], FRESH, None) == FromLines(e, k)
  {
    var lines := FieldLines(e)[..k];
    CutFields(e, k);
    FieldsNonBlank(e);
    DecodeFeed(lines, [], FRESH, None);
    assert lines + [] == lines;
  }

  lemma DecodeWholeEvent(e: Event, tail: string, broken: Option<string>)
    requires Clean(e)
    ensures Decode(Lines(Encode(Ev(e)) + tail), FRESH, broken) == [Canonical(e)] + Decode(Lines(tail), FRESH, broken)
  {
    ItemLinesFree(Ev(e));
    LinesAfter(ItemLines(Ev(e)), tail);
    DecodeItem(Ev(e), Lines(tail), 0, broken);
    CleanReceived(e);
  }

  lemma DecodeCutEvent(e: Event, cut: string)
    requires Clean(e) && cut < Encode(Ev(e))
    ensures DecodeText(cut) == FromLines(e, WholeLines(ItemLines(Ev(e)), |cut|))
  {
    var lines, k := ItemLines(Ev(e)), WholeLines(ItemLines(Ev(e)), |cut|);
    ItemLinesFree(Ev(e));
    LinesOfPrefix(lines, cut);
    assert lines[..k] == FieldLines(e)[..k];
    CutEvent(e, k);
  }

  lemma PrefixOfTwo(first: string, rest: string, cut: string)
    requires cut <= first + rest
    ensures |cut| < |first| ==> cut < first
    ensures |cut| >= |first| ==> cut == first + cut[|first|..] && cut[|first|..] <= rest
  {
    if |cut| < |first| {
      assert cut == (first + rest)[..|cut|] == first[..|cut|];
    } else {
      assert cut == (first + rest)[..|cut|];
      assert cut[|first|..] == rest[..|cut| - |first|];
    }
  }

  lemma CutFirst(es: seq<Event>, cut: string)
    requires es != [] && Clean(es[0]) && cut < Encode(Ev(es[0]))
    ensures DecodeText(cut) == CutStream(es, |cut|)
  {
    DecodeCutEvent(es[0], cut);
  }

  lemma CutLater(es: seq<Event>, first: string, tail: string)
    requires es != [] && Clean(es[0]) && first == Encode(Ev(es[0]))
    ensures DecodeText(first + tail) == [Canonical(es[0])] + DecodeText(tail)
    ensures CutStream(es, |first + tail|) == [Canonical(es[0])] + CutStream(es[1..], |tail|)
  {
    DecodeWholeEvent(es[0], tail, None);
  }

  lemma EncodeEvents(es: seq<Event>)
    requires es != []
    ensures EncodeAll(Items(es)) == Encode(Ev(es[0])) + EncodeAll(Items(es[1..]))
  {
    EncodeCons(Items(es));
    assert Items(es)[1..] == Items(es[1..]);
  }

  // A stream cut at any character yields its whole events, then, exactly when a whole data line of
  // the next one arrived, that event with the data lines that arrived, then EOF.
  lemma {:induction false} Truncation(es: seq<Event>, cut: string)
    requires AllClean(es) && cut <= EncodeAll(Items(es))
    ensures DecodeText(cut) == CutStream(es, |cut|)
    decreases es
  {
    if es == [] {
      LinesUnterminated(cut);
    } else {
      var first, rest := Encode(Ev(es[0])), EncodeAll(Items(es[1..]));
      EncodeEvents(es);
      PrefixOfTwo(first, rest, cut);
      if |cut| < |first| {
        CutFirst(es, cut);
      } else {
        var tail := cut[|first|..];
        Truncation(es[1..], tail);
        CutLater(es, first, tail);
      }
    }
  }
}
