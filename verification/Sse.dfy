/** The server-sent event codec of pkg/a2a/sse.go: what the writer prints, what the reader
    makes of a stream of lines, and the classes that do both in place.  Event data is the
    text handed to parseSSEData, before any JSON decoding. */
module Sse {
  import opened Text

  datatype Event = Event(id: string, name: string, data: Option<string>, retry: GoInt)

  // What a stream carries: events and keep-alive comments.
  datatype Item = Ev(event: Event) | Comment(text: string)

  // ---------------------------------------------------------------- writer

  function FieldLine(field: string, value: string): string { field + ": " + value }

  function IdLine(e: Event): seq<string> { if e.id == "" then [] else [FieldLine("id", e.id)] }

  function NameLine(e: Event): seq<string> { if e.name == "" then [] else [FieldLine("event", e.name)] }

  function Prefixed(parts: seq<string>): (lines: seq<string>)
    ensures |lines| == |parts|
    ensures forall i :: 0 <= i < |parts| ==> lines[i] == FieldLine("data", parts[i])
  {
    seq(|parts|, i requires 0 <= i < |parts| => FieldLine("data", parts[i]))
  }

  function DataLines(e: Event): seq<string>
  {
    if e.data.None? then [] else Prefixed(Split(e.data.value, '\n'))
  }

  function RetryLine(e: Event): seq<string>
  {
    if e.retry > 0 then [FieldLine("retry", Decimal(e.retry))] else []
  }

  function FieldLines(e: Event): seq<string>
  {
    IdLine(e) + NameLine(e) + DataLines(e) + RetryLine(e)
  }

  function ItemLines(item: Item): seq<string>
  {
    match item
    case Ev(e) => FieldLines(e) + [""]
    case Comment(text) => [": " + text, ""]
  }

  function Encode(item: Item): string
  {
    Unlines(ItemLines(item))
  }

  function Flatten(texts: seq<string>): string
  {
    if texts == [] then "" else texts[0] + Flatten(texts[1..])
  }

  function Texts(items: seq<Item>): (texts: seq<string>)
    ensures |texts| == |items|
    ensures forall i {:trigger texts[i]} :: 0 <= i < |items| ==> texts[i] == Encode(items[i])
  {
    seq(|items|, i requires 0 <= i < |items| => Encode(items[i]))
  }

  function EncodeAll(items: seq<Item>): string { Flatten(Texts(items)) }

  lemma EncodeCons(items: seq<Item>)
    requires items != []
    ensures EncodeAll(items) == Encode(items[0]) + EncodeAll(items[1..])
  {
    assert Texts(items)[1..] == Texts(items[1..]);
  }

  lemma {:induction false} FlattenSnoc(texts: seq<string>, text: string)
    ensures Flatten(texts + [text]) == Flatten(texts) + text
  {
    if texts == [] {
      assert texts + [text] == [text] && [text][1..] == [];
    } else {
      assert (texts + [text])[1..] == texts[1..] + [text];
      FlattenSnoc(texts[1..], text);
    }
  }

  // ---------------------------------------------------------------- reader

  // The event under construction: the locals of ReadEvent.
  datatype Draft = Draft(id: string, name: string, dataLines: seq<string>, retry: GoInt)

  const FRESH := Draft("", "", [], 0)

  function Finish(d: Draft): Event
  {
    Event(d.id, d.name, if d.dataLines == [] then None else Some(Join(d.dataLines, '\n')), d.retry)
  }

  predicate KeepAlive(d: Draft)
  {
    d.dataLines == [] && d.name == "" && d.id == ""
  }

  function TrimOneBlank(s: string): string
  {
    if s != "" && s[0] == ' ' then s[1..] else s
  }

  function Assign(d: Draft, field: string, value: string): Draft
  {
    if field == "event" then d.(name := value)
    else if field == "data" then d.(dataLines := d.dataLines + [value])
    else if field == "id" then d.(id := value)
    else if field == "retry" then d.(retry := ScanInt(value))
    else d
  }

  // One non-blank line: a comment, a field, or noise.
  function Accept(d: Draft, line: string): Draft
    requires line != ""
  {
    if line[0] == ':' then d
    else
      match IndexOf(line, ':')
      case None => d
      case Some(i) => Assign(d, line[..i], TrimOneBlank(line[i + 1..]))
  }

  datatype ReadResult = Read(event: Event) | Eof | Failed(error: string)

  function AtEnd(d: Draft, broken: Option<string>): ReadResult
  {
    match broken
    case Some(error) => Failed(error)
    case None => if d.dataLines != [] then Read(Finish(d)) else Eof
  }

  // One ReadEvent call over the remaining lines, and the lines it leaves.  `broken` is the
  // transport error the stream ends with instead of EOF, if any.
  function ReadOne(lines: seq<string>, d: Draft, broken: Option<string>): (ReadResult, seq<string>)
  {
    if lines == [] then (AtEnd(d, broken), [])
    else
      var line := TrimEol(lines[0]);
      if line != "" then ReadOne(lines[1..], Accept(d, line), broken)
      else if KeepAlive(d) then ReadOne(lines[1..], d, broken)
      else (Read(Finish(d)), lines[1..])
  }

  // Every event a stream yields before EOF or the transport error.
  function Decode(lines: seq<string>, d: Draft, broken: Option<string>): seq<Event>
  {
    if lines == [] then
      match AtEnd(d, broken) case Read(e) => [e] case _ => []
    else
      var line := TrimEol(lines[0]);
      if line != "" then Decode(lines[1..], Accept(d, line), broken)
      else if KeepAlive(d) then Decode(lines[1..], d, broken)
      else [Finish(d)] + Decode(lines[1..], FRESH, broken)
  }

  function DecodeText(text: string): seq<Event>
  {
    Decode(Lines(text), FRESH, None)
  }

  // Decode is what repeated ReadEvent calls return, call after call.
  lemma {:induction false} DecodeByCalls(lines: seq<string>, d: Draft, broken: Option<string>)
    ensures var (r, rest) := ReadOne(lines, d, broken);
            && |rest| <= |lines|
            && (r.Read? ==> Decode(lines, d, broken) == [r.event] + Decode(rest, FRESH, broken))
            && (!r.Read? ==> Decode(lines, d, broken) == [] && rest == [])
            && (r.Eof? ==> broken.None?) && (r.Failed? ==> broken == Some(r.error))
  {
    if lines != [] {
      var line := TrimEol(lines[0]);
      if line != "" {
        DecodeByCalls(lines[1..], Accept(d, line), broken);
      } else if KeepAlive(d) {
        DecodeByCalls(lines[1..], d, broken);
      }
    }
  }

  // ---------------------------------------------------------------- classes

  class SSEReader {
    var rest: string               // received and not yet consumed
    const broken: Option<string>

    constructor (text: string, broken: Option<string>)
      ensures rest == text && this.broken == broken
    {
      rest := text;
      this.broken := broken;
    }

    // Consumes whole lines, so what is left always starts at a line.
    method ReadEvent() returns (r: ReadResult)
      modifies this
      ensures (r, Lines(rest)) == ReadOne(Lines(old(rest)), FRESH, broken)
    {
      var event := FRESH;
      while true
        invariant ReadOne(Lines(rest), event, broken) == ReadOne(Lines(old(rest)), FRESH, broken)
        decreases |rest|
      {
        var end := IndexOf(rest, '\n');
        if end.None? {
          LinesUnterminated(rest);
          rest := "";
          r := AtEnd(event, broken);
          return;
        }
        var line := TrimEol(rest[..end.value + 1]);
        var raw, next := rest[..end.value], rest[end.value + 1..];
        assert rest == raw + "\n" + next;
        assert rest[..end.value + 1][..end.value] == raw;
        LinesCons(raw, next);
        rest := next;
        if line == "" {
          if KeepAlive(event) { continue; }
          r := Read(Finish(event));
          return;
        }
        event := Accept(event, line);
      }
    }
  }

  ghost predicate Prints(texts: seq<string>, items: seq<Item>)
  {
    |texts| == |items| && forall i {:trigger Encode(items[i])} :: 0 <= i < |texts| ==> texts[i] == Encode(items[i])
  }

  class SSEWriter {
    var sent: string               // everything flushed to the response so far
    ghost var log: seq<Item>       // the items written, in order
    ghost var texts: seq<string>   // what each of them printed

    ghost predicate Valid()
      reads this
    {
      sent == Flatten(texts) && Prints(texts, log)
    }

    constructor ()
      ensures Valid() && log == []
    {
      sent, log, texts := "", [], [];
    }

    // The response body.
    method Body() returns (text: string)
      requires Valid()
      ensures text == EncodeAll(log)
    {
      assert texts == Texts(log);
      text := sent;
    }

    static method FormatData(data: string) returns (lines: seq<string>)
      ensures lines == Prefixed(Split(data, '\n'))
    {
      lines := [];
      var parts := Split(data, '\n');
      for i := 0 to |parts|
        invariant lines == Prefixed(parts)[..i]
      {
        lines := lines + [FieldLine("data", parts[i])];
      }
    }

    static method Format(event: Event) returns (lines: seq<string>)
      ensures lines == FieldLines(event)
    {
      lines := [];
      if event.id != "" { lines := lines + [FieldLine("id", event.id)]; }
      assert lines == IdLine(event);
      if event.name != "" { lines := lines + [FieldLine("event", event.name)]; }
      assert lines == IdLine(event) + NameLine(event);
      if event.data.Some? {
        var data := FormatData(event.data.value);
        lines := lines + data;
      }
      assert lines == IdLine(event) + NameLine(event) + DataLines(event);
      if event.retry > 0 { lines := lines + [FieldLine("retry", Decimal(event.retry))]; }
    }

    method Flush(text: string, ghost item: Item)
      requires Valid() && text == Encode(item)
      modifies this
      ensures Valid() && log == old(log) + [item]
    {
      FlattenSnoc(texts, text);
      sent := sent + text;
      log, texts := log + [item], texts + [text];
    }

    method WriteEvent(event: Event)
      requires Valid()
      modifies this
      ensures Valid() && log == old(log) + [Ev(event)]
    {
      var lines := Format(event);
      Flush(Unlines(lines + [""]), Ev(event));
    }

    method WriteComment(comment: string)
      requires Valid()
      modifies this
      ensures Valid() && log == old(log) + [Comment(comment)]
    {
      assert Unlines([""]) == "\n";
      assert [": " + comment, ""][1..] == [""];
      Flush(": " + comment + "\n" + "\n", Comment(comment));
    }

    method Close(status: string)
      requires Valid()
      modifies this
      ensures Valid() && log == old(log) + [Ev(Event("", "done", Some(status), 0))]
    {
      WriteEvent(Event("", "done", Some(status), 0));
    }
  }
}
