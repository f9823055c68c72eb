/** The streaming handler (pkg/a2a/sse.go) and the client loop that numbers chunks
    (pkg/a2a/protocol.go), joined by the event codec. */
module StreamClient {
  import opened Text
  import opened Sse
  import opened SseProofs
  import opened SseBroken

  // ---------------------------------------------------------------- server

  // The data texts a handler streams; a handler may also refuse the request.
  datatype Handler = Refuse(error: string) | Produce(items: seq<Option<string>>)

  function ItemEvent(requestId: string, k: nat, item: Option<string>): Event
  {
    Event(requestId + "-" + Decimal(k), "data", item, 0)
  }

  function ItemEvents(requestId: string, items: seq<Option<string>>): (es: seq<Event>)
    ensures |es| == |items|
    ensures forall i :: 0 <= i < |items| ==> es[i] == ItemEvent(requestId, i + 1, items[i])
  {
    seq(|items|, i requires 0 <= i < |items| => ItemEvent(requestId, i + 1, items[i]))
  }

  function StartEvent(opening: string): Event { Event("", "start", Some(opening), 0) }

  function DoneEvent(status: string): Event { Event("", "done", Some(status), 0) }

  // Everything an uncancelled request is answered with.
  function Answer(requestId: string, opening: string, items: seq<Option<string>>, status: string): seq<Event>
  {
    [StartEvent(opening)] + ItemEvents(requestId, items) + [DoneEvent(status)]
  }

  // The item events from item k on; `cancelled(i)` says whether the request context is done when
  // item i is ready.
  function ItemsFrom(requestId: string, items: seq<Option<string>>, k: nat, status: string,
                     cancelled: nat -> bool): seq<Item>
    requires k <= |items|
    decreases |items| - k
  {
    if k == |items| then [Ev(DoneEvent(status))]
    else if cancelled(k) then []
    else [Ev(ItemEvent(requestId, k + 1, items[k]))] + ItemsFrom(requestId, items, k + 1, status, cancelled)
  }

  // The texts of the opening, closing and refusal events are JSON objects built elsewhere.
  function Responses(requestId: string, handler: Handler, opening: string, status: string,
                     cancelled: nat -> bool): seq<Item>
  {
    match handler
    case Refuse(error) => [Ev(Event("", "error", Some(error), 0))]
    case Produce(items) => [Ev(StartEvent(opening))] + ItemsFrom(requestId, items, 0, status, cancelled)
  }

  // The data loop of ServeHTTP and the closing event after it.
  method StreamItems(writer: SSEWriter, requestId: string, items: seq<Option<string>>, status: string,
                     cancelled: nat -> bool)
    requires writer.Valid()
    modifies writer
    ensures writer.Valid()
    ensures writer.log == old(writer.log) + ItemsFrom(requestId, items, 0, status, cancelled)
  {
    ghost var all := writer.log + ItemsFrom(requestId, items, 0, status, cancelled);
    var sequence := 0;
    while sequence < |items|
      invariant 0 <= sequence <= |items| && writer.Valid()
      invariant all == writer.log + ItemsFrom(requestId, items, sequence, status, cancelled)
    {
      if cancelled(sequence) { return; }
      sequence := sequence + 1;
      writer.WriteEvent(ItemEvent(requestId, sequence, items[sequence - 1]));
    }
    writer.Close(status);
  }

  method ServeStream(writer: SSEWriter, requestId: string, handler: Handler,
                     opening: string, status: string, cancelled: nat -> bool)
    requires writer.Valid()
    modifies writer
    ensures writer.Valid()
    ensures writer.log == old(writer.log) + Responses(requestId, handler, opening, status, cancelled)
  {
    match handler {
      case Refuse(error) =>
        writer.WriteEvent(Event("", "error", Some(error), 0));
      case Produce(items) =>
        writer.WriteEvent(StartEvent(opening));
        StreamItems(writer, requestId, items, status, cancelled);
    }
  }

  // The response stops at the first item for which the request is seen cancelled: the items before
  // it, and the closing event exactly when there was none.
  lemma {:induction false} StreamedUntil(requestId: string, items: seq<Option<string>>, j: nat, k: nat, status: string,
                                         cancelled: nat -> bool)
    requires j <= k <= |items| && (forall i :: j <= i < k ==> !cancelled(i)) && (k < |items| ==> cancelled(k))
    ensures ItemsFrom(requestId, items, j, status, cancelled)
            == Items(ItemEvents(requestId, items)[j..k]) + (if k == |items| then [Ev(DoneEvent(status))] else [])
    decreases k - j
  {
    var es := ItemEvents(requestId, items);
    if j < k {
      StreamedUntil(requestId, items, j + 1, k, status, cancelled);
      ItemsFirst(es, j, k, if k == |items| then [Ev(DoneEvent(status))] else []);
    }
  }

  lemma ItemsFirst(es: seq<Event>, j: nat, k: nat, tail: seq<Item>)
    requires j < k <= |es|
    ensures Items(es[j..k]) + tail == [Ev(es[j])] + (Items(es[j + 1..k]) + tail)
  {
    assert es[j..k] == [es[j]] + es[j + 1..k];
  }

  lemma AnswerItems(requestId: string, opening: string, items: seq<Option<string>>, status: string)
    ensures Items(Answer(requestId, opening, items, status))
            == [Ev(StartEvent(opening))] + (Items(ItemEvents(requestId, items)) + [Ev(DoneEvent(status))])
  {}

  // Without cancellation the response is the whole answer.
  lemma Answered(requestId: string, items: seq<Option<string>>, opening: string, status: string, cancelled: nat -> bool)
    requires forall i :: 0 <= i < |items| ==> !cancelled(i)
    ensures Responses(requestId, Produce(items), opening, status, cancelled)
            == Items(Answer(requestId, opening, items, status))
  {
    StreamedUntil(requestId, items, 0, |items|, status, cancelled);
    assert ItemEvents(requestId, items)[0..|items|] == ItemEvents(requestId, items);
    AnswerItems(requestId, opening, items, status);
  }

  lemma {:induction false} DecimalInjective(m: nat, n: nat)
    requires Decimal(m) == Decimal(n)
    ensures m == n
  {
    NatOfDecimal(m);
    NatOfDecimal(n);
  }

  // No two items of a response have the same event id.
  lemma IdsDistinct(requestId: string, items: seq<Option<string>>, i: nat, j: nat)
    requires i < j < |items|
    ensures ItemEvents(requestId, items)[i].id != ItemEvents(requestId, items)[j].id
  {
    var a, b := requestId + "-" + Decimal(i + 1), requestId + "-" + Decimal(j + 1);
    if a == b {
      assert a[|requestId| + 1..] == Decimal(i + 1) && b[|requestId| + 1..] == Decimal(j + 1);
      DecimalInjective(i + 1, j + 1);
    }
  }

  // ---------------------------------------------------------------- client

  datatype Chunk = Chunk(id: string, sequence: nat, data: Option<string>, final: bool, isError: bool)

  predicate Final(e: Event) { e.name == "done" || e.name == "complete" }

  function ChunkOf(id: string, n: nat, e: Event): Chunk { Chunk(id, n, e.data, Final(e), false) }

  // When the caller's context is seen done: before a read, or instead of handing over a chunk.
  datatype Cancel = Cancel(beforeRead: nat -> bool, atSend: nat -> bool)

  // The chunks a client emits once it has emitted n.
  function Emitted(id: string, es: seq<Event>, broken: Option<string>, n: nat, cancel: Cancel): seq<Chunk>
    decreases es
  {
    if cancel.beforeRead(n) then []
    else if es == [] then
      match broken case None => [] case Some(error) => [Chunk(id, n, Some(error), true, true)]
    else if cancel.atSend(n) then []
    else
      [ChunkOf(id, n + 1, es[0])] + (if Final(es[0]) then [] else Emitted(id, es[1..], broken, n + 1, cancel))
  }

  ghost function Incoming(reader: SSEReader): seq<Event>
    reads reader
  {
    Decode(Lines(reader.rest), FRESH, reader.broken)
  }

  // One turn of the loop: the chunk it hands over, if any, and whether the loop goes on.
  method Turn(reader: SSEReader, id: string, sequence: nat, cancel: Cancel) returns (out: seq<Chunk>, more: bool)
    modifies reader
    ensures Emitted(id, old(Incoming(reader)), reader.broken, sequence, cancel)
            == out + (if more then Emitted(id, Incoming(reader), reader.broken, sequence + 1, cancel) else [])
    ensures more ==> |Incoming(reader)| < |old(Incoming(reader))|
  {
    if cancel.beforeRead(sequence) {
      return [], false;
    }
    DecodeByCalls(Lines(reader.rest), FRESH, reader.broken);
    var r := reader.ReadEvent();
    match r {
      case Eof =>
        return [], false;
      case Failed(error) =>
        return [Chunk(id, sequence, Some(error), true, true)], false;
      case Read(event) =>
        if cancel.atSend(sequence) {
          return [], false;
        }
        return [ChunkOf(id, sequence + 1, event)], !Final(event);
    }
  }

  method StreamInvocation(reader: SSEReader, id: string, cancel: Cancel) returns (chunks: seq<Chunk>)
    modifies reader
    ensures chunks == Emitted(id, old(Incoming(reader)), reader.broken, 0, cancel)
  {
    chunks := [];
    ghost var all := Emitted(id, Incoming(reader), reader.broken, 0, cancel);
    ghost var left := all;
    var sequence, more := 0, true;
    while more
      invariant all == chunks + left
      invariant left == if more then Emitted(id, Incoming(reader), reader.broken, sequence, cancel) else []
      decreases more, |Incoming(reader)|
    {
      var out;
      out, more := Turn(reader, id, sequence, cancel);
      sequence := sequence + 1;
      ghost var after := if more then Emitted(id, Incoming(reader), reader.broken, sequence, cancel) else [];
      assert left == out + after;
      assert chunks + (out + after) == (chunks + out) + after;
      chunks := chunks + out;
      left := after;
    }
  }

  // Chunks are numbered from n + 1 without a gap; an error chunk repeats the number reached.
  ghost predicate Numbered(cs: seq<Chunk>, id: string, n: nat)
  {
    forall i :: 0 <= i < |cs| ==>
      cs[i].id == id && cs[i].sequence == n + i + (if cs[i].isError then 0 else 1)
  }

  // Only the last chunk may be final or an error, and an error is final.
  ghost predicate ClosedByFinal(cs: seq<Chunk>)
  {
    && (forall i :: 0 <= i < |cs| - 1 ==> !cs[i].final && !cs[i].isError)
    && (cs != [] && cs[|cs| - 1].isError ==> cs[|cs| - 1].final)
  }

  lemma ConsNumbered(c: Chunk, cs: seq<Chunk>, id: string, n: nat)
    requires c.id == id && c.sequence == n + 1 && !c.isError && !c.final
    requires Numbered(cs, id, n + 1) && ClosedByFinal(cs)
    ensures Numbered([c] + cs, id, n) && ClosedByFinal([c] + cs)
  {
    forall i | 0 < i < |[c] + cs| ensures ([c] + cs)[i] == cs[i - 1] {}
  }

  // This holds whatever arrives, however the transport ends and whenever it is cancelled.
  lemma {:induction false} ChunksNumbered(id: string, es: seq<Event>, broken: Option<string>, n: nat, cancel: Cancel)
    ensures Numbered(Emitted(id, es, broken, n, cancel), id, n)
    ensures ClosedByFinal(Emitted(id, es, broken, n, cancel))
    decreases es
  {
    if !cancel.beforeRead(n) && es != [] && !cancel.atSend(n) && !Final(es[0]) {
      ChunksNumbered(id, es[1..], broken, n + 1, cancel);
      ConsNumbered(ChunkOf(id, n + 1, es[0]), Emitted(id, es[1..], broken, n + 1, cancel), id, n);
    }
  }

  function ReceivedAll(es: seq<Event>): (r: seq<Event>)
    ensures |r| == |es|
    ensures forall i :: 0 <= i < |es| ==> r[i] == Received(es[i], 0)
  {
    seq(|es|, i requires 0 <= i < |es| => Received(es[i], 0))
  }

  lemma {:induction false} DeliveredAll(es: seq<Event>)
    requires forall i :: 0 <= i < |es| ==> Visible(es[i])
    ensures Delivered(Items(es), 0) == ReceivedAll(es)
  {
    if es != [] {
      assert Items(es)[1..] == Items(es[1..]);
      DeliveredAll(es[1..]);
      assert ReceivedAll(es) == [Received(es[0], 0)] + ReceivedAll(es[1..]);
    }
  }

  const NEVER := Cancel(_ => false, _ => false)

  // Event k is the first final one, or there is none.
  ghost predicate FirstFinal(es: seq<Event>, k: nat)
  {
    k <= |es| && (forall i :: 0 <= i < k ==> !Final(es[i])) && (k < |es| ==> Final(es[k]))
  }

  // The chunks for the events up to the first final one; behind a stream that broke before it, one
  // error chunk with the number reached.
  ghost predicate Uncancelled(cs: seq<Chunk>, id: string, es: seq<Event>, k: nat, broken: Option<string>, n: nat)
    requires k <= |es|
  {
    var m := if k < |es| then k + 1 else k;
    && (forall i :: 0 <= i < m && i < |cs| ==> cs[i] == ChunkOf(id, n + i + 1, es[i]))
    && |cs| == m + (if k == |es| && broken.Some? then 1 else 0)
    && (k == |es| && broken.Some? ==> cs[m] == Chunk(id, n + m, Some(broken.value), true, true))
  }

  lemma {:induction false} EmittedNever(id: string, es: seq<Event>, k: nat, broken: Option<string>, n: nat)
    requires FirstFinal(es, k)
    ensures Uncancelled(Emitted(id, es, broken, n, NEVER), id, es, k, broken, n)
    decreases es
  {
    if es != [] && k > 0 {
      assert !Final(es[0]);
      EmittedNever(id, es[1..], k - 1, broken, n + 1);
      UncancelledCons(Emitted(id, es[1..], broken, n + 1, NEVER), id, es, k, broken, n);
    }
  }

  lemma UncancelledCons(cs: seq<Chunk>, id: string, es: seq<Event>, k: nat, broken: Option<string>, n: nat)
    requires es != [] && 0 < k <= |es| && Uncancelled(cs, id, es[1..], k - 1, broken, n + 1)
    ensures Uncancelled([ChunkOf(id, n + 1, es[0])] + cs, id, es, k, broken, n)
  {
    var all, m := [ChunkOf(id, n + 1, es[0])] + cs, if k < |es| then k + 1 else k;
    forall i | 0 <= i < m && i < |all| ensures all[i] == ChunkOf(id, n + i + 1, es[i]) {
      if i > 0 { assert all[i] == cs[i - 1] && es[i] == es[1..][i - 1]; }
    }
  }

  // Chunks that follow n others: none after a cancellation is seen, but for the error chunk, which is
  // handed over regardless.
  ghost predicate Heeds(cs: seq<Chunk>, n: nat, cancel: Cancel)
  {
    && (forall m: nat :: n <= m && cancel.beforeRead(m) ==> |cs| <= m - n)
    && (forall m: nat :: n <= m && cancel.atSend(m) && m - n < |cs| ==> cs[m - n].isError)
  }

  // Cancellation only cuts chunks off, and where it is seen the stream of chunks ends.
  lemma {:induction false} CancelledPrefix(id: string, es: seq<Event>, broken: Option<string>, n: nat, cancel: Cancel)
    ensures var cs, all := Emitted(id, es, broken, n, cancel), Emitted(id, es, broken, n, NEVER);
            && cs <= all
            && Heeds(cs, n, cancel)
            && ((forall m: nat :: m >= n ==> !cancel.beforeRead(m) && !cancel.atSend(m)) ==> cs == all)
    decreases es
  {
    if es != [] && !cancel.beforeRead(n) && !cancel.atSend(n) && !Final(es[0]) {
      CancelledPrefix(id, es[1..], broken, n + 1, cancel);
      HeedsCons(ChunkOf(id, n + 1, es[0]), Emitted(id, es[1..], broken, n + 1, cancel), n, cancel);
    }
  }

  lemma HeedsCons(c: Chunk, cs: seq<Chunk>, n: nat, cancel: Cancel)
    requires !cancel.beforeRead(n) && !cancel.atSend(n) && Heeds(cs, n + 1, cancel)
    ensures Heeds([c] + cs, n, cancel)
  {
    forall m: nat | n <= m && cancel.atSend(m) && m - n < |[c] + cs| ensures ([c] + cs)[m - n].isError {
      assert m >= n + 1 && ([c] + cs)[m - n] == cs[m - (n + 1)];
    }
  }

  // A stream whose only final event is its last becomes one chunk per event.
  lemma EmittedAll(id: string, es: seq<Event>, n: nat)
    requires es != [] && Final(es[|es| - 1])
    requires forall i :: 0 <= i < |es| - 1 ==> !Final(es[i])
    ensures var cs := Emitted(id, es, None, n, NEVER);
            |cs| == |es| && forall i :: 0 <= i < |cs| ==> cs[i] == ChunkOf(id, n + i + 1, es[i])
  {
    EmittedNever(id, es, |es| - 1, None, n);
  }

  // A written stream that breaks after k whole events, none of them final, reaches the caller as those
  // k events and one final error chunk.
  lemma BrokenStream(id: string, es: seq<Event>, cut: string, error: string)
    requires AllClean(es) && cut <= EncodeAll(Items(es))
    requires forall i :: 0 <= i < WholeEvents(es, |cut|) ==> !Final(es[i])
    ensures var k := WholeEvents(es, |cut|); var cs := Emitted(id, Decode(Lines(cut), FRESH, Some(error)), Some(error), 0, NEVER);
            && |cs| == k + 1 && cs[k] == Chunk(id, k, Some(error), true, true)
            && forall i :: 0 <= i < k ==> cs[i] == ChunkOf(id, i + 1, Canonical(es[i]))
  {
    var k := WholeEvents(es, |cut|);
    var got := CanonicalAll(es[..k]);
    BrokenTruncation(es, cut, error);
    CanonicalAt(es[..k]);
    forall i | 0 <= i < |got| ensures got[i] == Canonical(es[i]) && !Final(got[i]) { assert es[..k][i] == es[i]; }
    EmittedNever(id, got, k, Some(error), 0);
  }

  // The text a client gets for a streamed item: the item with carriage returns before line
  // ends removed.
  function ItemText(item: Option<string>): Option<string>
  {
    match item case None => None case Some(text) => Some(Join(TrimAll(Split(text, '\n')), '\n'))
  }

  lemma AnswerReceived(requestId: string, opening: string, items: seq<Option<string>>, status: string)
    requires '\n' !in requestId
    ensures DecodeText(EncodeAll(Items(Answer(requestId, opening, items, status))))
            == ReceivedAll(Answer(requestId, opening, items, status))
  {
    var es := Answer(requestId, opening, items, status);
    forall i | 0 <= i < |es| ensures Visible(es[i]) && SingleLine(Ev(es[i])) {
      if 0 < i < |es| - 1 {
        assert es[i] == ItemEvent(requestId, i, items[i - 1]);
        assert forall k :: 0 <= k < |Decimal(i)| ==> IsDigit(Decimal(i)[k]);
      }
    }
    assert AllSingleLine(Items(es));
    RoundTrip(Items(es), 0, None);
    DeliveredAll(es);
  }

  lemma AnswerAt(requestId: string, opening: string, items: seq<Option<string>>, status: string, i: nat)
    requires i < |items|
    ensures var es := Answer(requestId, opening, items, status);
            |es| == |items| + 2 && es[i + 1] == ItemEvent(requestId, i + 1, items[i])
  {}

  lemma AnswerEnds(requestId: string, opening: string, items: seq<Option<string>>, status: string)
    ensures var es := Answer(requestId, opening, items, status);
            |es| == |items| + 2 && es[0] == StartEvent(opening) && es[|items| + 1] == DoneEvent(status)
  {}

  lemma ItemReceived(requestId: string, k: nat, item: Option<string>)
    ensures var got := Received(ItemEvent(requestId, k, item), 0); got.name == "data" && got.data == ItemText(item)
  {}

  lemma EndsReceived(opening: string, status: string)
    ensures Received(StartEvent(opening), 0).name == "start" && Received(DoneEvent(status), 0).name == "done"
  {}

  lemma AnswerNames(requestId: string, opening: string, items: seq<Option<string>>, status: string)
    ensures var got := ReceivedAll(Answer(requestId, opening, items, status));
            && |got| == |items| + 2 && got[0].name == "start" && got[|items| + 1].name == "done"
            && forall i :: 0 <= i < |items| ==> got[i + 1].name == "data" && got[i + 1].data == ItemText(items[i])
  {
    var got := ReceivedAll(Answer(requestId, opening, items, status));
    AnswerEnds(requestId, opening, items, status);
    EndsReceived(opening, status);
    forall i: nat | i < |items| ensures got[i + 1].name == "data" && got[i + 1].data == ItemText(items[i]) {
      AnswerAt(requestId, opening, items, status, i);
      ItemReceived(requestId, i + 1, items[i]);
    }
  }

  // One chunk per event, in order, with only the last one final.
  ghost predicate Delivers(cs: seq<Chunk>, items: seq<Option<string>>)
  {
    && |cs| == |items| + 2
    && (forall i :: 0 <= i < |cs| ==> cs[i].sequence == i + 1 && !cs[i].isError && (cs[i].final <==> i == |cs| - 1))
    && (forall i :: 0 <= i < |items| ==> cs[i + 1].data == ItemText(items[i]))
  }

  lemma AnswerEmitted(id: string, requestId: string, opening: string, items: seq<Option<string>>, status: string)
    ensures Delivers(Emitted(id, ReceivedAll(Answer(requestId, opening, items, status)), None, 0, NEVER), items)
  {
    var got := ReceivedAll(Answer(requestId, opening, items, status));
    AnswerNames(requestId, opening, items, status);
    forall i | 0 <= i < |got| ensures Final(got[i]) <==> i == |got| - 1 {
      if 0 < i < |got| - 1 { assert got[i - 1 + 1].name == "data"; }
    }
    EmittedAll(id, got, 0);
  }

  // Server to client without cancellation: n items become n + 2 chunks numbered 1 to n + 2,
  // each item's text in the chunk after its number, and only the last chunk final.
  lemma EndToEnd(id: string, requestId: string, opening: string, items: seq<Option<string>>, status: string)
    requires '\n' !in requestId
    ensures Delivers(Emitted(id, DecodeText(EncodeAll(Items(Answer(requestId, opening, items, status)))), None, 0, NEVER), items)
  {
    AnswerReceived(requestId, opening, items, status);
    AnswerEmitted(id, requestId, opening, items, status);
  }

  // Two names end a stream, and none of the others the handler uses.
  lemma FinalNames(e: Event)
    ensures Final(e.(name := "done")) && Final(e.(name := "complete"))
    ensures !Final(e.(name := "start")) && !Final(e.(name := "data")) && !Final(e.(name := "error")) && !Final(e.(name := ""))
  {}

  // A refused request reaches the caller as one chunk with the error text, which is neither marked as
  // an error nor final; then the chunks end.
  lemma RefusedReceived(id: string, requestId: string, error: string, opening: string, status: string, cancelled: nat -> bool)
    ensures Emitted(id, DecodeText(EncodeAll(Responses(requestId, Refuse(error), opening, status, cancelled))), None, 0, NEVER)
            == [Chunk(id, 1, ItemText(Some(error)), false, false)]
  {
    var e := Event("", "error", Some(error), 0);
    assert Responses(requestId, Refuse(error), opening, status, cancelled) == Items([e]);
    RoundTrip(Items([e]), 0, None);
    DeliveredAll([e]);
    var got := ReceivedAll([e]);
    assert got[0] == Received(e, 0);
    EmittedNever(id, got, 1, None, 0);
  }
}
