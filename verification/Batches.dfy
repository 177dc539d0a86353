/**
 * What is said under an idempotency key is about one batch. In every run of the system, with edits at any
 * time, every request and every remembered answer under the key of a batch is about the ids of the batch,
 * in their order.
 */
module Batches {
  import opened Domain
  import opened Repository
  import opened Idempotency
  import opened SyncService
  import opened Merge
  import opened Chunks
  import opened Protocol
  import D = Device

  /** Which batch a key was generated for: its owner and its ids. */
  type Book = map<Key, (Owner, seq<Id>)>

  ghost predicate AreOf(ids: seq<Id>, dtos: seq<RecordDTO>) {
    |dtos| == |ids| && forall i :: 0 <= i < |ids| ==> dtos[i].id == ids[i]
  }

  /** The results are about the ids, one each and in order. */
  ghost predicate AnswersIds(ids: seq<Id>, results: seq<PushResult>) {
    && |results| == |ids|
    && (forall i :: 0 <= i < |results| && results[i].status == Applied ==> results[i].serverRecord.id == ids[i])
  }

  /** No id is twice in the list. */
  ghost predicate NoneTwice(ids: seq<Id>) {
    forall i, j :: 0 <= i < j < |ids| ==> ids[i] != ids[j]
  }

  ghost predicate MsgBooked(book: Book, m: Msg) {
    m.key in book && book[m.key].0 == m.owner && AreOf(book[m.key].1, m.dtos)
  }

  /** What a handler has applied so far carries what was sent. */
  ghost predicate Answering(h: Handler) {
    && |h.results| <= |h.msg.dtos|
    && (forall i :: 0 <= i < |h.results| && h.results[i].status == Applied ==>
          && h.results[i].serverRecord.id == h.msg.dtos[i].id
          && DtoContent(h.results[i].serverRecord) == DtoContent(h.msg.dtos[i]))
  }

  ghost predicate AllAnswering(s: Server) {
    forall h :: h in s.handlers ==> Answering(s.handlers[h])
  }

  ghost predicate ServerBooked(book: Book, server: Server) {
    && AllAnswering(server)
    && (forall h :: h in server.handlers ==> MsgBooked(book, server.handlers[h].msg))
    && (forall k :: k in server.cache ==> k.1 in book && AnswersIds(book[k.1].1, server.cache[k].results))
  }

  ghost predicate NodeBooked(book: Book, node: Node) {
    && D.Disciplined(node.device) && D.ChunksDistinct(node.device)
    && (forall b :: b in node.device.store.pending ==> b.key in book && book[b.key] == (node.owner, b.ids))
    && (forall m :: m in Sends(node) ==> MsgBooked(book, m))
  }

  ghost predicate Booked(book: Book, s: System) {
    && ServerBooked(book, s.server)
    && (forall d :: d in s.nodes ==> NodeBooked(book, s.nodes[d]))
    && (forall m :: m in s.sent ==> MsgBooked(book, m))
    && (forall key :: key in book ==> key in s.keys && NoneTwice(book[key].1))
  }

  // ---------------------------------------------------------------- the server

  lemma ServerStepBooked(book: Book, server: Server, op: ServerOp)
    requires ServerBooked(book, server) && ServerEnabled(server, op)
    requires op.LookUpOp? ==> MsgBooked(book, op.msg)
    ensures ServerBooked(book, ServerStep(server, op))
  {
  }

  lemma {:induction false} RunKeepsAnswering(s: Server, ops: seq<ServerOp>)
    requires AllAnswering(s) && IsServerRun(s, ops)
    ensures AllAnswering(ServerRun(s, ops))
  {
    if ops != [] {
      RunKeepsAnswering(s, ops[..|ops| - 1]);
    }
  }

  // ---------------------------------------------------------------- a device

  lemma {:induction false} RequestIs(records: Records, ids: seq<Id>)
    requires forall id :: id in ids ==> id in records
    ensures |D.RequestOf(records, ids)| == |ids|
    ensures forall j :: 0 <= j < |ids| ==> D.RequestOf(records, ids)[j] == records[ids[j]].dto
  {
    if ids != [] {
      RequestIs(records, ids[..|ids| - 1]);
    }
  }

  lemma {:induction false} WithoutIsPart(pending: seq<PendingBatch>, key: Key, b: PendingBatch)
    requires b in D.Without(pending, key)
    ensures b in pending
  {
    var n := |pending| - 1;
    if pending[n] != b {
      WithoutIsPart(pending[..n], key, b);
    }
  }

  /** The book after a step: a key that a new batch takes is entered. */
  ghost function NextBook(book: Book, node: Node, e: D.Event): Book {
    if e.Advanced? && node.device.phase.Pushing? && node.device.phase.chunks != [] then
      book[e.key := (node.owner, D.IdsOf(node.device.phase.chunks[0]))]
    else book
  }

  lemma StepKeepsDistinct(d: D.Device, e: D.Event)
    requires D.Disciplined(d) && D.ChunksDistinct(d) && D.Enabled(d, e)
    ensures D.ChunksDistinct(D.Next(d, e))
    ensures d.phase.Pushing? && d.phase.chunks != [] ==> NoneTwice(D.IdsOf(d.phase.chunks[0]))
  {
    match d.phase
    case Pushing(_, chunks, _) =>
      if chunks != [] {
        assert Flatten(chunks) == chunks[0] + Flatten(chunks[1..]);
        D.RestIsDistinct(chunks[0], Flatten(chunks[1..]));
      }
    case PushWait(_, _, chunk, chunks, _) => D.RestIsDistinct(chunk, Flatten(chunks));
    case Pulling(_) =>
      if e.PullDelivered? {
        ChunksFlatten(e.dirty, EffectiveSize(d.config.chunkSize));
      }
    case _ =>
  }

  lemma StepKeepsPending(book: Book, node: Node, e: D.Event, b: PendingBatch)
    requires NodeBooked(book, node) && D.Enabled(node.device, e)
    requires node.device.phase.Pushing? && e.Advanced? ==> e.key !in book
    requires b in D.Next(node.device, e).store.pending
    ensures var book' := NextBook(book, node, e); b.key in book' && book'[b.key] == (node.owner, b.ids)
  {
    var d := node.device;
    if b !in d.store.pending {
      if e.PushDelivered? {
        WithoutIsPart(d.store.pending, d.phase.key, b);
      } else if e.Advanced? && d.phase.Replaying? {
        WithoutIsPart(d.store.pending, d.phase.rest[0].key, b);
      }
    }
  }

  lemma StepSendsBooked(book: Book, node: Node, e: D.Event, m: Msg)
    requires NodeBooked(book, node) && D.Enabled(node.device, e)
    requires node.device.phase.Pushing? && e.Advanced? ==> e.key !in book
    requires m in Sends(LocalNode(node, e))
    ensures MsgBooked(NextBook(book, node, e), m)
  {
    var d := node.device;
    if e.Advanced? && d.phase.Replaying? {
      assert d.phase.rest[0] in d.store.pending;
      RequestIs(d.store.records, d.phase.rest[0].ids);
    } else if !e.Advanced? {
      assert m in Sends(node);
    }
  }

  lemma StepBooked(book: Book, node: Node, e: D.Event)
    requires NodeBooked(book, node) && D.Enabled(node.device, e)
    requires node.device.phase.Pushing? && e.Advanced? ==> e.key !in book
    ensures NodeBooked(NextBook(book, node, e), LocalNode(node, e))
  {
    D.StepKeepsDisciplined(node.device, e);
    StepKeepsDistinct(node.device, e);
    forall b | b in D.Next(node.device, e).store.pending
      ensures var book' := NextBook(book, node, e); b.key in book' && book'[b.key] == (node.owner, b.ids)
    {
      StepKeepsPending(book, node, e, b);
    }
    forall m | m in Sends(LocalNode(node, e)) ensures MsgBooked(NextBook(book, node, e), m) {
      StepSendsBooked(book, node, e, m);
    }
  }

  // ---------------------------------------------------------------- the system

  /** A new entry changes nothing for what is in the book. */
  lemma BookGrows(book: Book, book': Book, s: System)
    requires Booked(book, s) && forall key :: key in book ==> key in book' && book'[key] == book[key]
    ensures ServerBooked(book', s.server)
    ensures forall d :: d in s.nodes ==> NodeBooked(book', s.nodes[d])
    ensures forall m :: m in s.sent ==> MsgBooked(book', m)
  {
  }

  lemma LocalBooked(book: Book, s: System, dev: Dev, e: D.Event)
    requires Booked(book, s) && dev in s.nodes && LocalEnabled(s, dev, e)
    ensures Booked(NextBook(book, s.nodes[dev], e), LocalNext(s, dev, e))
  {
    var node := s.nodes[dev];
    BookGrows(book, NextBook(book, node, e), s);
    StepBooked(book, node, e);
    EntriesDistinct(book, s, dev, e);
  }

  lemma EntriesDistinct(book: Book, s: System, dev: Dev, e: D.Event)
    requires dev in s.nodes && NodeBooked(book, s.nodes[dev]) && LocalEnabled(s, dev, e)
    requires forall key :: key in book ==> key in s.keys && NoneTwice(book[key].1)
    ensures var book' := NextBook(book, s.nodes[dev], e);
      forall key :: key in book' ==> key in LocalNext(s, dev, e).keys && NoneTwice(book'[key].1)
  {
    StepKeepsDistinct(s.nodes[dev].device, e);
  }

  lemma ServeBooked(book: Book, s: System, op: ServerOp, to: Option<Dev>)
    requires Booked(book, s) && ServeEnabled(s, op, to)
    ensures Booked(book, ServeNext(s, op, to))
  {
    ServerStepBooked(book, s.server, op);
    forall d | d in s.nodes ensures NodeBooked(book, ServeNext(s, op, to).nodes[d]) {
      assert NodeBooked(book, s.nodes[d]);
      assert Sends(ServeNext(s, op, to).nodes[d]) == Sends(s.nodes[d]);
    }
  }

  lemma StepKeepsBooked(book: Book, s: System, step: Step) returns (book': Book)
    requires Booked(book, s) && Enabled(s, step)
    ensures Booked(book', Next(s, step))
  {
    book' := book;
    match step
    case Local(dev, e) =>
      LocalBooked(book, s, dev, e);
      book' := NextBook(book, s.nodes[dev], e);
    case Serve(op, to) => ServeBooked(book, s, op, to);
    case ServePull(dev, dtos) =>
      assert NodeBooked(book, s.nodes[dev]);
      assert Sends(Next(s, step).nodes[dev]) == Sends(s.nodes[dev]);
    case Export(_) =>
  }

  lemma {:induction false} RunBooked(s: System, steps: seq<Step>) returns (book: Book)
    requires Initial(s) && IsRun(s, steps)
    ensures Booked(book, Run(s, steps))
  {
    if steps == [] {
      book := map[];
    } else {
      book := RunBooked(s, steps[..|steps| - 1]);
      book := StepKeepsBooked(book, Run(s, steps[..|steps| - 1]), steps[|steps| - 1]);
    }
  }

  lemma {:induction false} ReachedIsBooked(s: System) returns (book: Book)
    requires Reachable(s)
    ensures Booked(book, s)
  {
    var start, steps :| Initial(start) && IsRun(start, steps) && Run(start, steps) == s;
    book := RunBooked(start, steps);
  }

  /**
   * In every state that any run reaches: the ids of a pending batch are distinct and in the store, and
   * whatever the server remembers under its key answers them one by one.
   */
  lemma {:induction false} AnswersAreAboutTheBatch(s: System, dev: Dev, b: PendingBatch)
    requires Reachable(s) && dev in s.nodes && b in s.nodes[dev].device.store.pending
    ensures AllAnswering(s.server)
    ensures Keyed(s.nodes[dev].device.store.records) && s.nodes[dev].device.store.pending == [b]
    ensures NoneTwice(b.ids) && forall id :: id in b.ids ==> id in s.nodes[dev].device.store.records
    ensures var k := (s.nodes[dev].owner, b.key);
      k in s.server.cache ==> AnswersIds(b.ids, s.server.cache[k].results)
  {
    var book := ReachedIsBooked(s);
    assert NodeBooked(book, s.nodes[dev]);
  }
}
