/**
 * A push whose reply was lost. As long as its answer is remembered and nothing happens on the device, the
 * next Sync's replay makes up for the lost reply exactly. What edits made before the replay leave of a
 * record survives it unless the server remembers that it applied something else.
 */
module LostReply {
  import opened Domain
  import opened Repository
  import opened Idempotency
  import opened SyncService
  import opened Merge
  import opened Protocol
  import opened LocalEdits
  import opened Answers
  import opened Batches
  import D = Device

  // ---------------------------------------------------------------- no edit before the replay

  /** The device after its call failed, the next Sync started and the replay of its batch was sent. */
  ghost function Resent(d: D.Device): D.Device
    requires D.Disciplined(d) && D.Outstanding(d).Some?
  {
    D.Next(D.Next(D.Next(d, D.Failed), D.Started), D.Advanced(0))
  }

  lemma ResentAsksTheSame(d: D.Device, results: seq<PushResult>)
    requires D.Disciplined(d) && Intact(d) && D.Outstanding(d).Some? && D.Outstanding(d).value.1 != []
    ensures D.Outstanding(Resent(d)) == D.Outstanding(d)
    ensures D.Next(Resent(d), D.PushDelivered(results)).store == D.Next(d, D.PushDelivered(results)).store
  {
    var out := D.Outstanding(d).value;
    OutstandingIsHeld(Node(d, 0, None), Msg(0, out.0, out.1));
    assert Resent(d).phase.ReplayWait? && Resent(d).store == d.store && Resent(d).phase.key == d.phase.key;
  }

  /**
   * The server has answered the outstanding request, remembers the answer, and any other handler still at
   * work on the key came to the same; the reply was lost. Whatever the server does until the key expires,
   * the replay asks the same, is answered the same, leaves the device's store as the lost reply would have,
   * and the server as it was. RepeatsAreAnsweredAlikeExactlyWhen says that no less will do.
   */
  lemma {:induction false} LostReplyEqualsDelivered(
    d: D.Device, server: Server, owner: Owner, ops: seq<ServerOp>, replay: LookUpStep)
    requires D.Disciplined(d) && Intact(d) && D.Outstanding(d).Some? && D.Outstanding(d).value.1 != []
    requires replay.msg == Msg(owner, D.Outstanding(d).value.0, D.Outstanding(d).value.1)
    requires KeyOf(replay.msg) in server.cache && Agreed(server, KeyOf(replay.msg))
    requires IsServerRun(server, ops) && WithinLife(server, KeyOf(replay.msg), ops)
    requires replay.at <= server.cache[KeyOf(replay.msg)].expiresAt && replay.h !in ServerRun(server, ops).handlers
    ensures var results := server.cache[KeyOf(replay.msg)].results;
      var later := ServerRun(server, ops);
      && D.Outstanding(Resent(d)) == D.Outstanding(d)
      && Reply(later, replay) == Some((replay.msg, results))
      && ServerStep(later, replay) == later
      && D.Next(Resent(d), D.PushDelivered(results)).store == D.Next(d, D.PushDelivered(results)).store
  {
    var k := KeyOf(replay.msg);
    ResentAsksTheSame(d, server.cache[k].results);
    RepeatIsAnsweredFromCache(server, ops, k, replay);
  }

  lemma {:induction false} ConflictsChangeNothing(records: Records, cursor: int, results: seq<PushResult>)
    requires forall i :: 0 <= i < |results| ==> results[i].status == Conflict
    ensures D.PutApplied(records, results) == records && D.AppliedCursor(cursor, results) == cursor
  {
    if results != [] {
      ConflictsChangeNothing(records, cursor, results[..|results| - 1]);
    }
  }

  /**
   * Why another handler may not be at work: two handlers of the outstanding request have missed the cache, one
   * runs to its end and its reply is lost, then the other runs to its end. The replay is answered with
   * nothing but conflicts, and leaves all the records dirty although the server has written them.
   */
  lemma {:induction false} OverlapLosesAnswer(
    d: D.Device, server: Server, owner: Owner, first: HandlerId, second: HandlerId, at: Time)
    requires D.Disciplined(d) && Intact(d) && D.Outstanding(d).Some? && D.Outstanding(d).value.1 != []
    requires first != second && first in server.handlers && second in server.handlers
    requires server.handlers[first] == Handler(Msg(owner, D.Outstanding(d).value.0, D.Outstanding(d).value.1), [])
    requires server.handlers[second] == server.handlers[first]
    requires forall i :: 0 <= i < |server.handlers[first].msg.dtos| ==>
               server.handlers[first].msg.dtos[i].baseVersion <= server.repo.counter
    ensures var msg := server.handlers[first].msg;
      var ops := FinishOps(first, |msg.dtos|, at) + FinishOps(second, |msg.dtos|, at);
      && IsServerRun(server, ops)
      && var later := ServerRun(server, ops);
      && KeyOf(msg) in later.cache && Hit(later.cache, KeyOf(msg), at)
      && D.Next(Resent(d), D.PushDelivered(later.cache[KeyOf(msg)].results)).store.records == d.store.records
  {
    OverlapReplacesAnswer(server, first, second, at);
    var msg := server.handlers[first].msg;
    var later := ServerRun(server, FinishOps(first, |msg.dtos|, at) + FinishOps(second, |msg.dtos|, at));
    ConflictedReplay(d, later.cache[KeyOf(msg)].results);
  }

  lemma ConflictedReplay(d: D.Device, results: seq<PushResult>)
    requires D.Disciplined(d) && Intact(d) && D.Outstanding(d).Some? && D.Outstanding(d).value.1 != []
    requires forall i :: 0 <= i < |results| ==> results[i].status == Conflict
    ensures D.Next(Resent(d), D.PushDelivered(results)).store.records == d.store.records
  {
    ResentAsksTheSame(d, results);
    ConflictsChangeNothing(d.store.records, d.store.cursor, results);
  }

  // ---------------------------------------------------------------- what a reply does to a record

  /** What a reply would put at id: the last applied result about it. */
  ghost function Answer(results: seq<PushResult>, id: Id): Option<RecordDTO> {
    if results == [] then None
    else
      var r := results[|results| - 1];
      if r.status == Applied && r.serverRecord.id == id then Some(r.serverRecord)
      else Answer(results[..|results| - 1], id)
  }

  /** The content at id survives a reply exactly when the reply has no answer for id, or one of that content. */
  lemma {:induction false} ContentSurvivesExactlyWhen(records: Records, results: seq<PushResult>, id: Id)
    requires id in records
    ensures var after := D.PutApplied(records, results);
      id in after &&
      (DtoContent(after[id].dto) == DtoContent(records[id].dto) <==>
       (Answer(results, id).None? || DtoContent(Answer(results, id).value) == DtoContent(records[id].dto)))
    ensures var after := D.PutApplied(records, results);
      after[id] == if Answer(results, id).None? then records[id] else Clean(Answer(results, id).value)
  {
    if results != [] {
      ContentSurvivesExactlyWhen(records, results[..|results| - 1], id);
    }
  }

  lemma {:induction false} AnswerOf(ids: seq<Id>, results: seq<PushResult>, i: nat)
    requires AnswersIds(ids, results) && NoneTwice(ids) && i < |ids|
    ensures Answer(results, ids[i]) == if results[i].status == Applied then Some(results[i].serverRecord) else None
  {
    var n := |ids| - 1;
    if i < n {
      AnswerOf(ids[..n], results[..n], i);
    } else {
      NoAnswer(results[..n], ids[n]);
    }
  }

  lemma {:induction false} NoAnswer(results: seq<PushResult>, id: Id)
    requires forall i :: 0 <= i < |results| && results[i].status == Applied ==> results[i].serverRecord.id != id
    ensures Answer(results, id).None?
  {
    if results != [] {
      NoAnswer(results[..|results| - 1], id);
    }
  }

  // ---------------------------------------------------------------- edits before the replay

  /** The device, at rest with one batch pending, after the next Sync started and sent the replay. */
  ghost function Replay(store: D.LocalState, config: D.Config): D.Device
    requires store.pending != []
  {
    D.Next(D.Next(D.Device(store, D.Idle, config), D.Started), D.Advanced(0))
  }

  /**
   * The results are what the server answers to the message when it looks it up in this state: the answer
   * it remembers, or else that of the handler that begins then, whatever happens while it is at work.
   */
  ghost predicate AnswersReplay(later: Server, m: Msg, at: Time, results: seq<PushResult>) {
    if Hit(later.cache, KeyOf(m), at) then
      results == later.cache[KeyOf(m)].results
    else
      exists h, ops :: AnsweredBy(later, m, at, results, h, ops)
  }

  ghost predicate AnsweredBy(
    later: Server, m: Msg, at: Time, results: seq<PushResult>, h: HandlerId, ops: seq<ServerOp>)
  {
    && h !in later.handlers && IsServerRun(LookUp(later, h, m, at), ops)
    && var end := ServerRun(LookUp(later, h, m, at), ops);
    && h in end.handlers && end.handlers[h] == Handler(m, results) && |results| == |m.dtos|
  }

  /** The server remembers that it applied, for the i-th record under the key, something else than the content. */
  ghost predicate RemembersOther(later: Server, k: (Owner, Key), at: Time, i: nat, content: Content) {
    && Hit(later.cache, k, at) && i < |later.cache[k].results|
    && later.cache[k].results[i].status == Applied
    && DtoContent(later.cache[k].results[i].serverRecord) != content
  }

  lemma UncachedAnswer(later: Server, m: Msg, at: Time, results: seq<PushResult>)
    requires AllAnswering(later) && AnswersReplay(later, m, at, results) && !Hit(later.cache, KeyOf(m), at)
    ensures |results| == |m.dtos|
    ensures forall i :: 0 <= i < |results| && results[i].status == Applied ==>
              results[i].serverRecord.id == m.dtos[i].id && DtoContent(results[i].serverRecord) == DtoContent(m.dtos[i])
  {
    var h, ops :| AnsweredBy(later, m, at, results, h, ops);
    RunKeepsAnswering(LookUp(later, h, m, at), ops);
    assert Answering(ServerRun(LookUp(later, h, m, at), ops).handlers[h]);
  }

  /** One batch is pending, its ids are distinct and in the store. */
  ghost predicate AwaitsReplay(store: D.LocalState, b: PendingBatch) {
    && Keyed(store.records) && store.pending == [b] && b.ids != [] && NoneTwice(b.ids)
    && forall id :: id in b.ids ==> id in store.records
  }

  /** What the i-th record of the batch becomes in the replay, and when it keeps its content. */
  ghost predicate KeptUnlessOther(
    before: Records, after: Records, later: Server, k: (Owner, Key), at: Time, i: nat, id: Id)
    requires id in before
  {
    && id in after
    && (DtoContent(after[id].dto) == DtoContent(before[id].dto) <==>
        !RemembersOther(later, k, at, i, DtoContent(before[id].dto)))
    && (RemembersOther(later, k, at, i, DtoContent(before[id].dto)) ==>
        after[id] == Clean(later.cache[k].results[i].serverRecord))
  }

  lemma ReplayKeepsExactlyWhen(store: D.LocalState, config: D.Config, owner: Owner, b: PendingBatch, i: nat,
                               later: Server, at: Time, results: seq<PushResult>)
    requires AwaitsReplay(store, b) && i < |b.ids|
    requires AllAnswering(later)
    requires (owner, b.key) in later.cache ==> AnswersIds(b.ids, later.cache[(owner, b.key)].results)
    requires AnswersReplay(later, Msg(owner, b.key, D.RequestOf(store.records, b.ids)), at, results)
    ensures Replay(store, config).phase.ReplayWait?
    ensures var after := D.Next(Replay(store, config), D.PushDelivered(results)).store.records;
      KeptUnlessOther(store.records, after, later, (owner, b.key), at, i, b.ids[i])
  {
    var m := Msg(owner, b.key, D.RequestOf(store.records, b.ids));
    RequestIs(store.records, b.ids);
    if !Hit(later.cache, KeyOf(m), at) {
      UncachedAnswer(later, m, at, results);
    }
    AnswerOf(b.ids, results, i);
    ContentSurvivesExactlyWhen(store.records, results, b.ids[i]);
  }

  /**
   * A device is at rest with a batch pending, in a state that some run of the system reached: with any
   * edits, of any records of the batch, since the batch was sent for the first time, after any number of
   * failed replays, and whether or not the batch ever reached the server. It sends the replay, and the
   * server looks it up in a state that some run reached in which the batch is still pending. For each
   * record of the batch: what the store held when the replay was sent is there after the reply if and only
   * if the server does not remember at the lookup that it applied something else for the record. If it
   * does, the record becomes what was applied, clean.
   */
  lemma {:induction false} EditsSurviveReplayExactlyWhen(
    s: System, dev: Dev, b: PendingBatch, i: nat, later: System, at: Time, results: seq<PushResult>)
    requires Reachable(s) && dev in s.nodes && s.nodes[dev].device.phase.Idle?
    requires b in s.nodes[dev].device.store.pending && i < |b.ids|
    requires Reachable(later) && dev in later.nodes && later.nodes[dev].owner == s.nodes[dev].owner
    requires b in later.nodes[dev].device.store.pending
    requires var node := s.nodes[dev];
      AnswersReplay(later.server, Msg(node.owner, b.key, D.RequestOf(node.device.store.records, b.ids)), at, results)
    ensures var node := s.nodes[dev];
      var before := node.device.store.records;
      && node.device.store.pending == [b] && b.ids[i] in before
      && Replay(node.device.store, node.device.config).phase.ReplayWait?
      && var after := D.Next(Replay(node.device.store, node.device.config), D.PushDelivered(results)).store.records;
      KeptUnlessOther(before, after, later.server, (node.owner, b.key), at, i, b.ids[i])
  {
    var node := s.nodes[dev];
    AnswersAreAboutTheBatch(s, dev, b);
    AnswersAreAboutTheBatch(later, dev, b);
    ReplayKeepsExactlyWhen(node.device.store, node.device.config, node.owner, b, i, later.server, at, results);
  }

  // ---------------------------------------------------------------- from one failed call to the next

  /** The user edits: any records, any number of times. */
  ghost predicate AreEdits(es: seq<D.Event>) {
    forall e :: e in es ==> e.Edited?
  }

  /** The device after its call failed and the user made these edits. */
  ghost function Edited(d: D.Device, es: seq<D.Event>): D.Device
    requires D.Disciplined(d) && D.Outstanding(d).Some? && D.IsRun(D.Next(d, D.Failed), es)
  {
    D.Run(D.Next(d, D.Failed), es)
  }

  lemma {:induction false} EditedAwaitsReplay(d: D.Device, es: seq<D.Event>)
    requires D.Disciplined(d) && D.Outstanding(d).Some?
    requires D.IsRun(D.Next(d, D.Failed), es) && AreEdits(es)
    requires var b := d.store.pending[0]; b.ids != [] && NoneTwice(b.ids)
    ensures var edited := Edited(d, es);
      && edited.phase.Idle? && edited.config == d.config && AwaitsReplay(edited.store, d.store.pending[0])
  {
    var b := d.store.pending[0];
    if es == [] {
      assert b in d.store.pending;
    } else {
      var before := es[..|es| - 1];
      assert es[|es| - 1] in es && forall e :: e in before ==> e in es;
      EditedAwaitsReplay(d, before);
      D.EditKeepsKeyed(Edited(d, before).store.records, es[|es| - 1].edit);
    }
  }

  /**
   * One failed call of a push or a replay, any edits, and the next Sync's replay: the same, without looking
   * at how the device came to wait.
   */
  lemma {:induction false} EditSurvivesReplayExactlyWhen(
    d: D.Device, owner: Owner, es: seq<D.Event>, i: nat, later: Server, at: Time, results: seq<PushResult>)
    requires D.Disciplined(d) && D.Outstanding(d).Some?
    requires D.IsRun(D.Next(d, D.Failed), es) && AreEdits(es)
    requires var b := d.store.pending[0];
      && NoneTwice(b.ids) && i < |b.ids| && AllAnswering(later)
      && ((owner, b.key) in later.cache ==> AnswersIds(b.ids, later.cache[(owner, b.key)].results))
      && AnswersReplay(later, Msg(owner, b.key, D.RequestOf(Edited(d, es).store.records, b.ids)), at, results)
    ensures var b := d.store.pending[0];
      var edited := Edited(d, es);
      && edited.store.pending == [b] && b.ids[i] in edited.store.records
      && Replay(edited.store, d.config).phase.ReplayWait?
      && var after := D.Next(Replay(edited.store, d.config), D.PushDelivered(results)).store.records;
      KeptUnlessOther(edited.store.records, after, later, (owner, b.key), at, i, b.ids[i])
  {
    EditedAwaitsReplay(d, es);
    ReplayKeepsExactlyWhen(Edited(d, es).store, d.config, owner, d.store.pending[0], i, later, at, results);
  }

  /**
   * So edits, and in particular a deletion, of a record that the server had already applied with another
   * content are undone by a replay within the key's life.
   */
  lemma {:induction false} EditBeforeReplayIsLost(
    d: D.Device, owner: Owner, es: seq<D.Event>, i: nat, later: Server, at: Time)
    requires D.Disciplined(d) && D.Outstanding(d).Some?
    requires D.IsRun(D.Next(d, D.Failed), es) && AreEdits(es)
    requires var b := d.store.pending[0];
      var k := (owner, b.key);
      && NoneTwice(b.ids) && i < |b.ids| && AllAnswering(later)
      && Hit(later.cache, k, at) && AnswersIds(b.ids, later.cache[k].results)
      && later.cache[k].results[i].status == Applied
      && b.ids[i] in Edited(d, es).store.records
      && DtoContent(Edited(d, es).store.records[b.ids[i]].dto) != DtoContent(later.cache[k].results[i].serverRecord)
    ensures var b := d.store.pending[0];
      var edited := Edited(d, es);
      var results := later.cache[(owner, b.key)].results;
      && edited.store.pending == [b] && Replay(edited.store, d.config).phase.ReplayWait?
      && var after := D.Next(Replay(edited.store, d.config), D.PushDelivered(results)).store.records;
      b.ids[i] in after && after[b.ids[i]] == Clean(results[i].serverRecord)
  {
    var b := d.store.pending[0];
    var results := later.cache[(owner, b.key)].results;
    EditSurvivesReplayExactlyWhen(d, owner, es, i, later, at, results);
    assert RemembersOther(later, (owner, b.key), at, i, DtoContent(Edited(d, es).store.records[b.ids[i]].dto));
  }
}
