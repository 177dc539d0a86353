/**
 * Ids keep their owner: the server writes a record over whatever it has at the id without comparing the
 * owners. In every run of the system, whatever edits, failures and repetitions it has, an id is nevertheless
 * only ever written for the owner who generated it, and only ever reaches that owner's devices. And no
 * device's cursor is ahead of the server.
 */
module Ownership {
  import opened Domain
  import opened Repository
  import opened Idempotency
  import opened SyncService
  import opened Merge
  import opened Chunks
  import opened Protocol
  import C = Convergence
  import T = Tombstones
  import IncrementalPull
  import D = Device

  type Registry = map<Id, Owner>

  predicate IsOf(registry: Registry, owner: Owner, id: Id) {
    id in registry && registry[id] == owner
  }

  ghost predicate AllOf(registry: Registry, owner: Owner, dtos: seq<RecordDTO>) {
    forall i :: 0 <= i < |dtos| ==> IsOf(registry, owner, dtos[i].id)
  }

  ghost predicate ResultsOf(registry: Registry, owner: Owner, results: seq<PushResult>) {
    forall i :: 0 <= i < |results| ==> IsOf(registry, owner, results[i].serverRecord.id)
  }

  ghost predicate StoreOf(registry: Registry, owner: Owner, records: Records) {
    forall id :: id in records ==> IsOf(registry, owner, id)
  }

  ghost predicate MailOf(registry: Registry, owner: Owner, mail: Option<Mail>) {
    match mail
    case None => true
    case Some(PullMail(dtos)) => AllOf(registry, owner, dtos)
    case Some(PushMail(results)) => ResultsOf(registry, owner, results)
  }

  ghost predicate NodeOf(registry: Registry, node: Node) {
    && D.Disciplined(node.device)
    && StoreOf(registry, node.owner, node.device.store.records)
    && MailOf(registry, node.owner, node.mail)
    && (node.mail.Some? ==> node.device.phase.Pulling? || D.Outstanding(node.device).Some?)
    && (forall m :: m in Sends(node) ==> m.owner == node.owner && AllOf(registry, node.owner, m.dtos))
  }

  ghost predicate RepoOf(registry: Registry, repo: Repo) {
    forall id :: id in repo.records ==> repo.records[id].id == id && IsOf(registry, repo.records[id].owner, id)
  }

  ghost predicate HandlerOf(registry: Registry, h: Handler) {
    AllOf(registry, h.msg.owner, h.msg.dtos) && ResultsOf(registry, h.msg.owner, h.results)
  }

  ghost predicate ServerOf(registry: Registry, server: Server) {
    && RepoOf(registry, server.repo)
    && (forall h :: h in server.handlers ==> HandlerOf(registry, server.handlers[h]))
    && (forall k :: k in server.cache ==> ResultsOf(registry, k.0, server.cache[k].results))
  }

  ghost predicate Inv(s: System) {
    && ServerOf(s.registry, s.server)
    && (forall d :: d in s.nodes ==> NodeOf(s.registry, s.nodes[d]))
    && (forall m :: m in s.sent ==> AllOf(s.registry, m.owner, m.dtos))
    && (forall x :: x in s.exported ==> IsOf(s.registry, x.0, x.1.id))
  }

  // ---------------------------------------------------------------- one device

  lemma {:induction false} ImportOf(registry: Registry, owner: Owner, records: Records, dtos: seq<RecordDTO>, at: Time)
    requires StoreOf(registry, owner, records) && AllOf(registry, owner, dtos)
    ensures StoreOf(registry, owner, D.ImportAll(records, dtos, at))
  {
    if dtos != [] {
      ImportOf(registry, owner, records, dtos[..|dtos| - 1], at);
    }
  }

  lemma {:induction false} RequestIsOf(registry: Registry, owner: Owner, records: Records, ids: seq<Id>)
    requires StoreOf(registry, owner, records) && Keyed(records)
    ensures AllOf(registry, owner, D.RequestOf(records, ids))
  {
    if ids != [] {
      RequestIsOf(registry, owner, records, ids[..|ids| - 1]);
    }
  }

  lemma PulledIsOf(registry: Registry, owner: Owner, records: Records, jobs: seq<Job>)
    requires StoreOf(registry, owner, records) && AllOf(registry, owner, D.IncomingOf(jobs)) && Keyed(records)
    requires DistinctIncoming(jobs) && FreshCopies(records, jobs)
    requires forall id :: id in CopyIds(records, jobs) ==> IsOf(registry, owner, id)
    ensures StoreOf(registry, owner, MergeAll(records, jobs))
  {
    MergeAllIsMerge(records, jobs);
    forall id | id in MergeAll(records, jobs) ensures IsOf(registry, owner, id) {
      if id in IncomingIds(jobs) {
        var i :| 0 <= i < |jobs| && jobs[i].incoming.id == id;
        assert IsOf(registry, owner, D.IncomingOf(jobs)[i].id);
      }
    }
  }

  lemma AppliedIsOf(registry: Registry, owner: Owner, records: Records, results: seq<PushResult>)
    requires StoreOf(registry, owner, records) && ResultsOf(registry, owner, results)
    ensures StoreOf(registry, owner, D.PutApplied(records, results))
  {
    forall id | id in D.PutApplied(records, results) ensures IsOf(registry, owner, id) {
      if id !in records && !(exists i :: 0 <= i < |results| && results[i].serverRecord.id == id) {
        D.NotTouched(records, results, id);
      }
    }
  }

  lemma ChunkIsOf(registry: Registry, owner: Owner, d: D.Device)
    requires D.Disciplined(d) && d.phase.PushWait? && StoreOf(registry, owner, d.store.records)
    ensures AllOf(registry, owner, D.DtosOf(d.phase.chunk))
  {
    var b := d.store.pending[0];
    assert b in d.store.pending;
    forall i | 0 <= i < |d.phase.chunk| ensures IsOf(registry, owner, D.DtosOf(d.phase.chunk)[i].id) {
      assert D.IdsOf(d.phase.chunk)[i] in b.ids;
    }
  }

  lemma SendsOf(registry: Registry, node: Node, e: D.Event)
    requires NodeOf(registry, node) && D.Enabled(node.device, e)
    requires D.Disciplined(D.Next(node.device, e))
    requires StoreOf(registry, node.owner, D.Next(node.device, e).store.records)
    ensures forall m :: m in Sends(LocalNode(node, e)) ==> m.owner == node.owner && AllOf(registry, node.owner, m.dtos)
  {
    var next := D.Next(node.device, e);
    if next.phase.PushWait? {
      ChunkIsOf(registry, node.owner, next);
    } else if next.phase.ReplayWait? && e.Advanced? {
      RequestIsOf(registry, node.owner, node.device.store.records, node.device.phase.rest[0].ids);
    } else {
      assert Sends(LocalNode(node, e)) <= Sends(node);
    }
  }

  /** New ids are registered; what is pulled, acknowledged or imported is the owner's. */
  lemma DeviceStepOf(registry: Registry, node: Node, e: D.Event)
    requires NodeOf(registry, node) && D.Enabled(node.device, e)
    requires forall id :: id in NewIds(node.device, e) ==> IsOf(registry, node.owner, id)
    requires e.PullDelivered? ==> AllOf(registry, node.owner, D.IncomingOf(e.jobs))
    requires e.PushDelivered? ==> ResultsOf(registry, node.owner, e.results)
    requires e.Edited? && e.edit.Import? ==> AllOf(registry, node.owner, e.edit.dtos)
    ensures NodeOf(registry, LocalNode(node, e))
  {
    var d := node.device;
    D.StepKeepsDisciplined(d, e);
    match e {
      case Edited(edit) =>
        if edit.Import? { ImportOf(registry, node.owner, d.store.records, edit.dtos, edit.at); }
      case PullDelivered(jobs, _) => PulledIsOf(registry, node.owner, d.store.records, jobs);
      case PushDelivered(results) => AppliedIsOf(registry, node.owner, d.store.records, results);
      case _ =>
    }
    SendsOf(registry, node, e);
  }

  // ---------------------------------------------------------------- the system

  lemma RegistryGrows(s: System, registry: Registry)
    requires Inv(s) && forall id :: id in s.registry ==> id in registry && registry[id] == s.registry[id]
    ensures ServerOf(registry, s.server)
    ensures forall d :: d in s.nodes ==> NodeOf(registry, s.nodes[d])
    ensures forall m :: m in s.sent ==> AllOf(registry, m.owner, m.dtos)
    ensures forall x :: x in s.exported ==> IsOf(registry, x.0, x.1.id)
  {
    forall d | d in s.nodes ensures NodeOf(registry, s.nodes[d]) {
      assert NodeOf(s.registry, s.nodes[d]);
    }
  }

  lemma LocalKeepsInv(s: System, dev: Dev, e: D.Event)
    requires Inv(s) && dev in s.nodes && LocalEnabled(s, dev, e)
    ensures Inv(LocalNext(s, dev, e))
  {
    var node := s.nodes[dev];
    var registry := LocalNext(s, dev, e).registry;
    assert NewIds(node.device, e) !! s.registry.Keys;
    RegistryGrows(s, registry);
    if e.Edited? && e.edit.Import? {
      forall i | 0 <= i < |e.edit.dtos| ensures IsOf(registry, node.owner, e.edit.dtos[i].id) {
        assert (node.owner, e.edit.dtos[i]) in s.exported;
      }
    }
    DeviceStepOf(registry, node, e);
  }

  lemma PulledMailOf(s: System, dev: Dev, dtos: seq<RecordDTO>)
    requires Inv(s) && Enabled(s, ServePull(dev, dtos))
    ensures Inv(Next(s, ServePull(dev, dtos)))
  {
    var node := s.nodes[dev];
    forall i | 0 <= i < |dtos| ensures IsOf(s.registry, node.owner, dtos[i].id) {
      assert Changed(s.server.repo, node.owner, node.device.store.cursor, dtos[i].id);
    }
    assert Sends(Next(s, ServePull(dev, dtos)).nodes[dev]) == Sends(node);
  }

  lemma ServerStepOf(registry: Registry, server: Server, op: ServerOp)
    requires ServerOf(registry, server) && ServerEnabled(server, op)
    requires op.LookUpOp? ==> AllOf(registry, op.msg.owner, op.msg.dtos)
    requires op.WriteOp? ==> IsOf(registry, op.rec.owner, op.rec.id)
    ensures ServerOf(registry, ServerStep(server, op))
    ensures Reply(server, op).Some? ==> ResultsOf(registry, Reply(server, op).value.0.owner, Reply(server, op).value.1)
  {
    if op.ApplyOp? {
      assert HandlerOf(registry, server.handlers[op.h]);
      assert IsOf(registry, server.handlers[op.h].msg.owner, NextDTO(server.handlers[op.h]).id);
    } else if op.SaveOp? {
      assert HandlerOf(registry, server.handlers[op.h]);
    }
  }

  lemma ServeKeepsInv(s: System, op: ServerOp, to: Option<Dev>)
    requires Inv(s) && ServeEnabled(s, op, to)
    ensures Inv(ServeNext(s, op, to))
  {
    var next := ServeNext(s, op, to);
    RegistryGrows(s, next.registry);
    ServerStepOf(next.registry, s.server, op);
    forall d | d in s.nodes ensures NodeOf(next.registry, next.nodes[d]) {
      assert NodeOf(next.registry, s.nodes[d]);
      assert Sends(next.nodes[d]) == Sends(s.nodes[d]);
    }
  }

  lemma StepKeepsInv(s: System, step: Step)
    requires Inv(s) && Enabled(s, step)
    ensures Inv(Next(s, step))
  {
    match step
    case Local(dev, e) => LocalKeepsInv(s, dev, e);
    case ServePull(dev, dtos) => PulledMailOf(s, dev, dtos);
    case Serve(op, to) => ServeKeepsInv(s, op, to);
    case Export(dev) =>
      assert NodeOf(s.registry, s.nodes[dev]);
  }

  lemma {:induction false} RunKeepsInv(s: System, steps: seq<Step>)
    requires Inv(s) && IsRun(s, steps)
    ensures Inv(Run(s, steps))
  {
    if steps != [] {
      RunKeepsInv(s, steps[..|steps| - 1]);
      StepKeepsInv(Run(s, steps[..|steps| - 1]), steps[|steps| - 1]);
    }
  }

  lemma InitialInv(s: System)
    requires Initial(s)
    ensures Inv(s)
  {
  }

  /**
   * In every state that a run reaches, every record of the server and of the devices has the owner who
   * generated its id. So no two owners ever have a record of the same id.
   */
  lemma {:induction false} IdsKeepTheirOwner(s: System)
    requires Reachable(s)
    ensures forall id :: id in s.server.repo.records ==> IsOf(s.registry, s.server.repo.records[id].owner, id)
    ensures forall d, id :: d in s.nodes && id in s.nodes[d].device.store.records ==>
              IsOf(s.registry, s.nodes[d].owner, id)
    ensures Inv(s)
  {
    var start, steps :| Initial(start) && IsRun(start, steps) && Run(start, steps) == s;
    InitialInv(start);
    RunKeepsInv(start, steps);
  }

  /** So every step that the server makes in the system is as IncrementalPull supposes. */
  lemma {:induction false} ServeRespectsOwners(s: System, op: ServerOp, to: Option<Dev>)
    requires Reachable(s) && Enabled(s, Serve(op, to))
    ensures IncrementalPull.RespectsOwners(s.server, op)
  {
    IdsKeepTheirOwner(s);
    if op.ApplyOp? {
      assert HandlerOf(s.registry, s.server.handlers[op.h]);
      assert IsOf(s.registry, s.server.handlers[op.h].msg.owner, NextDTO(s.server.handlers[op.h]).id);
    }
  }

  /** An id that has an owner keeps it in every run that follows. */
  lemma {:induction false} RegisteredForGood(s: System, steps: seq<Step>, id: Id)
    requires IsRun(s, steps) && id in s.registry
    ensures IsOf(Run(s, steps).registry, s.registry[id], id)
  {
    if steps != [] {
      var before := Run(s, steps[..|steps| - 1]);
      RegisteredForGood(s, steps[..|steps| - 1], id);
      OwnerStays(before, steps[|steps| - 1], id);
    }
  }

  lemma OwnerStays(s: System, step: Step, id: Id)
    requires Enabled(s, step) && id in s.registry
    ensures IsOf(Next(s, step).registry, s.registry[id], id)
  {
    if step.Local? {
      assert NewIds(s.nodes[step.dev].device, step.e) !! s.registry.Keys;
    }
  }

  // ---------------------------------------------------------------- cursors

  ghost predicate CursorsBehind(s: System) {
    forall d :: d in s.nodes ==> s.nodes[d].device.store.cursor <= s.server.repo.counter
  }

  lemma CursorAfterEvent(log: seq<Write>, d: D.Device, e: D.Event, counter: nat)
    requires d.store.cursor <= counter == |log| && D.Enabled(d, e)
    requires e.PullDelivered? ==> T.AllSound(log, D.IncomingOf(e.jobs))
    requires e.PushDelivered? ==> T.ResultsSound(log, e.results)
    ensures D.Next(d, e).store.cursor <= counter
  {
    match e
    case PullDelivered(jobs, _) =>
      forall i | 0 <= i < |jobs| ensures jobs[i].incoming.version <= counter {
        assert T.Sound(log, D.IncomingOf(jobs)[i]);
      }
      C.PulledCursorBounds(d.store.cursor, jobs, counter);
    case PushDelivered(results) => C.AppliedCursorBounds(d.store.cursor, results, counter);
    case _ =>
  }

  lemma LocalKeepsCursors(s: System, dev: Dev, e: D.Event)
    requires CursorsBehind(s) && dev in s.nodes && LocalEnabled(s, dev, e)
    requires D.Next(s.nodes[dev].device, e).store.cursor <= s.server.repo.counter
    ensures CursorsBehind(LocalNext(s, dev, e))
  {
  }

  lemma ElsewhereKeepsCursors(s: System, step: Step)
    requires CursorsBehind(s) && Enabled(s, step) && !step.Local?
    ensures CursorsBehind(Next(s, step))
  {
  }

  lemma StepKeepsCursors(s: System, step: Step)
    requires T.Inv(s) && CursorsBehind(s) && Enabled(s, step)
    ensures CursorsBehind(Next(s, step))
  {
    if step.Local? {
      T.EventIsSound(s, step.dev, step.e);
      CursorAfterEvent(s.server.repo.log, s.nodes[step.dev].device, step.e, s.server.repo.counter);
      LocalKeepsCursors(s, step.dev, step.e);
    } else {
      ElsewhereKeepsCursors(s, step);
    }
  }

  /** In no run does a device's cursor get ahead of the server. */
  lemma {:induction false} CursorsStayBehind(s: System, steps: seq<Step>)
    requires T.Inv(s) && CursorsBehind(s) && IsRun(s, steps)
    ensures CursorsBehind(Run(s, steps))
  {
    if steps != [] {
      var n := |steps| - 1;
      CursorsStayBehind(s, steps[..n]);
      T.RunKeepsInv(s, steps[..n]);
      StepKeepsCursors(Run(s, steps[..n]), steps[n]);
    }
  }

  lemma {:induction false} CursorsStartBehind(s: System)
    requires Initial(s)
    ensures T.Inv(s) && CursorsBehind(s)
  {
  }
}
