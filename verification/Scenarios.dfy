/**
 * Runs of the system, from its start: into states that a user would rather not see, which are a copy that
 * no pull will ever bring up to date, and an edit that no push will ever bring to the server, after a failed
 * call or without any; and a quiet run that ends a Sync with a push.
 */
module Scenarios {
  import opened Domain
  import opened Repository
  import opened Idempotency
  import opened SyncService
  import opened Merge
  import opened Chunks
  import opened Protocol
  import opened Convergence
  import S = Stuck
  import L = Lone
  import D = Device

  const NO_PAYLOAD := Payload([], [], [], [])

  // ---------------------------------------------------------------- steps taken together

  /** What kind of run is wanted: any, one without a failed call, or a quiet one. */
  datatype Mode = Any | Unfailing | Quietly

  ghost predicate NoCallFails(steps: seq<Step>) {
    forall i :: 0 <= i < |steps| ==> !(steps[i].Local? && steps[i].e.Failed?)
  }

  ghost predicate Kept(mode: Mode, start: System, steps: seq<Step>)
    requires IsRun(start, steps)
  {
    match mode
    case Any => true
    case Unfailing => NoCallFails(steps)
    case Quietly => Iterating(start) && QuietRun(start, steps)
  }

  ghost predicate Keeps(mode: Mode, s: System, step: Step) {
    match mode
    case Any => true
    case Unfailing => !(step.Local? && step.e.Failed?)
    case Quietly => Quiet(s, step)
  }

  ghost predicate LeadsTo(mode: Mode, start: System, steps: seq<Step>, s: System) {
    Initial(start) && IsRun(start, steps) && Run(start, steps) == s && Kept(mode, start, steps)
  }

  /** Some run of this kind leads here. */
  ghost predicate Reached(mode: Mode, s: System) {
    exists start, steps :: LeadsTo(mode, start, steps, s)
  }

  lemma {:induction false} ReachedNext(mode: Mode, s: System, step: Step)
    requires Reached(mode, s) && Enabled(s, step) && Keeps(mode, s, step)
    ensures Reached(mode, Next(s, step))
  {
    var start, steps :| LeadsTo(mode, start, steps, s);
    RunAppend(start, steps, step);
    assert (steps + [step])[..|steps|] == steps;
    assert LeadsTo(mode, start, steps + [step], Next(s, step));
  }

  lemma {:induction false} ReachedIsReachable(mode: Mode, s: System)
    requires Reached(mode, s)
    ensures Reachable(s)
  {
    var start, steps :| LeadsTo(mode, start, steps, s);
  }

  /** The device starts a Sync with nothing pending and pulls. */
  ghost function Pulled(s: System, dev: Dev, jobs: seq<Job>, dirty: seq<StoredRecord>): System
    requires dev in s.nodes
  {
    var node := s.nodes[dev];
    var d := node.device;
    var store := D.LocalState(MergeAll(d.store.records, jobs), D.PulledCursor(d.store.cursor, jobs), []);
    s.(nodes := s.nodes[dev := Node(D.Device(store, D.AfterPull(0, dirty, d.config), d.config), node.owner, None)],
       registry := Register(s.registry, CopyIds(d.store.records, jobs), node.owner))
  }

  ghost predicate CanPull(s: System, dev: Dev, jobs: seq<Job>, dirty: seq<StoredRecord>) {
    && dev in s.nodes
    && var node := s.nodes[dev];
    && node.device.phase.Idle? && node.device.store.pending == [] && node.device.config.maxIterations >= 1
    && IsListing(s.server.repo, node.owner, node.device.store.cursor, D.IncomingOf(jobs))
    && DistinctIncoming(jobs) && FreshCopies(node.device.store.records, jobs)
    && CopyIds(node.device.store.records, jobs) !! s.registry.Keys
    && D.ListsDirty(MergeAll(node.device.store.records, jobs), dirty)
  }

  ghost function InPhase(s: System, dev: Dev, phase: D.Phase, mail: Option<Mail>): System
    requires dev in s.nodes
  {
    s.(nodes := s.nodes[dev := Node(s.nodes[dev].device.(phase := phase), s.nodes[dev].owner, mail)])
  }

  lemma StartedStep(s: System, dev: Dev)
    requires dev in s.nodes && s.nodes[dev].device.phase.Idle?
    ensures Enabled(s, Local(dev, D.Started))
    ensures Next(s, Local(dev, D.Started)) ==
            InPhase(s, dev, D.Replaying(s.nodes[dev].device.store.pending), s.nodes[dev].mail)
  {
  }

  lemma ReplayedStep(s: System, dev: Dev)
    requires dev in s.nodes && s.nodes[dev].device.phase == D.Replaying([]) &&
               s.nodes[dev].device.config.maxIterations >= 1
    ensures Enabled(s, Local(dev, D.Advanced(0)))
    ensures Next(s, Local(dev, D.Advanced(0))) == InPhase(s, dev, D.Pulling(0), s.nodes[dev].mail)
  {
  }

  lemma {:induction false} PulledStep(s: System, dev: Dev, jobs: seq<Job>, dirty: seq<StoredRecord>)
    requires CanPull(s, dev, jobs, dirty)
    ensures var waiting := InPhase(s, dev, D.Pulling(0), Some(PullMail(D.IncomingOf(jobs))));
      && Enabled(waiting, Local(dev, D.PullDelivered(jobs, dirty)))
      && Next(waiting, Local(dev, D.PullDelivered(jobs, dirty))) == Pulled(s, dev, jobs, dirty)
  {
    var waiting := InPhase(s, dev, D.Pulling(0), Some(PullMail(D.IncomingOf(jobs))));
    var next := Next(waiting, Local(dev, D.PullDelivered(jobs, dirty)));
    assert next.sent == s.sent;
    assert next.nodes == Pulled(s, dev, jobs, dirty).nodes;
  }

  lemma {:induction false} AnsweredStep(s: System, dev: Dev, jobs: seq<Job>, dirty: seq<StoredRecord>)
    requires CanPull(s, dev, jobs, dirty)
    ensures var asking := InPhase(s, dev, D.Pulling(0), s.nodes[dev].mail);
      var answer := ServePull(dev, D.IncomingOf(jobs));
      && Enabled(asking, answer)
      && Next(asking, answer) == InPhase(s, dev, D.Pulling(0), Some(PullMail(D.IncomingOf(jobs))))
  {
  }

  /** A Sync with nothing pending comes to its pull. */
  lemma {:induction false} ReachPulling(mode: Mode, s: System, dev: Dev)
    requires Reached(mode, s) && dev in s.nodes && (mode.Quietly? ==> s.nodes.Keys == {dev})
    requires var d := s.nodes[dev].device; d.phase.Idle? && d.store.pending == [] && d.config.maxIterations >= 1
    ensures Reached(mode, InPhase(s, dev, D.Pulling(0), s.nodes[dev].mail))
  {
    StartedStep(s, dev);
    NobodyIsBusy(s, dev);
    ReachedNext(mode, s, Local(dev, D.Started));
    PullingStep(s, dev);
    ReachedNext(mode, InPhase(s, dev, D.Replaying([]), s.nodes[dev].mail), Local(dev, D.Advanced(0)));
  }

  lemma NobodyIsBusy(s: System, dev: Dev)
    requires dev in s.nodes && s.nodes[dev].device.phase.Idle?
    ensures s.nodes.Keys == {dev} ==> !Busy(s, s.nodes[dev].owner)
  {
  }

  lemma {:induction false} PullingStep(s: System, dev: Dev)
    requires dev in s.nodes && s.nodes[dev].device.config.maxIterations >= 1
    ensures var started := InPhase(s, dev, D.Replaying([]), s.nodes[dev].mail);
      && Enabled(started, Local(dev, D.Advanced(0)))
      && Next(started, Local(dev, D.Advanced(0))) == InPhase(s, dev, D.Pulling(0), s.nodes[dev].mail)
  {
    var started := InPhase(s, dev, D.Replaying([]), s.nodes[dev].mail);
    ReplayedStep(started, dev);
    assert Next(started, Local(dev, D.Advanced(0))).nodes == InPhase(s, dev, D.Pulling(0), s.nodes[dev].mail).nodes;
  }

  lemma {:induction false} ReachPull(mode: Mode, s: System, dev: Dev, jobs: seq<Job>, dirty: seq<StoredRecord>)
    requires Reached(mode, s) && CanPull(s, dev, jobs, dirty) && (mode.Quietly? ==> s.nodes.Keys == {dev})
    ensures Reached(mode, Pulled(s, dev, jobs, dirty))
  {
    ReachPulling(mode, s, dev);
    AnsweredStep(s, dev, jobs, dirty);
    ReachedNext(mode, InPhase(s, dev, D.Pulling(0), s.nodes[dev].mail), ServePull(dev, D.IncomingOf(jobs)));
    PulledStep(s, dev, jobs, dirty);
    ReachedNext(mode, InPhase(s, dev, D.Pulling(0), Some(PullMail(D.IncomingOf(jobs)))),
                Local(dev, D.PullDelivered(jobs, dirty)));
  }

  /** What becomes of a system whose device waits with one record, when it is pushed and answered. */
  ghost function Delivered(s: System, dev: Dev, msg: Msg, at: Time): System
    requires dev in s.nodes && D.Outstanding(s.nodes[dev].device).Some? && |msg.dtos| == 1
  {
    var u := UpsertDTO(s.server.repo, msg.owner, msg.dtos[0], at);
    var results := [ResultOf(msg.dtos[0], u)];
    s.(server := s.server.(repo := u.repo, cache := s.server.cache[KeyOf(msg) := Entry(results, at + IDEMPOTENCY_TTL)]),
       nodes := s.nodes[dev := Node(D.Next(s.nodes[dev].device, D.PushDelivered(results)), s.nodes[dev].owner, None)])
  }

  ghost predicate CanDeliver(s: System, dev: Dev, msg: Msg) {
    && dev in s.nodes && msg in Sends(s.nodes[dev]) && msg in s.sent && |msg.dtos| == 1
    && s.server.handlers == map[] && KeyOf(msg) !in s.server.cache
  }

  /** The server after the only record of the message was upserted. */
  ghost function Upserted(s: System, msg: Msg, at: Time): System
    requires |msg.dtos| == 1
  {
    var u := UpsertDTO(s.server.repo, msg.owner, msg.dtos[0], at);
    s.(server := s.server.(repo := u.repo, handlers := map[0 := Handler(msg, [ResultOf(msg.dtos[0], u)])]))
  }

  lemma ReachUpserted(mode: Mode, s: System, dev: Dev, msg: Msg, at: Time)
    requires Reached(mode, s) && CanDeliver(s, dev, msg)
    ensures Reached(mode, Upserted(s, msg, at))
  {
    LookedUpStep(s, dev, msg, at);
    ReachedNext(mode, s, Serve(LookUpOp(0, msg, at), None));
    ReachedNext(mode, Next(s, Serve(LookUpOp(0, msg, at), None)), Serve(ApplyOp(0, at), None));
  }

  lemma LookedUpStep(s: System, dev: Dev, msg: Msg, at: Time)
    requires CanDeliver(s, dev, msg)
    ensures Enabled(s, Serve(LookUpOp(0, msg, at), None))
    ensures var looked := Next(s, Serve(LookUpOp(0, msg, at), None));
      && Enabled(looked, Serve(ApplyOp(0, at), None))
      && Next(looked, Serve(ApplyOp(0, at), None)) == Upserted(s, msg, at)
  {
    var looked := Next(s, Serve(LookUpOp(0, msg, at), None));
    assert looked.server == s.server.(handlers := map[0 := Handler(msg, [])]) by {
      assert s.server.cache - {KeyOf(msg)} == s.server.cache;
    }
    var upserted := Next(looked, Serve(ApplyOp(0, at), None));
    var u := UpsertDTO(s.server.repo, msg.owner, msg.dtos[0], at);
    assert [] + [ResultOf(msg.dtos[0], u)] == [ResultOf(msg.dtos[0], u)];
    assert upserted.server.handlers == Upserted(s, msg, at).server.handlers;
  }

  /** The server after the answer was saved, and the answer on its way. */
  ghost function Saved(s: System, dev: Dev, msg: Msg, at: Time): System
    requires dev in s.nodes && |msg.dtos| == 1
  {
    var u := UpsertDTO(s.server.repo, msg.owner, msg.dtos[0], at);
    var results := [ResultOf(msg.dtos[0], u)];
    s.(server := s.server.(repo := u.repo, cache := s.server.cache[KeyOf(msg) := Entry(results, at + IDEMPOTENCY_TTL)]),
       nodes := s.nodes[dev := s.nodes[dev].(mail := Some(PushMail(results)))])
  }

  lemma SavedStep(s: System, dev: Dev, msg: Msg, at: Time)
    requires CanDeliver(s, dev, msg)
    ensures Enabled(Upserted(s, msg, at), Serve(SaveOp(0, at), Some(dev)))
    ensures Next(Upserted(s, msg, at), Serve(SaveOp(0, at), Some(dev))) == Saved(s, dev, msg, at)
  {
  }

  lemma {:induction false} DeliveredStep(s: System, dev: Dev, msg: Msg, at: Time)
    requires CanDeliver(s, dev, msg)
    ensures var deliver := Local(dev, D.PushDelivered(Upserted(s, msg, at).server.handlers[0].results));
      Enabled(Saved(s, dev, msg, at), deliver) && Next(Saved(s, dev, msg, at), deliver) == Delivered(s, dev, msg, at)
  {
    var deliver := Local(dev, D.PushDelivered(Upserted(s, msg, at).server.handlers[0].results));
    var next := Next(Saved(s, dev, msg, at), deliver);
    assert next.sent == s.sent && next.registry == s.registry;
    assert next.nodes == Delivered(s, dev, msg, at).nodes;
  }

  lemma ReachDelivered(mode: Mode, s: System, dev: Dev, msg: Msg, at: Time)
    requires Reached(mode, s) && CanDeliver(s, dev, msg)
    ensures Reached(mode, Delivered(s, dev, msg, at))
  {
    ReachUpserted(mode, s, dev, msg, at);
    SavedStep(s, dev, msg, at);
    ReachedNext(mode, Upserted(s, msg, at), Serve(SaveOp(0, at), Some(dev)));
    DeliveredStep(s, dev, msg, at);
    var results := Upserted(s, msg, at).server.handlers[0].results;
    ReachedNext(mode, Saved(s, dev, msg, at), Local(dev, D.PushDelivered(results)));
  }

  // ---------------------------------------------------------------- the common beginning

  const CONFIG := D.Config(1, 1)

  /** A record with id 1, as the REST interface creates it, and as the devices see it. */
  const FIRST := Record(1, 0, Text, NO_PAYLOAD, 1, 1, false)

  function Own(version: int, base: int, deleted: bool, at: Time): RecordDTO {
    RecordDTO(1, Text, NO_PAYLOAD, base, version, at, deleted)
  }

  const SECOND := RecordDTO(2, Text, NO_PAYLOAD, 0, 0, 0, false)

  const MESSAGE := Msg(0, 7, [SECOND])

  function LogOfFirst(): seq<Write> {
    [Write.Upserted(FIRST, 0)]
  }

  /** The server has one record, and device 0 has pulled it. */
  ghost function Begun(): System {
    System(Server(Repo(map[1 := FIRST], 1, LogOfFirst()), map[], map[]),
           map[0 := Node(D.Device(D.LocalState(map[1 := Clean(Own(1, 0, false, 1))], 1, []), D.Idle, CONFIG), 0, None)],
           map[1 := 0], map[], {}, {})
  }

  const PULL_FIRST := [Job(Own(1, 0, false, 1), Stamp(0, 0))]

  lemma FirstPull(r: Repo)
    requires r == Repo(map[1 := FIRST], 1, LogOfFirst())
    ensures IsListing(r, 0, 0, D.IncomingOf(PULL_FIRST))
    ensures MergeAll(map[], PULL_FIRST) == map[1 := Clean(Own(1, 0, false, 1))]
    ensures D.PulledCursor(0, PULL_FIRST) == 1 && CopyIds(map[], PULL_FIRST) == {}
  {
    assert D.IncomingOf(PULL_FIRST)[0] == Own(1, 0, false, 1);
    assert Changed(r, 0, 0, 1);
    assert PULL_FIRST[..0] == [];
  }

  ghost function Start(): System {
    System(EMPTY_SERVER, map[0 := Node(D.Device(D.EMPTY_STORE, D.Idle, CONFIG), 0, None)], map[], map[], {}, {})
  }

  ghost function Created(): System {
    Start().(server := Server(Repo(map[1 := FIRST], 1, LogOfFirst()), map[], map[]), registry := map[1 := 0])
  }

  lemma CreatedIsReachable(mode: Mode)
    ensures Reached(mode, Created())
  {
    assert LeadsTo(mode, Start(), [], Start());
    var create := Serve(WriteOp(FIRST, 0, 1), None);
    assert Enabled(Start(), create);
    assert Next(Start(), create) == Created();
    ReachedNext(mode, Start(), create);
  }

  lemma BegunIsReachable(mode: Mode)
    ensures Reached(mode, Begun())
  {
    CreatedIsReachable(mode);
    BegunStep();
    ReachPull(mode, Created(), 0, PULL_FIRST, []);
  }

  lemma BegunStep()
    ensures CanPull(Created(), 0, PULL_FIRST, [])
    ensures Pulled(Created(), 0, PULL_FIRST, []) == Begun()
  {
    FirstPull(Created().server.repo);
    assert Register(Created().registry, {}, 0) == Created().registry;
  }

  // ---------------------------------------------------------------- a copy that stays stale

  /** The only device, with its store and phase; sent: when the key of its one message was made, if it was. */
  ghost function World(
    repo: Repo, store: D.LocalState, phase: D.Phase, registry: map<Id, Owner>, sent: Option<nat>): System {
    System(Server(repo, map[], map[]), map[0 := Node(D.Device(store, phase, CONFIG), 0, None)], registry,
           if sent.Some? then map[7 := sent.value] else map[], Messages(sent), {})
  }

  ghost function Messages(sent: Option<nat>): set<Msg> {
    if sent.Some? then {MESSAGE} else {}
  }

  /** A step of the device that takes no key, makes no id and sends nothing new. */
  lemma SilentStep(repo: Repo, store: D.LocalState, phase: D.Phase, registry: map<Id, Owner>, sent: Option<nat>,
                   e: D.Event, store': D.LocalState, phase': D.Phase)
    requires e.Failed? || e.Started? || (e.Advanced? && phase.Replaying?) || (e.Edited? && e.edit.Remove?)
    requires var d := D.Device(store, phase, CONFIG);
      D.Enabled(d, e) && D.Next(d, e) == D.Device(store', phase', CONFIG)
    requires Sends(Node(D.Device(store', phase', CONFIG), 0, None)) <= Messages(sent)
    ensures Enabled(World(repo, store, phase, registry, sent), Local(0, e))
    ensures Next(World(repo, store, phase, registry, sent), Local(0, e)) == World(repo, store', phase', registry, sent)
  {
    var next := Next(World(repo, store, phase, registry, sent), Local(0, e));
    assert Register(registry, {}, 0) == registry;
    assert Messages(sent) + Sends(next.nodes[0]) == Messages(sent);
    assert next.nodes == World(repo, store', phase', registry, sent).nodes;
  }

  /** The step with which the device registers a batch and sends its message. */
  lemma SendingStep(repo: Repo, store: D.LocalState, phase: D.Phase, registry: map<Id, Owner>,
                    store': D.LocalState, phase': D.Phase)
    requires phase.Pushing? && D.Next(D.Device(store, phase, CONFIG), D.Advanced(7)) == D.Device(store', phase', CONFIG)
    requires Sends(Node(D.Device(store', phase', CONFIG), 0, None)) == {MESSAGE}
    ensures Enabled(World(repo, store, phase, registry, None), Local(0, D.Advanced(7)))
    ensures Next(World(repo, store, phase, registry, None), Local(0, D.Advanced(7))) ==
            World(repo, store', phase', registry, Some(|repo.log|))
  {
    var next := Next(World(repo, store, phase, registry, None), Local(0, D.Advanced(7)));
    assert Register(registry, {}, 0) == registry;
    assert {} + {MESSAGE} == {MESSAGE};
    assert next.nodes == World(repo, store', phase', registry, Some(|repo.log|)).nodes;
  }

  const TWO_IDS: map<Id, Owner> := map[1 := 0, 2 := 0]

  function SecondAt(at: Time): StoredRecord {
    StoredRecord(SECOND, true, at)
  }

  /** The device has pulled, and is about to push its new record. */
  ghost function ToPush(): System {
    World(Begun().server.repo, D.LocalState(map[1 := Clean(Own(1, 0, false, 1)), 2 := SecondAt(5)], 1, []),
          D.Pushing(0, [[SecondAt(5)]], false), TWO_IDS, None)
  }

  ghost function WithSecond(): System {
    World(Begun().server.repo, D.LocalState(map[1 := Clean(Own(1, 0, false, 1)), 2 := SecondAt(5)], 1, []), D.Idle,
          TWO_IDS, None)
  }

  lemma {:induction false} WithSecondStep()
    ensures Enabled(Begun(), Local(0, D.Edited(D.Create(2, Text, NO_PAYLOAD, 5))))
    ensures Next(Begun(), Local(0, D.Edited(D.Create(2, Text, NO_PAYLOAD, 5)))) == WithSecond()
  {
    assert Register(map[1 := 0], {2}, 0) == TWO_IDS;
    var next := Next(Begun(), Local(0, D.Edited(D.Create(2, Text, NO_PAYLOAD, 5))));
    assert next.nodes == WithSecond().nodes;
  }

  lemma {:induction false} ToPushStep()
    ensures CanPull(WithSecond(), 0, [], [SecondAt(5)])
    ensures Pulled(WithSecond(), 0, [], [SecondAt(5)]) == ToPush()
  {
    assert [SecondAt(5)][0].dto.id == 2;
    assert D.IncomingOf([]) == [];
    assert Register(TWO_IDS, {}, 0) == TWO_IDS;
    assert CopyIds(WithSecond().nodes[0].device.store.records, []) == {};
  }

  lemma ToPushIsReachable(mode: Mode)
    ensures Reached(mode, ToPush())
  {
    BegunIsReachable(mode);
    WithSecondStep();
    ReachedNext(mode, Begun(), Local(0, D.Edited(D.Create(2, Text, NO_PAYLOAD, 5))));
    ToPushStep();
    ReachPull(mode, WithSecond(), 0, [], [SecondAt(5)]);
  }

  const DELETED := Record(1, 0, Text, NO_PAYLOAD, 2, 6, true)

  /** The record that the device holds is deleted, and the device waits for the reply to its push. */
  ghost function Waiting(): System {
    World(Repo(map[1 := DELETED], 2, LogOfFirst() + [Tombstoned(DELETED)]),
          D.LocalState(map[1 := Clean(Own(1, 0, false, 1)), 2 := SecondAt(5)], 1, [PendingBatch(7, [2])]),
          D.PushWait(0, 7, [SecondAt(5)], [], false), TWO_IDS, Some(1))
  }

  /** The batch is registered and sent. */
  ghost function Sent(): System {
    Waiting().(server := ToPush().server)
  }

  lemma SentStep()
    ensures Enabled(ToPush(), Local(0, D.Advanced(7)))
    ensures Next(ToPush(), Local(0, D.Advanced(7))) == Sent()
  {
    assert D.IdsOf([SecondAt(5)]) == [2] && D.DtosOf([SecondAt(5)]) == [SECOND];
    assert [[SecondAt(5)]][1..] == [];
    assert [] + [PendingBatch(7, [2])] == [PendingBatch(7, [2])];
    var before, after := ToPush().nodes[0].device, Sent().nodes[0].device;
    SendingStep(Begun().server.repo, before.store, before.phase, TWO_IDS, after.store, after.phase);
  }

  lemma RemoveStep()
    ensures Enabled(Sent(), Serve(RemoveOp(1, 0, 6), None))
    ensures Next(Sent(), Serve(RemoveOp(1, 0, 6), None)) == Waiting()
  {
    assert FIRST.(deleted := true, version := 2, updatedAt := 6) == DELETED;
    assert map[1 := FIRST][1 := DELETED] == map[1 := DELETED];
    assert Next(Sent(), Serve(RemoveOp(1, 0, 6), None)).server.repo == Waiting().server.repo;
  }

  lemma SentIsReachable(mode: Mode)
    ensures Reached(mode, Sent())
  {
    ToPushIsReachable(mode);
    SentStep();
    ReachedNext(mode, ToPush(), Local(0, D.Advanced(7)));
  }

  lemma WaitingIsReachable()
    ensures Reached(Unfailing, Waiting())
  {
    SentIsReachable(Unfailing);
    RemoveStep();
    ReachedNext(Unfailing, Sent(), Serve(RemoveOp(1, 0, 6), None));
  }

  /** The record was deleted at the server, the store has it, and its cursor has passed the deletion. */
  ghost predicate IsStale(repo: Repo, owner: Owner, store: D.LocalState, id: Id) {
    && Owns(repo, owner, id) && repo.records[id].deleted
    && id in store.records && !store.records[id].dto.isDeleted
    && !Changed(repo, owner, store.cursor, id)
  }

  /**
   * A state that a run without a failed call reaches: the device is at rest with nothing dirty and nothing
   * pending, it holds a record that its owner deleted elsewhere, and no pull will list the deletion.
   */
  lemma StaleCopyIsReachable()
    ensures exists s: System, dev: Dev, id: Id ::
              && Reached(Unfailing, s) && dev in s.nodes
              && var node := s.nodes[dev];
              && node.device.phase.Idle? && node.device.store.pending == []
              && S.NothingIsDirty(node.device.store.records)
              && IsStale(s.server.repo, node.owner, node.device.store, id)
  {
    WaitingIsReachable();
    StaleStep();
    ReachDelivered(Unfailing, Waiting(), 0, MESSAGE, 8);
    var s := Delivered(Waiting(), 0, MESSAGE, 8);
    AtRestStep(s, false);
    ReachedNext(Unfailing, s, Local(0, D.Advanced(0)));
    var end := Next(s, Local(0, D.Advanced(0)));
    StoreIsStale();
    assert IsStale(end.server.repo, end.nodes[0].owner, end.nodes[0].device.store, 1);
  }

  /** The server and the store after the push. */
  ghost function StaleServer(): Repo {
    UpsertDTO(Waiting().server.repo, 0, SECOND, 8).repo
  }

  ghost function StaleStore(): D.LocalState {
    var second := Record(2, 0, Text, NO_PAYLOAD, 3, 8, false);
    D.LocalState(map[1 := Clean(Own(1, 0, false, 1)), 2 := Clean(RecordToDTO(second))], 3, [])
  }

  lemma StoreIsStale()
    ensures IsStale(StaleServer(), 0, StaleStore(), 1) && S.NothingIsDirty(StaleStore().records)
  {
  }

  lemma StaleStep()
    ensures CanDeliver(Waiting(), 0, MESSAGE)
    ensures var s := Delivered(Waiting(), 0, MESSAGE, 8);
      && s.nodes.Keys == {0} && s.nodes[0].owner == 0 && s.server.repo == StaleServer()
      && s.nodes[0].device == D.Device(StaleStore(), D.Pushing(0, [], false), CONFIG)
  {
    assert D.DtosOf([SecondAt(5)]) == [SECOND];
    var u := UpsertDTO(Waiting().server.repo, 0, SECOND, 8);
    assert !u.conflict && u.record == Record(2, 0, Text, NO_PAYLOAD, 3, 8, false);
    OneResult(ResultOf(SECOND, u), Waiting().nodes[0].device.store);
    D.WithoutOnly(PendingBatch(7, [2]));
    assert Delivered(Waiting(), 0, MESSAGE, 8).nodes[0].device.store.records == StaleStore().records;
  }

  /** With all chunks answered the Sync ends: there was no conflict, or it was the last iteration. */
  lemma {:induction false} AtRestStep(s: System, conflicts: bool)
    requires 0 in s.nodes && s.nodes[0].device.phase == D.Pushing(0, [], conflicts) && 0 !in s.keys
    requires s.nodes[0].device.config == CONFIG
    ensures Enabled(s, Local(0, D.Advanced(0)))
    ensures var end := Next(s, Local(0, D.Advanced(0)));
      && 0 in end.nodes && end.nodes[0].owner == s.nodes[0].owner && end.server == s.server
      && end.nodes[0].device == s.nodes[0].device.(phase := D.Idle) && end.nodes[0].mail == s.nodes[0].mail
  {
  }

  lemma OneConflict(r: PushResult, store: D.LocalState)
    requires r.status == Conflict
    ensures D.PutApplied(store.records, [r]) == store.records
    ensures D.AppliedCursor(store.cursor, [r]) == store.cursor
    ensures D.HasConflict([r])
  {
    assert r in [r];
  }

  lemma OneResult(r: PushResult, store: D.LocalState)
    requires r.status == Applied
    ensures D.PutApplied(store.records, [r]) == Put(store.records, Clean(r.serverRecord))
    ensures D.AppliedCursor(store.cursor, [r]) == D.Max(store.cursor, r.serverRecord.version)
    ensures !D.HasConflict([r])
  {
  }

  // ---------------------------------------------------------------- an edit that stays stuck

  const GONE := Record(1, 0, Text, NO_PAYLOAD, 2, 2, true)

  function RepoWithGone(): Repo {
    Repo(map[1 := GONE], 2, LogOfFirst() + [Tombstoned(GONE)])
  }

  /** The device's own deletion, based on the given version. */
  function Mine(base: int, at: Time): StoredRecord {
    StoredRecord(Own(1, base, true, 1), true, at)
  }

  /** The record was deleted at the server and on the device, where another one was created too. */
  ghost function BothDeleted(): System {
    World(RepoWithGone(), D.LocalState(map[1 := Mine(1, 10), 2 := SecondAt(10)], 1, []), D.Idle, TWO_IDS, None)
  }

  /** The record was deleted at the server. */
  ghost function DeletedThere(): System {
    World(RepoWithGone(), D.LocalState(map[1 := Clean(Own(1, 0, false, 1))], 1, []), D.Idle, map[1 := 0], None)
  }

  lemma {:induction false} DeletedThereStep()
    ensures Enabled(Begun(), Serve(RemoveOp(1, 0, 2), None))
    ensures Next(Begun(), Serve(RemoveOp(1, 0, 2), None)) == DeletedThere()
  {
    assert FIRST.(deleted := true, version := 2, updatedAt := 2) == GONE;
    assert map[1 := FIRST][1 := GONE] == map[1 := GONE];
    assert Next(Begun(), Serve(RemoveOp(1, 0, 2), None)).server.repo == RepoWithGone();
  }

  /** And on the device. */
  ghost function DeletedHere(): System {
    World(RepoWithGone(), D.LocalState(map[1 := Mine(1, 10)], 1, []), D.Idle, map[1 := 0], None)
  }

  lemma {:induction false} DeletedHereStep()
    ensures Enabled(DeletedThere(), Local(0, D.Edited(D.Remove(1, 10))))
    ensures Next(DeletedThere(), Local(0, D.Edited(D.Remove(1, 10)))) == DeletedHere()
  {
    var before, after := DeletedThere().nodes[0].device, DeletedHere().nodes[0].device;
    assert D.ApplyEdit(before.store.records, D.Remove(1, 10)) == after.store.records;
    SilentStep(RepoWithGone(), before.store, before.phase, map[1 := 0], None, D.Edited(D.Remove(1, 10)),
               after.store, after.phase);
  }

  lemma {:induction false} BothDeletedStep()
    ensures Enabled(DeletedHere(), Local(0, D.Edited(D.Create(2, Text, NO_PAYLOAD, 10))))
    ensures Next(DeletedHere(), Local(0, D.Edited(D.Create(2, Text, NO_PAYLOAD, 10)))) == BothDeleted()
  {
    assert Register(map[1 := 0], {2}, 0) == TWO_IDS;
    var next := Next(DeletedHere(), Local(0, D.Edited(D.Create(2, Text, NO_PAYLOAD, 10))));
    assert next.nodes == BothDeleted().nodes;
  }

  lemma BothDeletedIsReachable()
    ensures Reached(Any, BothDeleted())
  {
    BegunIsReachable(Any);
    DeletedThereStep();
    ReachedNext(Any, Begun(), Serve(RemoveOp(1, 0, 2), None));
    DeletedHereStep();
    ReachedNext(Any, DeletedThere(), Local(0, D.Edited(D.Remove(1, 10))));
    BothDeletedStep();
    ReachedNext(Any, DeletedHere(), Local(0, D.Edited(D.Create(2, Text, NO_PAYLOAD, 10))));
  }

  const PULL_GONE := [Job(Own(2, 0, true, 2), Stamp(0, 0))]

  /** The pull lets the local deletion win, and bases it on the server's version. */
  ghost function LocalWon(): System {
    World(RepoWithGone(), D.LocalState(map[1 := Mine(2, 10), 2 := SecondAt(10)], 2, []),
          D.Pushing(0, [[SecondAt(10)], [Mine(2, 10)]], false), TWO_IDS, None)
  }

  lemma SecondPull()
    ensures var records: Records := map[1 := Mine(1, 10), 2 := SecondAt(10)];
      && IsListing(RepoWithGone(), 0, 1, D.IncomingOf(PULL_GONE))
      && MergeAll(records, PULL_GONE) == map[1 := Mine(2, 10), 2 := SecondAt(10)]
      && D.PulledCursor(1, PULL_GONE) == 2 && CopyIds(records, PULL_GONE) == {}
  {
  }

  lemma LocalWonStep()
    ensures CanPull(BothDeleted(), 0, PULL_GONE, [SecondAt(10), Mine(2, 10)])
    ensures Pulled(BothDeleted(), 0, PULL_GONE, [SecondAt(10), Mine(2, 10)]) == LocalWon()
  {
    var dirty := [SecondAt(10), Mine(2, 10)];
    SecondPull();
    assert dirty[0].dto.id == 2 && dirty[1].dto.id == 1;
    assert Register(TWO_IDS, {}, 0) == TWO_IDS;
    assert dirty[..1] == [SecondAt(10)] && dirty[1..] == [Mine(2, 10)];
    assert ChunksOf(dirty, 1) == [[SecondAt(10)], [Mine(2, 10)]];
  }

  /** The call for the first chunk failed, and the user deleted the record once more. */
  ghost function EditedAgain(): System {
    World(RepoWithGone(), D.LocalState(map[1 := Mine(1, 20), 2 := SecondAt(10)], 2, [PendingBatch(7, [2])]),
          D.Idle, TWO_IDS, Some(2))
  }

  /** The call for the first chunk failed. */
  ghost function CallFailed(): System {
    World(RepoWithGone(), D.LocalState(map[1 := Mine(2, 10), 2 := SecondAt(10)], 2, [PendingBatch(7, [2])]),
          D.Idle, TWO_IDS, Some(2))
  }

  /** The device waits for the reply to the first chunk. */
  ghost function FirstChunk(): System {
    World(RepoWithGone(), D.LocalState(map[1 := Mine(2, 10), 2 := SecondAt(10)], 2, [PendingBatch(7, [2])]),
          D.PushWait(0, 7, [SecondAt(10)], [[Mine(2, 10)]], false), TWO_IDS, Some(2))
  }

  lemma FirstChunkStep()
    ensures Enabled(LocalWon(), Local(0, D.Advanced(7)))
    ensures Next(LocalWon(), Local(0, D.Advanced(7))) == FirstChunk()
  {
    assert D.IdsOf([SecondAt(10)]) == [2] && D.DtosOf([SecondAt(10)]) == [SECOND];
    assert [] + [PendingBatch(7, [2])] == [PendingBatch(7, [2])];
    assert [[SecondAt(10)], [Mine(2, 10)]][1..] == [[Mine(2, 10)]];
    var before, after := LocalWon().nodes[0].device, FirstChunk().nodes[0].device;
    SendingStep(RepoWithGone(), before.store, before.phase, TWO_IDS, after.store, after.phase);
  }

  lemma {:induction false} CallFailedStep()
    ensures Enabled(FirstChunk(), Local(0, D.Failed))
    ensures Next(FirstChunk(), Local(0, D.Failed)) == CallFailed()
  {
    var before, after := FirstChunk().nodes[0].device, CallFailed().nodes[0].device;
    SilentStep(RepoWithGone(), before.store, before.phase, TWO_IDS, Some(2), D.Failed, after.store, after.phase);
  }

  lemma EditedAgainStep()
    ensures Enabled(CallFailed(), Local(0, D.Edited(D.Remove(1, 20))))
    ensures Next(CallFailed(), Local(0, D.Edited(D.Remove(1, 20)))) == EditedAgain()
  {
    assert map[1 := Mine(2, 10), 2 := SecondAt(10)][1 := Mine(1, 20)] == map[1 := Mine(1, 20), 2 := SecondAt(10)];
    var before, after := CallFailed().nodes[0].device, EditedAgain().nodes[0].device;
    SilentStep(RepoWithGone(), before.store, before.phase, TWO_IDS, Some(2), D.Edited(D.Remove(1, 20)),
               after.store, after.phase);
  }

  lemma EditedAgainIsReachable()
    ensures Reached(Any, EditedAgain())
  {
    BothDeletedIsReachable();
    LocalWonStep();
    ReachPull(Any, BothDeleted(), 0, PULL_GONE, [SecondAt(10), Mine(2, 10)]);
    FirstChunkStep();
    ReachedNext(Any, LocalWon(), Local(0, D.Advanced(7)));
    CallFailedStep();
    ReachedNext(Any, FirstChunk(), Local(0, D.Failed));
    EditedAgainStep();
    ReachedNext(Any, CallFailed(), Local(0, D.Edited(D.Remove(1, 20))));
  }

  /** The next Sync replays the batch. */
  ghost function Replaying(): System {
    World(RepoWithGone(), D.LocalState(map[1 := Mine(1, 20), 2 := SecondAt(10)], 2, [PendingBatch(7, [2])]),
          D.ReplayWait(7, [SECOND], []), TWO_IDS, Some(2))
  }

  lemma ReplayingStep()
    ensures var s := InPhase(EditedAgain(), 0, D.Replaying([PendingBatch(7, [2])]), None);
      Enabled(s, Local(0, D.Advanced(0))) && Next(s, Local(0, D.Advanced(0))) == Replaying()
  {
    assert [2][..0] == [];
    assert D.RequestOf(map[1 := Mine(1, 20), 2 := SecondAt(10)], [2]) == [SECOND];
    assert [PendingBatch(7, [2])][1..] == [];
    var after := Replaying().nodes[0].device;
    SilentStep(RepoWithGone(), after.store, D.Replaying([PendingBatch(7, [2])]), TWO_IDS, Some(2), D.Advanced(0),
               after.store, after.phase);
  }

  lemma ReplayingIsReachable()
    ensures Reached(Any, Replaying())
  {
    EditedAgainIsReachable();
    StartedStep(EditedAgain(), 0);
    ReachedNext(Any, EditedAgain(), Local(0, D.Started));
    ReplayingStep();
    ReachedNext(Any, InPhase(EditedAgain(), 0, D.Replaying([PendingBatch(7, [2])]), None), Local(0, D.Advanced(0)));
  }

  /** The device and the server's records after the replay. */
  ghost function StuckSolo(at: Time): S.Solo {
    var second := Record(2, 0, Text, NO_PAYLOAD, 3, 30, false);
    S.Solo(Repo(map[1 := GONE, 2 := second], 3, RepoWithGone().log + [Write.Upserted(second, 0)]),
           D.Device(D.LocalState(map[1 := Mine(1, at), 2 := Clean(RecordToDTO(second))], 3, []), D.Idle, CONFIG))
  }

  lemma StuckSoloIsStuck(at: Time)
    ensures S.StuckForGood(StuckSolo(at), 0, 1)
  {
  }

  lemma StuckStep()
    ensures CanDeliver(Replaying(), 0, MESSAGE)
    ensures var s := Delivered(Replaying(), 0, MESSAGE, 30);
      && s.nodes.Keys == {0} && s.nodes[0].owner == 0
      && s.nodes[0].device == StuckSolo(20).device.(phase := D.Replaying([])) && s.server.repo == StuckSolo(20).repo
  {
    var u := UpsertDTO(Replaying().server.repo, 0, SECOND, 30);
    assert !u.conflict && u.record == Record(2, 0, Text, NO_PAYLOAD, 3, 30, false);
    OneResult(ResultOf(SECOND, u), Replaying().nodes[0].device.store);
    D.WithoutOnly(PendingBatch(7, [2]));
    var s := Delivered(Replaying(), 0, MESSAGE, 30);
    assert s.nodes[0].device.store.records == StuckSolo(20).device.store.records;
    assert s.server.repo.records == StuckSolo(20).repo.records;
  }

  /** The Sync goes on to its pull, which fails. */
  lemma RestStep(s: System)
    requires 0 in s.nodes && s.nodes[0].device.phase == D.Replaying([]) && s.nodes[0].device.config == CONFIG
    ensures Enabled(s, Local(0, D.Advanced(0)))
    ensures var s1 := Next(s, Local(0, D.Advanced(0)));
      && Enabled(s1, Local(0, D.Failed))
      && var end := Next(s1, Local(0, D.Failed));
      && 0 in end.nodes && end.nodes[0].owner == s.nodes[0].owner
      && end.nodes[0].device == s.nodes[0].device.(phase := D.Idle) && end.server == s.server
  {
  }

  /** The device is at rest with nothing pending, and the record is stuck for good. */
  ghost predicate IsStuckAtRest(s: System, dev: Dev, id: Id) {
    && dev in s.nodes && s.nodes[dev].device.phase.Idle? && s.nodes[dev].device.store.pending == []
    && S.StuckForGood(L.SoloOf(s, dev), s.nodes[dev].owner, id)
  }

  /**
   * A state that some run reaches: the device is at rest with nothing pending, and a record that the user
   * has edited is stuck for good. No further Sync and no further edit on this device brings it to the
   * server, as Lone.StuckStaysStuck says, and no error-free Sync of it converges (Lone.ConvergesExactlyWhen).
   */
  lemma StuckIsReachable()
    ensures exists s: System, dev: Dev, id: Id :: Reachable(s) && IsStuckAtRest(s, dev, id)
  {
    ReplayingIsReachable();
    StuckStep();
    ReachDelivered(Any, Replaying(), 0, MESSAGE, 30);
    var s := Delivered(Replaying(), 0, MESSAGE, 30);
    RestStep(s);
    ReachedNext(Any, s, Local(0, D.Advanced(0)));
    ReachedNext(Any, Next(s, Local(0, D.Advanced(0))), Local(0, D.Failed));
    var end := Next(Next(s, Local(0, D.Advanced(0))), Local(0, D.Failed));
    StuckSoloIsStuck(20);
    ReachedIsReachable(Any, end);
    assert L.SoloOf(end, 0) == StuckSolo(20);
    assert IsStuckAtRest(end, 0, 1);
  }

  // ---------------------------------------------------------------- stuck without a failed call

  function StoreWithBoth(pending: seq<PendingBatch>): D.LocalState {
    D.LocalState(map[1 := Mine(1, 10), 2 := SecondAt(10)], 1, pending)
  }

  /** The record was deleted on the device. */
  ghost function EditedHere(): System {
    World(Begun().server.repo, D.LocalState(map[1 := Mine(1, 10)], 1, []), D.Idle, map[1 := 0], None)
  }

  lemma {:induction false} EditedHereStep()
    ensures Enabled(Begun(), Local(0, D.Edited(D.Remove(1, 10))))
    ensures Next(Begun(), Local(0, D.Edited(D.Remove(1, 10)))) == EditedHere()
  {
    var before, after := Begun().nodes[0].device, EditedHere().nodes[0].device;
    assert D.ApplyEdit(before.store.records, D.Remove(1, 10)) == after.store.records;
    SilentStep(Begun().server.repo, before.store, before.phase, map[1 := 0], None, D.Edited(D.Remove(1, 10)),
               after.store, after.phase);
  }

  /** And another one was created. */
  ghost function EditedBoth(): System {
    World(Begun().server.repo, StoreWithBoth([]), D.Idle, TWO_IDS, None)
  }

  lemma {:induction false} EditedBothStep()
    ensures Enabled(EditedHere(), Local(0, D.Edited(D.Create(2, Text, NO_PAYLOAD, 10))))
    ensures Next(EditedHere(), Local(0, D.Edited(D.Create(2, Text, NO_PAYLOAD, 10)))) == EditedBoth()
  {
    assert Register(map[1 := 0], {2}, 0) == TWO_IDS;
    var next := Next(EditedHere(), Local(0, D.Edited(D.Create(2, Text, NO_PAYLOAD, 10))));
    assert next.nodes == EditedBoth().nodes;
  }

  /** The pull brought nothing, and both are to be pushed. */
  ghost function BothToPush(repo: Repo): System {
    World(repo, StoreWithBoth([]), D.Pushing(0, [[SecondAt(10)], [Mine(1, 10)]], false), TWO_IDS, None)
  }

  lemma {:induction false} BothToPushStep()
    ensures CanPull(EditedBoth(), 0, [], [SecondAt(10), Mine(1, 10)])
    ensures Pulled(EditedBoth(), 0, [], [SecondAt(10), Mine(1, 10)]) == BothToPush(Begun().server.repo)
  {
    var dirty := [SecondAt(10), Mine(1, 10)];
    assert dirty[0].dto.id == 2 && dirty[1].dto.id == 1;
    assert D.IncomingOf([]) == [];
    assert Register(TWO_IDS, {}, 0) == TWO_IDS;
    assert CopyIds(EditedBoth().nodes[0].device.store.records, []) == {};
    assert dirty[..1] == [SecondAt(10)] && dirty[1..] == [Mine(1, 10)];
    assert ChunksOf(dirty, 1) == [[SecondAt(10)], [Mine(1, 10)]];
  }

  lemma BothToPushIsReachable()
    ensures Reached(Unfailing, BothToPush(Begun().server.repo))
  {
    BegunIsReachable(Unfailing);
    EditedHereStep();
    ReachedNext(Unfailing, Begun(), Local(0, D.Edited(D.Remove(1, 10))));
    EditedBothStep();
    ReachedNext(Unfailing, EditedHere(), Local(0, D.Edited(D.Create(2, Text, NO_PAYLOAD, 10))));
    BothToPushStep();
    ReachPull(Unfailing, EditedBoth(), 0, [], [SecondAt(10), Mine(1, 10)]);
  }

  /** Between the pull and the push the record is deleted at the server as well. */
  lemma {:induction false} DeletedMeanwhileStep()
    ensures Enabled(BothToPush(Begun().server.repo), Serve(RemoveOp(1, 0, 2), None))
    ensures Next(BothToPush(Begun().server.repo), Serve(RemoveOp(1, 0, 2), None)) == BothToPush(RepoWithGone())
  {
    assert FIRST.(deleted := true, version := 2, updatedAt := 2) == GONE;
    assert map[1 := FIRST][1 := GONE] == map[1 := GONE];
    assert Next(BothToPush(Begun().server.repo), Serve(RemoveOp(1, 0, 2), None)).server.repo == RepoWithGone();
  }

  /** The first chunk is sent. */
  ghost function FirstOfTwo(): System {
    World(RepoWithGone(), StoreWithBoth([PendingBatch(7, [2])]),
          D.PushWait(0, 7, [SecondAt(10)], [[Mine(1, 10)]], false), TWO_IDS, Some(2))
  }

  lemma {:induction false} FirstOfTwoStep()
    ensures Enabled(BothToPush(RepoWithGone()), Local(0, D.Advanced(7)))
    ensures Next(BothToPush(RepoWithGone()), Local(0, D.Advanced(7))) == FirstOfTwo()
  {
    assert D.IdsOf([SecondAt(10)]) == [2] && D.DtosOf([SecondAt(10)]) == [SECOND];
    assert [] + [PendingBatch(7, [2])] == [PendingBatch(7, [2])];
    assert [[SecondAt(10)], [Mine(1, 10)]][1..] == [[Mine(1, 10)]];
    var before, after := BothToPush(RepoWithGone()).nodes[0].device, FirstOfTwo().nodes[0].device;
    SendingStep(RepoWithGone(), before.store, before.phase, TWO_IDS, after.store, after.phase);
  }

  lemma FirstOfTwoIsReachable()
    ensures Reached(Unfailing, FirstOfTwo())
  {
    BothToPushIsReachable();
    DeletedMeanwhileStep();
    ReachedNext(Unfailing, BothToPush(Begun().server.repo), Serve(RemoveOp(1, 0, 2), None));
    FirstOfTwoStep();
    ReachedNext(Unfailing, BothToPush(RepoWithGone()), Local(0, D.Advanced(7)));
  }

  /** What is left of a system when only one device, the records and the keys matter. */
  ghost predicate Looks(s: System, device: D.Device, repo: Repo, keys: set<Key>) {
    && s.nodes.Keys == {0} && s.nodes[0].owner == 0 && s.nodes[0].device == device
    && s.server.repo == repo && s.server.handlers == map[] && s.keys.Keys == keys
    && forall k :: k in s.server.cache ==> k.1 in keys
  }

  /** The first chunk is accepted, and the cursor passes the deletion. */
  lemma {:induction false} FirstAccepted()
    ensures CanDeliver(FirstOfTwo(), 0, MESSAGE)
    ensures Looks(Delivered(FirstOfTwo(), 0, MESSAGE, 30),
                  StuckSolo(10).device.(phase := D.Pushing(0, [[Mine(1, 10)]], false)), StuckSolo(10).repo, {7})
  {
    var u := UpsertDTO(RepoWithGone(), 0, SECOND, 30);
    assert !u.conflict && u.record == Record(2, 0, Text, NO_PAYLOAD, 3, 30, false);
    assert D.DtosOf([SecondAt(10)]) == [SECOND];
    OneResult(ResultOf(SECOND, u), FirstOfTwo().nodes[0].device.store);
    D.WithoutOnly(PendingBatch(7, [2]));
    var s := Delivered(FirstOfTwo(), 0, MESSAGE, 30);
    assert s.nodes[0].device.store.records == StuckSolo(10).device.store.records;
    assert s.server.repo.records == StuckSolo(10).repo.records;
  }

  const DELETION := Msg(0, 8, [Own(1, 1, true, 1)])

  ghost function SecondWaits(): D.Device {
    var d := StuckSolo(10).device;
    D.Device(d.store.(pending := [PendingBatch(8, [1])]), D.PushWait(0, 8, [Mine(1, 10)], [], false), CONFIG)
  }

  lemma {:induction false} SecondSent(s: System)
    requires Looks(s, StuckSolo(10).device.(phase := D.Pushing(0, [[Mine(1, 10)]], false)), StuckSolo(10).repo, {7})
    ensures Enabled(s, Local(0, D.Advanced(8)))
    ensures var next := Next(s, Local(0, D.Advanced(8)));
      Looks(next, SecondWaits(), StuckSolo(10).repo, {7, 8}) && next.server == s.server && CanDeliver(next, 0, DELETION)
  {
    assert D.IdsOf([Mine(1, 10)]) == [1] && D.DtosOf([Mine(1, 10)]) == [Own(1, 1, true, 1)];
    assert [[Mine(1, 10)]][1..] == [];
    assert [] + [PendingBatch(8, [1])] == [PendingBatch(8, [1])];
  }

  /** The second chunk is refused. */
  lemma {:induction false} SecondRefused(s: System)
    requires Looks(s, SecondWaits(), StuckSolo(10).repo, {7, 8}) && CanDeliver(s, 0, DELETION)
    ensures Looks(Delivered(s, 0, DELETION, 31), StuckSolo(10).device.(phase := D.Pushing(0, [], true)),
                  StuckSolo(10).repo, {7, 8})
  {
    var u := UpsertDTO(StuckSolo(10).repo, 0, Own(1, 1, true, 1), 31);
    assert u.conflict;
    OneConflict(ResultOf(Own(1, 1, true, 1), u), SecondWaits().store);
    D.WithoutOnly(PendingBatch(8, [1]));
  }

  lemma {:induction false} ReachSecond() returns (s: System)
    ensures Reached(Unfailing, s) && Looks(s, SecondWaits(), StuckSolo(10).repo, {7, 8}) && CanDeliver(s, 0, DELETION)
  {
    FirstOfTwoIsReachable();
    FirstAccepted();
    ReachDelivered(Unfailing, FirstOfTwo(), 0, MESSAGE, 30);
    var s1 := Delivered(FirstOfTwo(), 0, MESSAGE, 30);
    SecondSent(s1);
    ReachedNext(Unfailing, s1, Local(0, D.Advanced(8)));
    s := Next(s1, Local(0, D.Advanced(8)));
  }

  lemma {:induction false} EndsStuck(s: System)
    requires Looks(s, StuckSolo(10).device.(phase := D.Pushing(0, [], true)), StuckSolo(10).repo, {7, 8})
    ensures Enabled(s, Local(0, D.Advanced(0))) && IsStuckAtRest(Next(s, Local(0, D.Advanced(0))), 0, 1)
  {
    AtRestStep(s, true);
    StuckSoloIsStuck(10);
    assert L.SoloOf(Next(s, Local(0, D.Advanced(0))), 0) == StuckSolo(10);
  }

  /**
   * A state that a run reaches in which no call ever failed: a record that the device was pushing was
   * deleted elsewhere between the pull and the push, its own deletion was refused while another record of
   * the push was accepted, and it is stuck for good.
   */
  lemma {:induction false} StuckWithoutFailureIsReachable()
    ensures exists start, steps, dev, id ::
              && Initial(start) && IsRun(start, steps) && NoCallFails(steps)
              && IsStuckAtRest(Run(start, steps), dev, id)
  {
    var s2 := ReachSecond();
    SecondRefused(s2);
    ReachDelivered(Unfailing, s2, 0, DELETION, 31);
    var s3 := Delivered(s2, 0, DELETION, 31);
    EndsStuck(s3);
    ReachedNext(Unfailing, s3, Local(0, D.Advanced(0)));
    var end := Next(s3, Local(0, D.Advanced(0)));
    var start, steps :| LeadsTo(Unfailing, start, steps, end);
    assert IsStuckAtRest(Run(start, steps), 0, 1);
  }

  // ---------------------------------------------------------------- a quiet Sync that pushes

  lemma {:induction false} SentIsAccepted()
    ensures CanDeliver(Sent(), 0, MESSAGE)
    ensures var s := Delivered(Sent(), 0, MESSAGE, 8);
      && s.nodes.Keys == {0} && s.nodes[0].device.phase == D.Pushing(0, [], false)
      && s.nodes[0].device.config == CONFIG && 0 !in s.keys
      && KeyOf(MESSAGE) in s.server.cache
  {
    assert D.DtosOf([SecondAt(5)]) == [SECOND];
    var u := UpsertDTO(Sent().server.repo, 0, SECOND, 8);
    assert !u.conflict;
    OneResult(ResultOf(SECOND, u), Sent().nodes[0].device.store);
  }

  /** There is a quiet run of which the last step ends a Sync that has pushed something. */
  lemma {:induction false} QuietPushIsReachable()
    ensures exists start, steps ::
              && Initial(start) && Iterating(start) && IsRun(start, steps) && QuietRun(start, steps)
              && steps != [] && EndsPush(start, steps)
  {
    SentIsReachable(Quietly);
    SentIsAccepted();
    ReachDelivered(Quietly, Sent(), 0, MESSAGE, 8);
    var s := Delivered(Sent(), 0, MESSAGE, 8);
    AtRestStep(s, false);
    var start, steps :| LeadsTo(Quietly, start, steps, s);
    EndIsQuiet(start, steps, s);
    assert EndsPush(start, steps + [Local(0, D.Advanced(0))]);
  }

  lemma {:induction false} EndIsQuiet(start: System, steps: seq<Step>, s: System)
    requires LeadsTo(Quietly, start, steps, s) && s.server.cache != map[]
    requires Enabled(s, Local(0, D.Advanced(0))) && s.nodes[0].device.phase.Pushing?
    requires 0 in Next(s, Local(0, D.Advanced(0))).nodes
    requires Next(s, Local(0, D.Advanced(0))).nodes[0].device.phase.Idle?
    ensures var all := steps + [Local(0, D.Advanced(0))];
      IsRun(start, all) && QuietRun(start, all) && EndsPush(start, all)
  {
    RunAppend(start, steps, Local(0, D.Advanced(0)));
    assert (steps + [Local(0, D.Advanced(0))])[..|steps|] == steps;
  }

  /** In the last step a device comes to rest from a push, and some push has been answered. */
  ghost predicate EndsPush(start: System, steps: seq<Step>)
    requires IsRun(start, steps) && steps != []
  {
    var n := |steps| - 1;
    var before, after := Run(start, steps[..n]), Run(start, steps);
    && steps[n].Local? && steps[n].dev in before.nodes && steps[n].dev in after.nodes
    && before.nodes[steps[n].dev].device.phase.Pushing? && after.nodes[steps[n].dev].device.phase.Idle?
    && before.server.cache != map[]
  }
}
