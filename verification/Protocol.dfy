/**
 * The whole system: any number of devices of any number of owners, one server, and a network in which
 * replies are lost or late, and requests may be processed late or more than once, also at the same time.
 */
module Protocol {
  import opened Domain
  import opened Repository
  import opened Idempotency
  import opened SyncService
  import opened Merge
  import D = Device

  type Dev = nat

  /** A reply on its way to a device that waits for it. */
  datatype Mail = PullMail(dtos: seq<RecordDTO>) | PushMail(results: seq<PushResult>)

  datatype Node = Node(device: D.Device, owner: Owner, mail: Option<Mail>)

  /**
   * registry: every record id ever generated and who generated it; keys: every idempotency key ever
   * generated and how many writes the server had made by then; sent: every push request ever sent;
   * exported: every record ever listed by a device.
   */
  datatype System = System(
    server: Server, nodes: map<Dev, Node>, registry: map<Id, Owner>, keys: map<Key, nat>, sent: set<Msg>,
    exported: set<(Owner, RecordDTO)>)

  datatype Step =
    // a step of one device: an edit, a step of its Sync, the arrival of a reply or the failure of a call
    | Local(dev: Dev, e: D.Event)
    // the server answers the pull that the device waits for
    | ServePull(dev: Dev, dtos: seq<RecordDTO>)
    // a step of the server; when it answers a request, the answer may reach a device that waits for it
    | Serve(op: ServerOp, to: Option<Dev>)
    // a device lists its live records, for a later import
    | Export(dev: Dev)

  ghost predicate Initial(s: System) {
    && s.server == EMPTY_SERVER
    && s.registry == map[] && s.keys == map[] && s.sent == {} && s.exported == {}
    && (forall d :: d in s.nodes ==>
          s.nodes[d].device.store == D.EMPTY_STORE && s.nodes[d].device.phase == D.Idle && s.nodes[d].mail == None)
  }

  ghost predicate LocalEnabled(s: System, dev: Dev, e: D.Event)
    requires dev in s.nodes
  {
    var node := s.nodes[dev];
    && D.Enabled(node.device, e)
    && match e
       case Edited(edit) =>
         && (edit.Create? ==> edit.id !in s.registry)
         && (edit.Import? ==> forall dto :: dto in edit.dtos ==> (node.owner, dto) in s.exported)
       case Advanced(key) => node.device.phase.Pushing? ==> key !in s.keys
       case PullDelivered(jobs, _) =>
         && node.mail == Some(PullMail(D.IncomingOf(jobs)))
         && CopyIds(node.device.store.records, jobs) !! s.registry.Keys
       case PushDelivered(results) => node.mail == Some(PushMail(results))
       case _ => true
  }

  /**
   * Lookups are for requests that were sent at some time. Writes from outside are the REST interface's
   * creation of a record.
   */
  ghost predicate ServeEnabled(s: System, op: ServerOp, to: Option<Dev>) {
    && ServerEnabled(s.server, op)
    && (op.LookUpOp? ==> op.msg in s.sent)
    && (op.WriteOp? ==> op.base == 0 && op.rec.id !in s.registry)
    && (to.Some? ==>
          && to.value in s.nodes
          && Reply(s.server, op).Some? && Reply(s.server, op).value.0 in Sends(s.nodes[to.value]))
  }

  ghost predicate Enabled(s: System, step: Step) {
    match step
    case Local(dev, e) => dev in s.nodes && LocalEnabled(s, dev, e)
    case ServePull(dev, dtos) =>
      && dev in s.nodes && s.nodes[dev].device.phase.Pulling?
      && IsListing(s.server.repo, s.nodes[dev].owner, s.nodes[dev].device.store.cursor, dtos)
    case Serve(op, to) => ServeEnabled(s, op, to)
    case Export(dev) => dev in s.nodes
  }

  ghost function NewIds(d: D.Device, e: D.Event): set<Id> {
    match e
    case Edited(edit) => if edit.Create? then {edit.id} else {}
    case PullDelivered(jobs, _) => CopyIds(d.store.records, jobs)
    case _ => {}
  }

  ghost function Register(registry: map<Id, Owner>, ids: set<Id>, owner: Owner): map<Id, Owner> {
    registry + map id | id in ids :: owner
  }

  ghost function Sends(node: Node): set<Msg> {
    var out := D.Outstanding(node.device);
    if out.Some? then {Msg(node.owner, out.value.0, out.value.1)} else {}
  }

  ghost function LocalNode(node: Node, e: D.Event): Node
    requires D.Enabled(node.device, e)
  {
    Node(D.Next(node.device, e), node.owner,
         if e.PullDelivered? || e.PushDelivered? || e.Failed? then None else node.mail)
  }

  ghost function LocalNext(s: System, dev: Dev, e: D.Event): System
    requires dev in s.nodes && LocalEnabled(s, dev, e)
  {
    var node := s.nodes[dev];
    s.(nodes := s.nodes[dev := LocalNode(node, e)],
       registry := Register(s.registry, NewIds(node.device, e), node.owner),
       keys := if e.Advanced? && node.device.phase.Pushing? then s.keys[e.key := |s.server.repo.log|] else s.keys,
       sent := s.sent + Sends(LocalNode(node, e)))
  }

  ghost function Listed(node: Node): set<(Owner, RecordDTO)> {
    set id | id in node.device.store.records && !node.device.store.records[id].dto.isDeleted ::
      (node.owner, node.device.store.records[id].dto)
  }

  ghost function ServeNext(s: System, op: ServerOp, to: Option<Dev>): System
    requires ServeEnabled(s, op, to)
  {
    s.(server := ServerStep(s.server, op),
       nodes := if to.Some?
                then s.nodes[to.value := s.nodes[to.value].(mail := Some(PushMail(Reply(s.server, op).value.1)))]
                else s.nodes,
       registry := if op.WriteOp? then s.registry[op.rec.id := op.rec.owner] else s.registry)
  }

  ghost function Next(s: System, step: Step): System
    requires Enabled(s, step)
  {
    match step
    case Local(dev, e) => LocalNext(s, dev, e)
    case ServePull(dev, dtos) => s.(nodes := s.nodes[dev := s.nodes[dev].(mail := Some(PullMail(dtos)))])
    case Serve(op, to) => ServeNext(s, op, to)
    case Export(dev) => s.(exported := s.exported + Listed(s.nodes[dev]))
  }

  ghost predicate IsRun(s: System, steps: seq<Step>)
    decreases |steps|, 0
  {
    steps == [] || (IsRun(s, steps[..|steps| - 1]) && Enabled(Run(s, steps[..|steps| - 1]), steps[|steps| - 1]))
  }

  ghost function Run(s: System, steps: seq<Step>): System
    requires IsRun(s, steps)
    decreases |steps|, 1
  {
    if steps == [] then s else Next(Run(s, steps[..|steps| - 1]), steps[|steps| - 1])
  }

  lemma RunAppend(s: System, steps: seq<Step>, step: Step)
    requires IsRun(s, steps) && Enabled(Run(s, steps), step)
    ensures IsRun(s, steps + [step]) && Run(s, steps + [step]) == Next(Run(s, steps), step)
  {
  }

  lemma {:induction false} SplitRun(s: System, steps: seq<Step>, n: nat)
    requires IsRun(s, steps) && n <= |steps|
    ensures IsRun(s, steps[..n]) && IsRun(Run(s, steps[..n]), steps[n..])
    ensures Run(Run(s, steps[..n]), steps[n..]) == Run(s, steps)
  {
    if n == |steps| {
      assert steps[..n] == steps && steps[n..] == [];
    } else {
      var last := |steps| - 1;
      SplitRun(s, steps[..last], n);
      assert steps[..last][..n] == steps[..n];
      assert steps[n..][..|steps[n..]| - 1] == steps[..last][n..];
    }
  }

  /** Some run leads here. */
  ghost predicate Reachable(s: System) {
    exists start, steps :: Initial(start) && IsRun(start, steps) && Run(start, steps) == s
  }

  lemma ReachableNext(s: System, step: Step)
    requires Reachable(s) && Enabled(s, step)
    ensures Reachable(Next(s, step))
  {
    var start, steps :| Initial(start) && IsRun(start, steps) && Run(start, steps) == s;
    RunAppend(start, steps, step);
  }
}
