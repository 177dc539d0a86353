/**
 * No local edit is lost: what a user creates, changes or deletes on a device stays dirty there, possibly
 * as a conflict copy, until the server has, since that edit, written exactly that content under one of
 * the record's ids, or the user changed it again. It holds with calls failing anywhere, replies late or
 * lost, keys expired, requests handled repeatedly and at once and other devices writing, as long as edits
 * do not overlap a Sync and leave the records of an unacknowledged batch alone.
 */
module LocalEdits {
  import opened Domain
  import opened Repository
  import opened Idempotency
  import opened SyncService
  import opened Merge
  import opened Chunks
  import opened Protocol
  import D = Device

  // ---------------------------------------------------------------- what is owed

  function TouchedIds(edit: D.Edit): set<Id> {
    match edit
    case Create(id, _, _, _) => {id}
    case Update(id, _, _) => {id}
    case Remove(id, _) => {id}
    case Import(dtos, _) => set dto | dto in dtos :: dto.id
  }

  function PendingIds(d: D.Device): set<Id> {
    set b, id | b in d.store.pending && id in b.ids :: id
  }

  ghost predicate StepDisciplined(s: System, step: Step) {
    step.Local? && step.e.Edited? && step.dev in s.nodes ==>
      && s.nodes[step.dev].device.phase.Idle?
      && TouchedIds(step.e.edit) !! PendingIds(s.nodes[step.dev].device)
  }

  ghost predicate DisciplinedRun(s: System, steps: seq<Step>)
    requires IsRun(s, steps)
  {
    steps != [] ==>
      var n := |steps| - 1;
      DisciplinedRun(s, steps[..n]) && StepDisciplined(Run(s, steps[..n]), steps[n])
  }

  /**
   * What an edit left: the ids under which its record has been since then, the last of them the present
   * one, the content, and how many writes the server had made by then.
   */
  datatype Debt = Debt(trail: seq<Id>, content: Content, since: nat)

  function Now(d: Debt): Id
    requires d.trail != []
  {
    d.trail[|d.trail| - 1]
  }

  /** An update and a deletion are of a record that the device has. */
  predicate Takes(records: Records, edit: D.Edit) {
    match edit
    case Update(id, _, _) => id in records
    case Remove(id, _) => id in records
    case _ => true
  }

  /** What the user wants the record to be, told by the edit itself. */
  function Meant(records: Records, edit: D.Edit, id: Id): Content
    requires id in TouchedIds(edit) && Takes(records, edit)
  {
    match edit
    case Create(_, kind, payload, _) => Content(kind, payload, false)
    case Update(_, payload, _) => Content(records[id].dto.kind, payload, records[id].dto.isDeleted)
    case Remove(_, _) => Content(records[id].dto.kind, records[id].dto.payload, true)
    case Import(dtos, _) =>
      LastIsThere(dtos, id);
      DtoContent(D.LastAbout(dtos, id).value)
  }

  lemma {:induction false} LastIsThere(dtos: seq<RecordDTO>, id: Id)
    ensures D.LastAbout(dtos, id).Some? <==> exists dto :: dto in dtos && dto.id == id
  {
    if dtos != [] {
      LastIsThere(dtos[..|dtos| - 1], id);
      assert dtos == dtos[..|dtos| - 1] + [dtos[|dtos| - 1]];
    }
  }

  /** A dirty record that a merge makes a conflict copy of goes on under the copy's id. */
  ghost function Moved(d: Debt, records: Records, jobs: seq<Job>): Debt {
    if d.trail != [] && IsDirty(records, Now(d)) && Heir(records, jobs, Now(d)) != Now(d)
    then d.(trail := d.trail + [Heir(records, jobs, Now(d))])
    else d
  }

  /** The debts on dev after one more of its steps: edits make debts, and settle those they replace. */
  ghost function OwedNext(before: set<Debt>, s: System, dev: Dev, e: D.Event): set<Debt>
    requires dev in s.nodes
  {
    var records := s.nodes[dev].device.store.records;
    match e
    case Edited(edit) =>
      var ids := TouchedIds(edit);
      (set d | d in before && (d.trail == [] || Now(d) !in ids)) +
      (set id | id in ids && Takes(records, edit) :: Debt([id], Meant(records, edit, id), |s.server.repo.log|))
    case PullDelivered(jobs, _) => set d | d in before :: Moved(d, records, jobs)
    case _ => before
  }

  /** What edits on dev left, less what later edits on dev replaced. */
  ghost function Owed(s: System, steps: seq<Step>, dev: Dev): set<Debt>
    requires IsRun(s, steps)
  {
    if steps == [] then {}
    else
      var n := |steps| - 1;
      var before := Owed(s, steps[..n], dev);
      if steps[n].Local? && steps[n].dev == dev then OwedNext(before, Run(s, steps[..n]), dev, steps[n].e)
      else before
  }

  /** From the given time on the server wrote the DTO's content under its id for the owner. */
  ghost predicate WrittenAs(log: seq<Write>, owner: Owner, since: nat, dto: RecordDTO) {
    exists k :: since <= k < |log| && log[k].rec.owner == owner && log[k].rec.id == dto.id
                && RecordContent(log[k].rec) == DtoContent(dto)
  }

  ghost predicate Settled(log: seq<Write>, owner: Owner, d: Debt) {
    exists k :: d.since <= k < |log| && log[k].rec.owner == owner && log[k].rec.id in d.trail
                && RecordContent(log[k].rec) == d.content
  }

  ghost predicate Carried(records: Records, d: Debt) {
    d.trail != [] && IsDirty(records, Now(d)) && DtoContent(records[Now(d)].dto) == d.content
  }

  ghost predicate Safe(s: System, dev: Dev, d: Debt)
    requires dev in s.nodes
  {
    || Carried(s.nodes[dev].device.store.records, d)
    || Settled(s.server.repo.log, s.nodes[dev].owner, d)
  }

  // ---------------------------------------------------------------- the invariant

  /** Every applied result stands for a write, since the given time, of exactly what the message carried. */
  ghost predicate Answered(log: seq<Write>, since: nat, m: Msg, results: seq<PushResult>) {
    && |results| <= |m.dtos|
    && (forall i :: 0 <= i < |results| && results[i].status == Applied ==>
          && results[i].serverRecord.id == m.dtos[i].id
          && DtoContent(results[i].serverRecord) == DtoContent(m.dtos[i])
          && WrittenAs(log, m.owner, since, m.dtos[i]))
  }

  /** The listed records are in the store as listed, each once. */
  ghost predicate Held(records: Records, list: seq<StoredRecord>) {
    && (forall i :: 0 <= i < |list| ==> list[i].dto.id in records && records[list[i].dto.id] == list[i])
    && (forall i, j :: 0 <= i < j < |list| ==> list[i].dto.id != list[j].dto.id)
  }

  ghost predicate Intact(d: D.Device) {
    match d.phase
    case ReplayWait(_, request, _) =>
      |d.store.pending| == 1 && request == D.RequestOf(d.store.records, d.store.pending[0].ids)
    case Pushing(_, chunks, _) => Held(d.store.records, Flatten(chunks))
    case PushWait(_, _, chunk, chunks, _) => Held(d.store.records, chunk + Flatten(chunks))
    case _ => true
  }

  /** Every message under the key of a pending batch carries what the batch's records still are. */
  ghost predicate Faithful(sent: set<Msg>, node: Node) {
    forall b, m :: b in node.device.store.pending && m in sent && m.key == b.key ==>
      m.owner == node.owner && m.dtos == D.RequestOf(node.device.store.records, b.ids)
  }

  ghost predicate MailAnswers(log: seq<Write>, keys: map<Key, nat>, node: Node) {
    node.mail.Some? && node.mail.value.PushMail? ==>
      && D.Outstanding(node.device).Some?
      && (forall m :: m in Sends(node) ==> m.key in keys && Answered(log, keys[m.key], m, node.mail.value.results))
  }

  ghost predicate NodeOk(s: System, node: Node) {
    && D.Disciplined(node.device)
    && Intact(node.device)
    && Faithful(s.sent, node)
    && MailAnswers(s.server.repo.log, s.keys, node)
    && (forall b :: b in node.device.store.pending ==> b.key in s.keys)
  }

  ghost predicate Recalls(s: System, k: (Owner, Key), m: Msg) {
    && m in s.sent && KeyOf(m) == k && m.key in s.keys
    && k in s.server.cache && Answered(s.server.repo.log, s.keys[m.key], m, s.server.cache[k].results)
    && |s.server.cache[k].results| == |m.dtos|
  }

  ghost predicate HandlerOk(s: System, h: Handler) {
    && h.msg in s.sent && h.msg.key in s.keys
    && Answered(s.server.repo.log, s.keys[h.msg.key], h.msg, h.results)
  }

  ghost predicate KeysApart(node: Node, other: Node) {
    forall b, b' | b in node.device.store.pending && b' in other.device.store.pending :: b.key != b'.key
  }

  ghost predicate AllApart(nodes: map<Dev, Node>) {
    forall d, d' | d in nodes && d' in nodes && d != d' :: KeysApart(nodes[d], nodes[d'])
  }

  /** What the server remembers and works on are answers to messages. */
  ghost predicate Remembers(s: System) {
    && (forall k :: k in s.server.cache ==> exists m :: Recalls(s, k, m))
    && (forall h :: h in s.server.handlers ==> HandlerOk(s, s.server.handlers[h]))
  }

  ghost predicate KeysOk(s: System) {
    && s.server.repo.counter == |s.server.repo.log|
    && (forall m :: m in s.sent ==> m.key in s.keys)
    && (forall k :: k in s.keys ==> s.keys[k] <= |s.server.repo.log|)
  }

  ghost predicate NodesOk(s: System) {
    && (forall d :: d in s.nodes ==> NodeOk(s, s.nodes[d]))
    && AllApart(s.nodes)
  }

  ghost predicate Inv(s: System) {
    KeysOk(s) && Remembers(s) && NodesOk(s)
  }

  // ---------------------------------------------------------------- one device

  lemma {:induction false} HeldRequest(records: Records, list: seq<StoredRecord>)
    requires Held(records, list)
    ensures D.RequestOf(records, D.IdsOf(list)) == D.DtosOf(list)
  {
    if list != [] {
      var n := |list| - 1;
      HeldRequest(records, list[..n]);
      assert D.IdsOf(list)[..n] == D.IdsOf(list[..n]);
      assert D.DtosOf(list) == D.DtosOf(list[..n]) + [list[n].dto];
    }
  }

  lemma {:induction false} RequestFrame(records: Records, after: Records, ids: seq<Id>)
    requires forall id :: id in ids ==> id in records && id in after && after[id] == records[id]
    ensures D.RequestOf(after, ids) == D.RequestOf(records, ids)
  {
    if ids != [] {
      RequestFrame(records, after, ids[..|ids| - 1]);
    }
  }

  /** A record that the results do not replace stays. */
  lemma {:induction false} AppliedOrSame(records: Records, results: seq<PushResult>, id: Id)
    requires id in records
    ensures var after := D.PutApplied(records, results);
      id in after &&
      (after[id] == records[id] ||
       exists i :: 0 <= i < |results| && results[i].status == Applied && results[i].serverRecord.id == id)
  {
    if results != [] {
      AppliedOrSame(records, results[..|results| - 1], id);
    }
  }

  lemma {:induction false} ImportFrame(records: Records, dtos: seq<RecordDTO>, at: Time, id: Id)
    requires id in records && forall dto :: dto in dtos ==> dto.id != id
    ensures id in D.ImportAll(records, dtos, at) && D.ImportAll(records, dtos, at)[id] == records[id]
  {
    if dtos != [] {
      ImportFrame(records, dtos[..|dtos| - 1], at, id);
    }
  }

  lemma EditFrame(records: Records, edit: D.Edit, id: Id)
    requires Keyed(records) && id in records && id !in TouchedIds(edit)
    ensures id in D.ApplyEdit(records, edit) && D.ApplyEdit(records, edit)[id] == records[id]
  {
    if edit.Import? {
      ImportFrame(records, edit.dtos, edit.at, id);
    }
  }

  lemma {:induction false} ImportIsDirty(records: Records, dtos: seq<RecordDTO>, at: Time, id: Id)
    requires exists dto :: dto in dtos && dto.id == id
    ensures IsDirty(D.ImportAll(records, dtos, at), id)
  {
    var n := |dtos| - 1;
    if dtos[n].id != id {
      var dto :| dto in dtos && dto.id == id;
      assert dto in dtos[..n];
      ImportIsDirty(records, dtos[..n], at, id);
    }
  }

  /** The store has what the user meant. */
  lemma EditDoesAsMeant(records: Records, edit: D.Edit, id: Id)
    requires Keyed(records) && id in TouchedIds(edit) && Takes(records, edit)
    ensures id in D.ApplyEdit(records, edit)
    ensures DtoContent(D.ApplyEdit(records, edit)[id].dto) == Meant(records, edit, id)
  {
    if edit.Import? {
      LastIsThere(edit.dtos, id);
      D.ImportedIsLast(records, edit.dtos, edit.at, id);
    }
  }

  /** What an edit leaves is dirty. */
  lemma EditIsDirty(records: Records, edit: D.Edit, id: Id)
    requires Keyed(records)
    requires id in TouchedIds(edit) && id in D.ApplyEdit(records, edit)
    ensures IsDirty(D.ApplyEdit(records, edit), id)
  {
    if edit.Import? {
      ImportIsDirty(records, edit.dtos, edit.at, id);
    }
  }

  /** An answer to a message takes the dirty flag only off records whose content the server wrote. */
  lemma {:induction false} AcknowledgedIsWritten(
    records: Records, m: Msg, since: nat, results: seq<PushResult>, log: seq<Write>, id: Id)
    requires Answered(log, since, m, results)
    requires FromStore(records, m.dtos)
    requires id in records
    ensures var after := D.PutApplied(records, results);
      && id in after
      && (after[id] == records[id] ||
          exists i :: 0 <= i < |m.dtos| && m.dtos[i].id == id && m.dtos[i] == records[id].dto
                      && WrittenAs(log, m.owner, since, m.dtos[i]))
  {
    AppliedOrSame(records, results, id);
  }

  lemma {:induction false} AcknowledgedFrame(
    records: Records, m: Msg, since: nat, results: seq<PushResult>, log: seq<Write>, rest: seq<StoredRecord>)
    requires Answered(log, since, m, results)
    requires Held(records, rest)
    requires forall i, j :: 0 <= i < |m.dtos| && 0 <= j < |rest| ==> m.dtos[i].id != rest[j].dto.id
    ensures Held(D.PutApplied(records, results), rest)
  {
    forall j | 0 <= j < |rest|
      ensures rest[j].dto.id in D.PutApplied(records, results)
      ensures D.PutApplied(records, results)[rest[j].dto.id] == rest[j]
    {
      AppliedOrSame(records, results, rest[j].dto.id);
    }
  }

  /** The records of a request are those of the store. */
  ghost predicate FromStore(records: Records, dtos: seq<RecordDTO>) {
    forall i :: 0 <= i < |dtos| ==> dtos[i].id in records && records[dtos[i].id].dto == dtos[i]
  }

  lemma {:induction false} RequestIsFromStore(records: Records, ids: seq<Id>)
    requires Keyed(records)
    ensures FromStore(records, D.RequestOf(records, ids))
  {
    if ids != [] {
      RequestIsFromStore(records, ids[..|ids| - 1]);
    }
  }

  /** The outstanding request is made of records as they are in the store. */
  lemma OutstandingIsHeld(node: Node, m: Msg)
    requires D.Disciplined(node.device) && Intact(node.device) && m in Sends(node)
    ensures FromStore(node.device.store.records, m.dtos)
    ensures |node.device.store.pending| == 1 && node.device.store.pending[0].key == m.key
    ensures m.dtos == D.RequestOf(node.device.store.records, node.device.store.pending[0].ids)
  {
    var d := node.device;
    if d.phase.PushWait? {
      var list := d.phase.chunk + Flatten(d.phase.chunks);
      assert Held(d.store.records, d.phase.chunk) by {
        assert forall i :: 0 <= i < |d.phase.chunk| ==> d.phase.chunk[i] == list[i];
      }
      HeldRequest(d.store.records, d.phase.chunk);
    } else {
      RequestIsFromStore(d.store.records, d.store.pending[0].ids);
    }
  }

  /** The reply to a chunk leaves the chunks that follow as they are. */
  lemma ReplyKeepsRest(node: Node, results: seq<PushResult>, log: seq<Write>, since: nat)
    requires Intact(node.device) && node.device.phase.PushWait?
    requires Answered(log, since, Msg(node.owner, node.device.phase.key, D.DtosOf(node.device.phase.chunk)), results)
    ensures Held(D.PutApplied(node.device.store.records, results), Flatten(node.device.phase.chunks))
  {
    var chunk, rest := node.device.phase.chunk, Flatten(node.device.phase.chunks);
    var list := chunk + rest;
    assert forall j :: 0 <= j < |rest| ==> rest[j] == list[|chunk| + j];
    assert forall i :: 0 <= i < |chunk| ==> chunk[i] == list[i];
    var m := Msg(node.owner, node.device.phase.key, D.DtosOf(chunk));
    AcknowledgedFrame(node.device.store.records, m, since, results, log, rest);
  }

  /** A device keeps its side of the invariant through each of its own steps. */
  lemma DeviceStepIntact(node: Node, e: D.Event, log: seq<Write>, keys: map<Key, nat>)
    requires D.Disciplined(node.device) && Intact(node.device) && MailAnswers(log, keys, node)
    requires D.Enabled(node.device, e)
    requires e.Edited? ==> node.device.phase.Idle?
    requires e.PushDelivered? ==> node.mail == Some(PushMail(e.results))
    ensures D.Disciplined(D.Next(node.device, e)) && Intact(D.Next(node.device, e))
  {
    var d := node.device;
    D.StepKeepsDisciplined(d, e);
    match e
    case Edited(_) =>
    case Started =>
    case Failed =>
    case Advanced(_) =>
      if d.phase.Pushing? && d.phase.chunks != [] {
        assert Flatten(d.phase.chunks) == d.phase.chunks[0] + Flatten(d.phase.chunks[1..]);
      }
    case PullDelivered(jobs, dirty) =>
      ChunksFlatten(dirty, EffectiveSize(d.config.chunkSize));
    case PushDelivered(results) =>
      if d.phase.PushWait? {
        assert Msg(node.owner, d.phase.key, D.DtosOf(d.phase.chunk)) in Sends(node);
        ReplyKeepsRest(node, results, log, keys[d.phase.key]);
      }
  }

  // ---------------------------------------------------------------- the system

  lemma StillAnswered(log: seq<Write>, longer: seq<Write>, since: nat, m: Msg, results: seq<PushResult>)
    requires log <= longer && Answered(log, since, m, results)
    ensures Answered(longer, since, m, results)
  {
  }

  /** Pending batches keep their key, and their records keep their values, through a device's step. */
  lemma PendingStep(s: System, node: Node, e: D.Event, b: PendingBatch)
    requires NodeOk(s, node) && D.Enabled(node.device, e)
    requires e.Edited? ==> node.device.phase.Idle? && TouchedIds(e.edit) !! PendingIds(node.device)
    requires b in D.Next(node.device, e).store.pending
    ensures b in node.device.store.pending ==>
              D.RequestOf(D.Next(node.device, e).store.records, b.ids) == D.RequestOf(node.device.store.records, b.ids)
    ensures b !in node.device.store.pending ==>
              && e.Advanced? && node.device.phase.Pushing? && b.key == e.key && node.device.phase.chunks != []
              && b.ids == D.IdsOf(node.device.phase.chunks[0])
              && D.Next(node.device, e).store.records == node.device.store.records
  {
    var d := node.device;
    var next := D.Next(d, e);
    match e
    case Edited(edit) =>
      assert next.store.pending == d.store.pending;
      forall id | id in b.ids
        ensures id in d.store.records && id in next.store.records && next.store.records[id] == d.store.records[id]
      {
        assert id in PendingIds(d);
        EditFrame(d.store.records, edit, id);
      }
      RequestFrame(d.store.records, next.store.records, b.ids);
    case Started =>
    case Failed =>
    case Advanced(key) =>
      if d.phase.Replaying? {
        if d.phase.rest != [] {
          assert d.store.pending == [d.phase.rest[0]];
          D.WithoutOnly(d.phase.rest[0]);
        }
      }
    case PullDelivered(_, _) =>
    case PushDelivered(_) =>
      assert d.store.pending == [d.store.pending[0]];
      D.WithoutOnly(d.store.pending[0]);
  }

  /** An old message under the key of a batch that is pending after the step. */
  lemma OldMessageFaithful(s: System, dev: Dev, e: D.Event, b: PendingBatch, m: Msg)
    requires dev in s.nodes && NodeOk(s, s.nodes[dev]) && LocalEnabled(s, dev, e) && StepDisciplined(s, Local(dev, e))
    requires b in D.Next(s.nodes[dev].device, e).store.pending
    requires m in s.sent && m.key in s.keys && m.key == b.key
    ensures m.owner == s.nodes[dev].owner
    ensures m.dtos == D.RequestOf(D.Next(s.nodes[dev].device, e).store.records, b.ids)
  {
    PendingStep(s, s.nodes[dev], e, b);
  }

  lemma OldStaysFaithful(s: System, dev: Dev, e: D.Event)
    requires Inv(s) && dev in s.nodes && LocalEnabled(s, dev, e) && StepDisciplined(s, Local(dev, e))
    ensures Faithful(s.sent, LocalNode(s.nodes[dev], e))
  {
    assert NodeOk(s, s.nodes[dev]);
    forall b, m | b in D.Next(s.nodes[dev].device, e).store.pending && m in s.sent && m.key == b.key
      ensures m.owner == s.nodes[dev].owner
      ensures m.dtos == D.RequestOf(D.Next(s.nodes[dev].device, e).store.records, b.ids)
    {
      OldMessageFaithful(s, dev, e, b, m);
    }
  }

  lemma NewIsFaithful(after: Node)
    requires D.Disciplined(after.device) && Intact(after.device)
    ensures Faithful(Sends(after), after)
  {
    forall b, m | b in after.device.store.pending && m in Sends(after)
      ensures m.owner == after.owner && m.dtos == D.RequestOf(after.device.store.records, b.ids)
    {
      OutstandingIsHeld(after, m);
      assert after.device.store.pending == [b];
    }
  }

  lemma LocalKeepsFaithful(s: System, dev: Dev, e: D.Event)
    requires Inv(s) && dev in s.nodes && LocalEnabled(s, dev, e) && StepDisciplined(s, Local(dev, e))
    ensures Faithful(LocalNext(s, dev, e).sent, LocalNext(s, dev, e).nodes[dev])
  {
    LocalStaysIntact(s, dev, e);
    OldStaysFaithful(s, dev, e);
    NewIsFaithful(LocalNode(s.nodes[dev], e));
  }

  lemma LocalStaysIntact(s: System, dev: Dev, e: D.Event)
    requires NodesOk(s) && dev in s.nodes && LocalEnabled(s, dev, e) && StepDisciplined(s, Local(dev, e))
    ensures D.Disciplined(LocalNode(s.nodes[dev], e).device) && Intact(LocalNode(s.nodes[dev], e).device)
  {
    assert NodeOk(s, s.nodes[dev]);
    DeviceStepIntact(s.nodes[dev], e, s.server.repo.log, s.keys);
  }

  lemma LocalKeepsKeys(s: System, dev: Dev, e: D.Event)
    requires Inv(s) && dev in s.nodes && LocalEnabled(s, dev, e) && StepDisciplined(s, Local(dev, e))
    ensures var next := LocalNext(s, dev, e);
      && (forall b :: b in next.nodes[dev].device.store.pending ==> b.key in next.keys)
      && (forall m :: m in next.sent ==> m.key in next.keys)
  {
    var node := s.nodes[dev];
    assert NodeOk(s, node);
    DeviceStepIntact(node, e, s.server.repo.log, s.keys);
    var next := LocalNext(s, dev, e);
    var after := LocalNode(node, e);
    forall b | b in after.device.store.pending ensures b.key in next.keys {
      PendingStep(s, node, e, b);
    }
    forall m | m in Sends(after) ensures m.key in next.keys {
      OutstandingIsHeld(after, m);
      assert after.device.store.pending[0] in after.device.store.pending;
    }
  }

  lemma LocalKeepsApart(s: System, dev: Dev, e: D.Event, other: Dev)
    requires Inv(s) && dev in s.nodes && LocalEnabled(s, dev, e) && StepDisciplined(s, Local(dev, e))
    requires other in s.nodes && other != dev
    ensures KeysApart(LocalNode(s.nodes[dev], e), s.nodes[other]) &&
              KeysApart(s.nodes[other], LocalNode(s.nodes[dev], e))
  {
    var node := s.nodes[dev];
    assert NodeOk(s, node) && NodeOk(s, s.nodes[other]);
    assert KeysApart(node, s.nodes[other]);
    forall b | b in LocalNode(node, e).device.store.pending
      ensures forall b' :: b' in s.nodes[other].device.store.pending ==> b.key != b'.key
    {
      PendingStep(s, node, e, b);
    }
  }

  lemma LocalKeepsAllApart(s: System, dev: Dev, e: D.Event)
    requires Inv(s) && dev in s.nodes && LocalEnabled(s, dev, e) && StepDisciplined(s, Local(dev, e))
    ensures AllApart(LocalNext(s, dev, e).nodes)
  {
    forall other | other in s.nodes && other != dev
      ensures KeysApart(LocalNode(s.nodes[dev], e), s.nodes[other]) &&
                KeysApart(s.nodes[other], LocalNode(s.nodes[dev], e))
    {
      LocalKeepsApart(s, dev, e, other);
    }
  }

  lemma {:induction false} LocalKeepsOther(s: System, dev: Dev, e: D.Event, other: Dev)
    requires Inv(s) && dev in s.nodes && LocalEnabled(s, dev, e) && StepDisciplined(s, Local(dev, e))
    requires other in s.nodes && other != dev
    ensures NodeOk(LocalNext(s, dev, e), s.nodes[other])
  {
    var node := s.nodes[dev];
    assert NodeOk(s, node) && NodeOk(s, s.nodes[other]);
    DeviceStepIntact(node, e, s.server.repo.log, s.keys);
    LocalKeepsApart(s, dev, e, other);
    var after := LocalNode(node, e);
    forall b', m | b' in s.nodes[other].device.store.pending && m in Sends(after)
      ensures m.key != b'.key
    {
      OutstandingIsHeld(after, m);
      var b := after.device.store.pending[0];
      assert b in after.device.store.pending;
    }
  }

  lemma LocalKeepsOwn(s: System, dev: Dev, e: D.Event)
    requires Inv(s) && dev in s.nodes && LocalEnabled(s, dev, e) && StepDisciplined(s, Local(dev, e))
    ensures NodeOk(LocalNext(s, dev, e), LocalNext(s, dev, e).nodes[dev])
  {
    assert NodeOk(s, s.nodes[dev]);
    DeviceStepIntact(s.nodes[dev], e, s.server.repo.log, s.keys);
    LocalKeepsFaithful(s, dev, e);
    LocalKeepsKeys(s, dev, e);
    MailAfterLocal(s, dev, e);
  }

  lemma LocalKeepsInv(s: System, dev: Dev, e: D.Event)
    requires Inv(s) && dev in s.nodes && LocalEnabled(s, dev, e) && StepDisciplined(s, Local(dev, e))
    ensures Inv(LocalNext(s, dev, e))
  {
    LocalKeepsKeys(s, dev, e);
    LocalKeepsNodes(s, dev, e);
    ServerStillOk(s, LocalNext(s, dev, e));
  }

  lemma LocalKeepsNodes(s: System, dev: Dev, e: D.Event)
    requires Inv(s) && dev in s.nodes && LocalEnabled(s, dev, e) && StepDisciplined(s, Local(dev, e))
    ensures NodesOk(LocalNext(s, dev, e))
  {
    var next := LocalNext(s, dev, e);
    LocalKeepsOwn(s, dev, e);
    LocalKeepsAllApart(s, dev, e);
    forall d | d in s.nodes && d != dev ensures NodeOk(next, next.nodes[d]) {
      LocalKeepsOther(s, dev, e, d);
    }
  }

  /** What the server remembers stands, under more messages, more keys and a longer log. */
  lemma ServerStillOk(s: System, next: System)
    requires Remembers(s)
    requires s.sent <= next.sent && s.server.repo.log <= next.server.repo.log
    requires forall k :: k in s.keys ==> k in next.keys && next.keys[k] == s.keys[k]
    ensures forall k :: k in next.server.cache && k in s.server.cache && next.server.cache[k] == s.server.cache[k] ==>
              exists m :: Recalls(next, k, m)
    ensures forall h :: h in s.server.handlers ==> HandlerOk(next, s.server.handlers[h])
  {
    forall k | k in next.server.cache && k in s.server.cache && next.server.cache[k] == s.server.cache[k]
      ensures exists m :: Recalls(next, k, m)
    {
      var m :| Recalls(s, k, m);
      StillAnswered(s.server.repo.log, next.server.repo.log, s.keys[m.key], m, s.server.cache[k].results);
      assert Recalls(next, k, m);
    }
    forall h | h in s.server.handlers ensures HandlerOk(next, s.server.handlers[h]) {
      var handler := s.server.handlers[h];
      StillAnswered(s.server.repo.log, next.server.repo.log, s.keys[handler.msg.key], handler.msg, handler.results);
    }
  }

  /** A push reply in flight stays the reply to what is outstanding. */
  lemma MailAfterLocal(s: System, dev: Dev, e: D.Event)
    requires Inv(s) && dev in s.nodes && LocalEnabled(s, dev, e) && StepDisciplined(s, Local(dev, e))
    ensures MailAnswers(s.server.repo.log, LocalNext(s, dev, e).keys, LocalNext(s, dev, e).nodes[dev])
  {
  }

  /** One more upsert, one more result that stands for a write. */
  lemma ApplyAnswers(s: Server, h: HandlerId, at: Time, since: nat)
    requires ServerEnabled(s, ApplyOp(h, at)) && s.repo.counter == |s.repo.log| && since <= |s.repo.log|
    requires Answered(s.repo.log, since, s.handlers[h].msg, s.handlers[h].results)
    ensures var next := ServerStep(s, ApplyOp(h, at));
      && next.repo.counter == |next.repo.log| && s.repo.log <= next.repo.log
      && Answered(next.repo.log, since, next.handlers[h].msg, next.handlers[h].results)
  {
    var next := ServerStep(s, ApplyOp(h, at));
    var handler := s.handlers[h];
    StillAnswered(s.repo.log, next.repo.log, since, handler.msg, handler.results);
    var n := |handler.results|;
    if next.handlers[h].results[n].status == Applied {
      assert RecordContent(next.repo.log[|s.repo.log|].rec) == DtoContent(handler.msg.dtos[n]);
    }
  }

  lemma LogGrows(s: Server, op: ServerOp)
    requires s.repo.counter == |s.repo.log| && ServerEnabled(s, op)
    ensures var next := ServerStep(s, op); next.repo.counter == |next.repo.log| && s.repo.log <= next.repo.log
  {
  }

  /** The server keeps its part through each of its steps. */
  lemma ServeKeepsServer(s: System, op: ServerOp, to: Option<Dev>)
    requires KeysOk(s) && Remembers(s) && Enabled(s, Serve(op, to))
    ensures Remembers(Next(s, Serve(op, to)))
  {
    LogGrows(s.server, op);
    ServerStillOk(s, Next(s, Serve(op, to)));
    match op
    case LookUpOp(h, msg, at) => LookedUpHandlerOk(s, h, msg, at, to);
    case ApplyOp(h, at) => AppliedHandlerOk(s, h, at, to);
    case SaveOp(h, at) => SavedIsRecalled(s, h, at, to);
    case _ =>
  }

  lemma LookedUpHandlerOk(s: System, h: HandlerId, msg: Msg, at: Time, to: Option<Dev>)
    requires KeysOk(s) && Enabled(s, Serve(LookUpOp(h, msg, at), to))
    ensures var next := Next(s, Serve(LookUpOp(h, msg, at), to));
      h in next.server.handlers ==> HandlerOk(next, next.server.handlers[h])
  {
  }

  lemma AppliedHandlerOk(s: System, h: HandlerId, at: Time, to: Option<Dev>)
    requires KeysOk(s) && Remembers(s) && Enabled(s, Serve(ApplyOp(h, at), to))
    ensures var next := Next(s, Serve(ApplyOp(h, at), to)); HandlerOk(next, next.server.handlers[h])
  {
    assert HandlerOk(s, s.server.handlers[h]);
    ApplyAnswers(s.server, h, at, s.keys[s.server.handlers[h].msg.key]);
  }

  lemma SavedIsRecalled(s: System, h: HandlerId, at: Time, to: Option<Dev>)
    requires KeysOk(s) && Remembers(s) && Enabled(s, Serve(SaveOp(h, at), to))
    ensures var msg := s.server.handlers[h].msg; Recalls(Next(s, Serve(SaveOp(h, at), to)), KeyOf(msg), msg)
  {
  }

  /** The reply that reaches a waiting device answers its outstanding message, be it cached or not. */
  lemma {:induction false} ReplyAnswers(s: System, op: ServerOp, dev: Dev)
    requires Inv(s) && Enabled(s, Serve(op, Some(dev)))
    ensures var next := Next(s, Serve(op, Some(dev)));
      MailAnswers(next.server.repo.log, next.keys, next.nodes[dev])
  {
    var (msg, results) := Reply(s.server, op).value;
    var node := s.nodes[dev];
    assert NodeOk(s, node);
    assert Sends(node) == {msg};
    OutstandingIsHeld(node, msg);
    var b := node.device.store.pending[0];
    assert b in node.device.store.pending;
    if op.SaveOp? {
      assert HandlerOk(s, s.server.handlers[op.h]);
    } else {
      var m :| Recalls(s, KeyOf(msg), m);
      assert m == msg;
    }
  }

  /** Mail does not matter to which keys are pending where. */
  lemma StillApart(nodes: map<Dev, Node>, nodes': map<Dev, Node>)
    requires AllApart(nodes) && nodes'.Keys == nodes.Keys
    requires forall d :: d in nodes ==> nodes'[d].device == nodes[d].device
    ensures AllApart(nodes')
  {
  }

  lemma MailStillAnswers(log: seq<Write>, longer: seq<Write>, keys: map<Key, nat>, node: Node)
    requires log <= longer && MailAnswers(log, keys, node)
    ensures MailAnswers(longer, keys, node)
  {
  }

  lemma ServeKeepsInv(s: System, op: ServerOp, to: Option<Dev>)
    requires Inv(s) && Enabled(s, Serve(op, to))
    ensures Inv(Next(s, Serve(op, to)))
  {
    var next := Next(s, Serve(op, to));
    ServeKeepsServer(s, op, to);
    LogGrows(s.server, op);
    StillApart(s.nodes, next.nodes);
    forall d | d in next.nodes ensures NodeOk(next, next.nodes[d]) {
      ServeKeepsNode(s, op, to, d);
    }
  }

  lemma ServeKeepsNode(s: System, op: ServerOp, to: Option<Dev>, d: Dev)
    requires Inv(s) && Enabled(s, Serve(op, to)) && d in s.nodes
    ensures var next := Next(s, Serve(op, to)); NodeOk(next, next.nodes[d])
  {
    assert NodeOk(s, s.nodes[d]);
    LogGrows(s.server, op);
    if to == Some(d) {
      ReplyAnswers(s, op, d);
    } else {
      MailStillAnswers(s.server.repo.log, Next(s, Serve(op, to)).server.repo.log, s.keys, s.nodes[d]);
    }
  }

  /** Neither the server nor what is sent changes. */
  lemma NodesOnlyKeepsInv(s: System, next: System)
    requires Inv(s)
    requires next.server == s.server && next.sent == s.sent && next.keys == s.keys && next.nodes.Keys == s.nodes.Keys
    requires forall d :: d in s.nodes ==>
               && next.nodes[d].device == s.nodes[d].device && next.nodes[d].owner == s.nodes[d].owner
               && (next.nodes[d].mail == s.nodes[d].mail || next.nodes[d].mail.None? ||
                    next.nodes[d].mail.value.PullMail?)
    ensures Inv(next)
  {
    forall d | d in next.nodes ensures NodeOk(next, next.nodes[d]) {
      assert NodeOk(s, s.nodes[d]);
    }
    StillApart(s.nodes, next.nodes);
    ServerStillOk(s, next);
  }

  lemma StepKeepsInv(s: System, step: Step)
    requires Inv(s) && Enabled(s, step) && StepDisciplined(s, step)
    ensures Inv(Next(s, step))
  {
    match step
    case Local(dev, e) => LocalKeepsInv(s, dev, e);
    case Serve(op, to) => ServeKeepsInv(s, op, to);
    case _ => NodesOnlyKeepsInv(s, Next(s, step));
  }

  lemma {:induction false} RunKeepsInv(s: System, steps: seq<Step>)
    requires Initial(s) && IsRun(s, steps) && DisciplinedRun(s, steps)
    ensures Inv(Run(s, steps)) && Run(s, steps).nodes.Keys == s.nodes.Keys
  {
    if steps != [] {
      RunKeepsInv(s, steps[..|steps| - 1]);
      StepKeepsInv(Run(s, steps[..|steps| - 1]), steps[|steps| - 1]);
    }
  }

  // ---------------------------------------------------------------- one debt

  /** The debt is safe, and a batch that its record waits in was made after the edit. */
  ghost predicate DebtOk(s: System, dev: Dev, d: Debt)
    requires dev in s.nodes
  {
    && d.trail != [] && d.since <= |s.server.repo.log|
    && Safe(s, dev, d)
    && (forall b :: b in s.nodes[dev].device.store.pending && Now(d) in b.ids ==>
         b.key in s.keys && d.since <= s.keys[b.key])
  }

  /** A debt whose record stays as it is. */
  lemma UntouchedKeepsDebt(s: System, next: System, dev: Dev, d: Debt)
    requires dev in s.nodes && dev in next.nodes && DebtOk(s, dev, d)
    requires next.nodes[dev].owner == s.nodes[dev].owner && s.server.repo.log <= next.server.repo.log
    requires IsDirty(s.nodes[dev].device.store.records, Now(d)) ==>
               && IsDirty(next.nodes[dev].device.store.records, Now(d))
               && next.nodes[dev].device.store.records[Now(d)] == s.nodes[dev].device.store.records[Now(d)]
    requires forall b :: b in next.nodes[dev].device.store.pending ==>
               && b.key in next.keys
               && ((b in s.nodes[dev].device.store.pending && b.key in s.keys && next.keys[b.key] == s.keys[b.key])
                   || next.keys[b.key] == |s.server.repo.log|)
    ensures DebtOk(next, dev, d)
  {
  }

  /** The batches that are pending after a step were pending before, or are made now. */
  lemma PendingAfterLocal(s: System, dev: Dev, e: D.Event)
    requires Inv(s) && dev in s.nodes && LocalEnabled(s, dev, e) && StepDisciplined(s, Local(dev, e))
    ensures var next := LocalNext(s, dev, e);
      forall b :: b in next.nodes[dev].device.store.pending ==>
        && b.key in next.keys
        && ((b in s.nodes[dev].device.store.pending && b.key in s.keys && next.keys[b.key] == s.keys[b.key])
            || next.keys[b.key] == |s.server.repo.log|)
  {
    var node := s.nodes[dev];
    assert NodeOk(s, node);
    forall b | b in LocalNode(node, e).device.store.pending
      ensures b in node.device.store.pending || (e.Advanced? && node.device.phase.Pushing? && b.key == e.key)
    {
      PendingStep(s, node, e, b);
    }
  }

  /** A pull carries the debt over to where its record now is. */
  lemma PullKeepsDebt(s: System, dev: Dev, jobs: seq<Job>, dirty: seq<StoredRecord>, d: Debt)
    requires Inv(s) && dev in s.nodes && LocalEnabled(s, dev, D.PullDelivered(jobs, dirty)) && DebtOk(s, dev, d)
    ensures DebtOk(LocalNext(s, dev, D.PullDelivered(jobs, dirty)), dev,
                   Moved(d, s.nodes[dev].device.store.records, jobs))
  {
    var node := s.nodes[dev];
    assert NodeOk(s, node);
    var records := node.device.store.records;
    var moved := Moved(d, records, jobs);
    DirtySurvivesMerge(records, jobs);
    if Carried(records, d) {
      assert Now(moved) == Heir(records, jobs, Now(d));
      assert Carried(MergeAll(records, jobs), moved);
    } else {
      var k :| d.since <= k < |s.server.repo.log| && s.server.repo.log[k].rec.owner == node.owner
               && s.server.repo.log[k].rec.id in d.trail && RecordContent(s.server.repo.log[k].rec) == d.content;
      assert s.server.repo.log[k].rec.id in moved.trail;
    }
  }

  lemma {:induction false} RequestedIds(records: Records, ids: seq<Id>)
    requires Keyed(records)
    ensures forall dto :: dto in D.RequestOf(records, ids) ==> dto.id in ids
  {
    if ids != [] {
      RequestedIds(records, ids[..|ids| - 1]);
    }
  }

  /** A reply makes a record clean only when it settles the debt. */
  lemma ReplyKeepsDebt(s: System, dev: Dev, results: seq<PushResult>, d: Debt)
    requires Inv(s) && dev in s.nodes && LocalEnabled(s, dev, D.PushDelivered(results)) && DebtOk(s, dev, d)
    ensures DebtOk(LocalNext(s, dev, D.PushDelivered(results)), dev, d)
  {
    var node := s.nodes[dev];
    assert NodeOk(s, node);
    PendingAfterLocal(s, dev, D.PushDelivered(results));
    var records := node.device.store.records;
    if Carried(records, d) {
      var out := D.Outstanding(node.device).value;
      var m := Msg(node.owner, out.0, out.1);
      assert m in Sends(node);
      OutstandingIsHeld(node, m);
      var b := node.device.store.pending[0];
      assert b in node.device.store.pending;
      RequestedIds(records, b.ids);
      var since := s.keys[m.key];
      CarriedOrSettled(records, m, since, results, s.server.repo.log, d);
    }
  }

  lemma {:induction false} CarriedOrSettled(
    records: Records, m: Msg, since: nat, results: seq<PushResult>, log: seq<Write>, d: Debt)
    requires Answered(log, since, m, results) && FromStore(records, m.dtos) && Carried(records, d)
    requires (exists dto :: dto in m.dtos && dto.id == Now(d)) ==> d.since <= since
    ensures Carried(D.PutApplied(records, results), d) || Settled(log, m.owner, d)
  {
    AcknowledgedIsWritten(records, m, since, results, log, Now(d));
    if D.PutApplied(records, results)[Now(d)] != records[Now(d)] {
      var i :| 0 <= i < |m.dtos| && m.dtos[i].id == Now(d) && m.dtos[i] == records[Now(d)].dto
               && WrittenAs(log, m.owner, since, m.dtos[i]);
      assert m.dtos[i] in m.dtos;
      var k :| since <= k < |log| && log[k].rec.owner == m.owner && log[k].rec.id == m.dtos[i].id
               && RecordContent(log[k].rec) == DtoContent(m.dtos[i]);
      assert log[k].rec.id in d.trail;
    }
  }

  lemma LocalKeepsDebt(s: System, dev: Dev, e: D.Event, d: Debt)
    requires Inv(s) && dev in s.nodes && LocalEnabled(s, dev, e) && StepDisciplined(s, Local(dev, e))
    requires DebtOk(s, dev, d) && !e.PullDelivered? && (e.Edited? ==> Now(d) !in TouchedIds(e.edit))
    ensures DebtOk(LocalNext(s, dev, e), dev, d)
  {
    var node := s.nodes[dev];
    assert NodeOk(s, node);
    if e.PushDelivered? {
      ReplyKeepsDebt(s, dev, e.results, d);
    } else {
      if e.Edited? && Now(d) in node.device.store.records {
        EditFrame(node.device.store.records, e.edit, Now(d));
      }
      PendingAfterLocal(s, dev, e);
      UntouchedKeepsDebt(s, LocalNext(s, dev, e), dev, d);
    }
  }

  /** What an edit leaves is dirty, and no batch waits with it. */
  lemma EditMakesDebt(s: System, dev: Dev, edit: D.Edit, id: Id)
    requires Inv(s) && dev in s.nodes && LocalEnabled(s, dev, D.Edited(edit)) &&
               StepDisciplined(s, Local(dev, D.Edited(edit)))
    requires id in TouchedIds(edit) && Takes(s.nodes[dev].device.store.records, edit)
    ensures var meant := Meant(s.nodes[dev].device.store.records, edit, id);
      DebtOk(LocalNext(s, dev, D.Edited(edit)), dev, Debt([id], meant, |s.server.repo.log|))
  {
    var node := s.nodes[dev];
    assert NodeOk(s, node);
    EditDoesAsMeant(node.device.store.records, edit, id);
    EditIsDirty(node.device.store.records, edit, id);
    assert forall b, x :: b in node.device.store.pending && x in b.ids ==> x in PendingIds(node.device);
  }

  /** Steps elsewhere keep the debts of a device. */
  lemma ElsewhereKeepsDebt(s: System, step: Step, dev: Dev, d: Debt)
    requires Inv(s) && Enabled(s, step) && StepDisciplined(s, step) && !(step.Local? && step.dev == dev)
    requires dev in s.nodes && DebtOk(s, dev, d)
    ensures DebtOk(Next(s, step), dev, d)
  {
    assert NodeOk(s, s.nodes[dev]);
    StepGrows(s, step);
    UntouchedKeepsDebt(s, Next(s, step), dev, d);
  }

  lemma StepGrows(s: System, step: Step)
    requires KeysOk(s) && Enabled(s, step)
    ensures var next := Next(s, step);
      && s.server.repo.log <= next.server.repo.log
      && forall k :: k in s.keys ==> k in next.keys && next.keys[k] == s.keys[k]
  {
    if step.Serve? {
      LogGrows(s.server, step.op);
    }
  }

  lemma StepKeepsDebts(s: System, dev: Dev, e: D.Event, before: set<Debt>, d: Debt)
    requires Inv(s) && dev in s.nodes && LocalEnabled(s, dev, e) && StepDisciplined(s, Local(dev, e))
    requires forall x :: x in before ==> DebtOk(s, dev, x)
    requires d in OwedNext(before, s, dev, e)
    ensures DebtOk(LocalNext(s, dev, e), dev, d)
  {
    match e
    case Edited(edit) =>
      if d in before && Now(d) !in TouchedIds(edit) {
        LocalKeepsDebt(s, dev, e, d);
      } else {
        var records := s.nodes[dev].device.store.records;
        var id :| id in TouchedIds(edit) && Takes(records, edit)
                  && d == Debt([id], Meant(records, edit, id), |s.server.repo.log|);
        EditMakesDebt(s, dev, edit, id);
      }
    case PullDelivered(jobs, dirty) =>
      var x :| x in before && d == Moved(x, s.nodes[dev].device.store.records, jobs);
      PullKeepsDebt(s, dev, jobs, dirty, x);
    case _ =>
      LocalKeepsDebt(s, dev, e, d);
  }

  lemma {:induction false} DebtsStayOk(s: System, steps: seq<Step>, dev: Dev, d: Debt)
    requires Initial(s) && IsRun(s, steps) && DisciplinedRun(s, steps)
    requires dev in s.nodes && d in Owed(s, steps, dev)
    ensures dev in Run(s, steps).nodes && DebtOk(Run(s, steps), dev, d)
  {
    var n := |steps| - 1;
    var before := Run(s, steps[..n]);
    RunKeepsInv(s, steps[..n]);
    if steps[n].Local? && steps[n].dev == dev {
      forall x | x in Owed(s, steps[..n], dev) ensures DebtOk(before, dev, x) {
        DebtsStayOk(s, steps[..n], dev, x);
      }
      StepKeepsDebts(before, dev, steps[n].e, Owed(s, steps[..n], dev), d);
    } else {
      DebtsStayOk(s, steps[..n], dev, d);
      ElsewhereKeepsDebt(before, steps[n], dev, d);
    }
  }

  /**
   * Whatever dev owes: the record is dirty on dev and carries the content, or the server has, since the
   * edit, written that content for dev's owner under an id the record has had since the edit.
   */
  lemma {:induction false} NoLocalEditIsLost(s: System, steps: seq<Step>, dev: Dev, d: Debt)
    requires Initial(s) && IsRun(s, steps) && DisciplinedRun(s, steps)
    requires dev in s.nodes && d in Owed(s, steps, dev)
    ensures dev in Run(s, steps).nodes && Safe(Run(s, steps), dev, d)
  {
    DebtsStayOk(s, steps, dev, d);
  }
}
