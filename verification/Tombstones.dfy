/**
 * Deleted stays deleted: once the server holds a tombstone for an id, it holds one for ever, in every
 * interleaving of any number of devices, with edits during a Sync, lost and late replies, and requests
 * processed late or repeatedly, also by several handlers at once. And no record is applied twice.
 */
module Tombstones {
  import opened Domain
  import opened Repository
  import opened Idempotency
  import opened SyncService
  import opened Merge
  import opened Chunks
  import opened Protocol
  import D = Device

  ghost predicate IsTombVersion(log: seq<Write>, v: int) {
    1 <= v <= |log| && log[v - 1].rec.deleted
  }

  /** A record that is not deleted never carries the version of a tombstone, known or to be replaced. */
  ghost predicate Sound(log: seq<Write>, dto: RecordDTO) {
    && 0 <= dto.version <= |log|
    && 0 <= dto.baseVersion <= |log|
    && (!dto.isDeleted ==> !IsTombVersion(log, dto.version) && !IsTombVersion(log, dto.baseVersion))
  }

  ghost predicate AllSound(log: seq<Write>, dtos: seq<RecordDTO>) {
    forall i :: 0 <= i < |dtos| ==> Sound(log, dtos[i])
  }

  ghost predicate ResultsSound(log: seq<Write>, results: seq<PushResult>) {
    forall i :: 0 <= i < |results| ==> Sound(log, results[i].serverRecord)
  }

  ghost predicate RecordsSound(log: seq<Write>, records: Records) {
    forall id :: id in records ==> Sound(log, records[id].dto)
  }

  ghost predicate ChunkSound(log: seq<Write>, chunk: seq<StoredRecord>) {
    forall i :: 0 <= i < |chunk| ==> Sound(log, chunk[i].dto)
  }

  ghost predicate ChunksSound(log: seq<Write>, chunks: seq<seq<StoredRecord>>) {
    forall i :: 0 <= i < |chunks| ==> ChunkSound(log, chunks[i])
  }

  ghost predicate PhaseSound(log: seq<Write>, phase: D.Phase) {
    match phase
    case ReplayWait(_, request, _) => AllSound(log, request)
    case Pushing(_, chunks, _) => ChunksSound(log, chunks)
    case PushWait(_, _, chunk, chunks, _) => ChunkSound(log, chunk) && ChunksSound(log, chunks)
    case _ => true
  }

  ghost predicate MailSound(log: seq<Write>, mail: Option<Mail>) {
    match mail
    case None => true
    case Some(PullMail(dtos)) => AllSound(log, dtos)
    case Some(PushMail(results)) => ResultsSound(log, results)
  }

  ghost predicate NodeSound(log: seq<Write>, node: Node) {
    && RecordsSound(log, node.device.store.records)
    && PhaseSound(log, node.device.phase)
    && MailSound(log, node.mail)
  }

  ghost predicate HandlerSound(log: seq<Write>, h: Handler) {
    AllSound(log, h.msg.dtos) && ResultsSound(log, h.results)
  }

  ghost predicate ServerSound(server: Server) {
    && Linear(server.repo)
    && (forall k :: k in server.cache ==> ResultsSound(server.repo.log, server.cache[k].results))
    && (forall h :: h in server.handlers ==> HandlerSound(server.repo.log, server.handlers[h]))
  }

  ghost predicate Inv(s: System) {
    && ServerSound(s.server)
    && (forall d :: d in s.nodes ==> NodeSound(s.server.repo.log, s.nodes[d]))
    && (forall m :: m in s.sent ==> AllSound(s.server.repo.log, m.dtos))
    && (forall x :: x in s.exported ==> Sound(s.server.repo.log, x.1))
  }

  // ---------------------------------------------------------------- devices

  lemma {:induction false} ImportSound(log: seq<Write>, records: Records, dtos: seq<RecordDTO>, at: Time)
    requires RecordsSound(log, records) && AllSound(log, dtos)
    ensures RecordsSound(log, D.ImportAll(records, dtos, at))
  {
    if dtos != [] {
      ImportSound(log, records, dtos[..|dtos| - 1], at);
    }
  }

  lemma EditSound(log: seq<Write>, records: Records, edit: D.Edit)
    requires RecordsSound(log, records)
    requires edit.Import? ==> AllSound(log, edit.dtos)
    ensures RecordsSound(log, D.ApplyEdit(records, edit))
  {
    if edit.Import? {
      ImportSound(log, records, edit.dtos, edit.at);
    }
  }

  lemma {:induction false} MergeSound(log: seq<Write>, records: Records, jobs: seq<Job>)
    requires RecordsSound(log, records) && AllSound(log, D.IncomingOf(jobs))
    ensures RecordsSound(log, MergeAll(records, jobs))
  {
    if jobs != [] {
      var n := |jobs| - 1;
      forall i | 0 <= i < n ensures Sound(log, D.IncomingOf(jobs[..n])[i]) {
        assert Sound(log, D.IncomingOf(jobs)[i]);
      }
      MergeSound(log, records, jobs[..n]);
      assert Sound(log, D.IncomingOf(jobs)[n]);
      MergeOneSound(log, MergeAll(records, jobs[..n]), jobs[n]);
    }
  }

  lemma MergeOneSound(log: seq<Write>, records: Records, job: Job)
    requires RecordsSound(log, records) && Sound(log, job.incoming)
    ensures RecordsSound(log, MergeOne(records, job))
  {
  }

  lemma {:induction false} AppliedSound(log: seq<Write>, records: Records, results: seq<PushResult>)
    requires RecordsSound(log, records) && ResultsSound(log, results)
    ensures RecordsSound(log, D.PutApplied(records, results))
  {
    if results != [] {
      AppliedSound(log, records, results[..|results| - 1]);
    }
  }

  lemma {:induction false} RequestSound(log: seq<Write>, records: Records, ids: seq<Id>)
    requires RecordsSound(log, records)
    ensures AllSound(log, D.RequestOf(records, ids))
  {
    if ids != [] {
      RequestSound(log, records, ids[..|ids| - 1]);
    }
  }

  lemma {:induction false} ChunkingSound(log: seq<Write>, dirty: seq<StoredRecord>, size: nat)
    requires size > 0 && ChunkSound(log, dirty)
    ensures ChunksSound(log, ChunksOf(dirty, size))
  {
    if |dirty| > size {
      ChunkingSound(log, dirty[size..], size);
    }
  }

  lemma DeviceStepSound(log: seq<Write>, d: D.Device, e: D.Event)
    requires RecordsSound(log, d.store.records) && PhaseSound(log, d.phase)
    requires D.Enabled(d, e)
    requires e.Edited? && e.edit.Import? ==> AllSound(log, e.edit.dtos)
    requires e.PullDelivered? ==> AllSound(log, D.IncomingOf(e.jobs))
    requires e.PushDelivered? ==> ResultsSound(log, e.results)
    ensures RecordsSound(log, D.Next(d, e).store.records) && PhaseSound(log, D.Next(d, e).phase)
  {
    match e
    case Edited(edit) => EditSound(log, d.store.records, edit);
    case Started =>
    case Advanced(key) =>
      if d.phase.Replaying? && d.phase.rest != [] {
        RequestSound(log, d.store.records, d.phase.rest[0].ids);
      }
    case PullDelivered(jobs, dirty) =>
      MergeSound(log, d.store.records, jobs);
      ChunkingSound(log, dirty, EffectiveSize(d.config.chunkSize));
    case PushDelivered(results) => AppliedSound(log, d.store.records, results);
    case Failed =>
  }

  // ---------------------------------------------------------------- the server

  lemma CurrentIsSound(r: Repo, id: Id)
    requires Linear(r) && id in r.records
    ensures Sound(r.log, RecordToDTO(r.records[id]))
  {
  }

  /** The server holds a tombstone for id, and its log knows the version of it. */
  ghost predicate LoggedTomb(r: Repo, id: Id) {
    id in r.records && r.records[id].deleted && IsTombVersion(r.log, r.records[id].version)
  }

  /** The heart of the matter: an accepted upsert over a tombstone is based on it, so it deletes too. */
  lemma UpsertKeepsTomb(log: seq<Write>, r: Repo, owner: Owner, dto: RecordDTO, now: Time, id: Id)
    requires log <= r.log && r.counter == |r.log| && Sound(log, dto)
    requires LoggedTomb(r, id)
    ensures LoggedTomb(UpsertDTO(r, owner, dto, now).repo, id)
  {
  }

  lemma UpsertAnswersSoundly(r: Repo, owner: Owner, dto: RecordDTO, now: Time)
    requires Linear(r)
    ensures var u := UpsertDTO(r, owner, dto, now);
      Sound(u.repo.log, ResultOf(dto, u).serverRecord)
  {
  }

  // ---------------------------------------------------------------- the system

  lemma {:induction false} Extend(s: System, log: seq<Write>)
    requires Inv(s) && s.server.repo.log <= log
    ensures forall d :: d in s.nodes ==> NodeSound(log, s.nodes[d])
    ensures forall m :: m in s.sent ==> AllSound(log, m.dtos)
    ensures forall x :: x in s.exported ==> Sound(log, x.1)
    ensures forall k :: k in s.server.cache ==> ResultsSound(log, s.server.cache[k].results)
    ensures forall h :: h in s.server.handlers ==> HandlerSound(log, s.server.handlers[h])
  {
    var shorter := s.server.repo.log;
    assert forall dto :: Sound(shorter, dto) ==> Sound(log, dto);
    forall d | d in s.nodes ensures NodeSound(log, s.nodes[d]) {
      assert NodeSound(shorter, s.nodes[d]);
    }
    forall m | m in s.sent ensures AllSound(log, m.dtos) {
      assert AllSound(shorter, m.dtos);
    }
    forall k | k in s.server.cache ensures ResultsSound(log, s.server.cache[k].results) {
      assert ResultsSound(shorter, s.server.cache[k].results);
    }
    forall h | h in s.server.handlers ensures HandlerSound(log, s.server.handlers[h]) {
      assert HandlerSound(shorter, s.server.handlers[h]);
    }
  }

  lemma LocalKeepsInv(s: System, dev: Dev, e: D.Event)
    requires Inv(s) && dev in s.nodes && LocalEnabled(s, dev, e)
    ensures Inv(LocalNext(s, dev, e))
  {
    EventIsSound(s, dev, e);
    DeviceStepSound(s.server.repo.log, s.nodes[dev].device, e);
    SendsSound(s.server.repo.log, LocalNode(s.nodes[dev], e));
  }

  /** What comes to a device, by a reply or an import, is sound. */
  lemma EventIsSound(s: System, dev: Dev, e: D.Event)
    requires Inv(s) && dev in s.nodes && LocalEnabled(s, dev, e)
    ensures var log := s.server.repo.log;
      && NodeSound(log, s.nodes[dev])
      && (e.Edited? && e.edit.Import? ==> AllSound(log, e.edit.dtos))
      && (e.PullDelivered? ==> AllSound(log, D.IncomingOf(e.jobs)))
      && (e.PushDelivered? ==> ResultsSound(log, e.results))
  {
    assert NodeSound(s.server.repo.log, s.nodes[dev]);
    if e.Edited? && e.edit.Import? {
      forall i | 0 <= i < |e.edit.dtos| ensures Sound(s.server.repo.log, e.edit.dtos[i]) {
        assert (s.nodes[dev].owner, e.edit.dtos[i]) in s.exported;
      }
    }
  }

  lemma SendsSound(log: seq<Write>, node: Node)
    requires PhaseSound(log, node.device.phase)
    ensures forall m :: m in Sends(node) ==> AllSound(log, m.dtos)
  {
  }

  lemma ApplyKeepsInv(s: System, h: HandlerId, at: Time)
    requires Inv(s) && ServerEnabled(s.server, ApplyOp(h, at))
    ensures Inv(Next(s, Serve(ApplyOp(h, at), None)))
  {
    var handler := s.server.handlers[h];
    var dto := NextDTO(handler);
    UpsertAnswersSoundly(s.server.repo, handler.msg.owner, dto, at);
    UpsertKeepsLinear(s.server.repo, DTOToRecord(dto, handler.msg.owner), dto.baseVersion, at);
    Extend(s, UpsertDTO(s.server.repo, handler.msg.owner, dto, at).repo.log);
  }

  /** A reply that is delivered is one that the cache or a handler holds. */
  lemma ReplyIsSound(server: Server, op: ServerOp)
    requires ServerSound(server) && ServerEnabled(server, op) && Reply(server, op).Some?
    ensures ResultsSound(server.repo.log, Reply(server, op).value.1)
    ensures ServerStep(server, op).repo == server.repo
  {
  }

  lemma ServeKeepsInv(s: System, op: ServerOp)
    requires Inv(s) && Enabled(s, Serve(op, None))
    ensures Inv(Next(s, Serve(op, None)))
  {
    match op
    case LookUpOp(h, msg, at) =>
      assert AllSound(s.server.repo.log, msg.dtos);
    case ApplyOp(h, at) => ApplyKeepsInv(s, h, at);
    case SaveOp(h, at) =>
      assert HandlerSound(s.server.repo.log, s.server.handlers[h]);
    case WriteOp(rec, base, at) =>
      UpsertKeepsLinear(s.server.repo, rec, base, at);
      Extend(s, Upsert(s.server.repo, rec, base, at).repo.log);
    case RemoveOp(id, owner, at) =>
      DeleteKeepsLinear(s.server.repo, id, owner, at);
      Extend(s, Delete(s.server.repo, id, owner, at).log);
    case ExpireOp(_) =>
  }

  lemma StepKeepsInv(s: System, step: Step)
    requires Inv(s) && Enabled(s, step)
    ensures Inv(Next(s, step))
  {
    match step
    case Local(dev, e) => LocalKeepsInv(s, dev, e);
    case ServePull(dev, dtos) =>
      forall i | 0 <= i < |dtos| ensures Sound(s.server.repo.log, dtos[i]) {
        CurrentIsSound(s.server.repo, dtos[i].id);
      }
    case Serve(op, to) =>
      ServeKeepsInv(s, op);
      if to.Some? {
        ReplyIsSound(s.server, op);
      }
    case Export(dev) =>
      assert NodeSound(s.server.repo.log, s.nodes[dev]);
  }

  ghost predicate Buried(s: System, id: Id) {
    id in s.server.repo.records && s.server.repo.records[id].deleted
  }

  /** No step of the server brings a deleted record back. */
  lemma {:induction false} ServeKeepsTomb(server: Server, op: ServerOp, id: Id)
    requires ServerSound(server) && ServerEnabled(server, op) && (op.WriteOp? ==> op.base == 0)
    requires id in server.repo.records && server.repo.records[id].deleted
    ensures var repo := ServerStep(server, op).repo; id in repo.records && repo.records[id].deleted
  {
    CurrentIsLogged(server.repo, id);
    if op.ApplyOp? {
      var handler := server.handlers[op.h];
      assert HandlerSound(server.repo.log, handler);
      UpsertKeepsTomb(server.repo.log, server.repo, handler.msg.owner, NextDTO(handler), op.at, id);
    }
  }

  lemma StepKeepsBuried(s: System, step: Step, id: Id)
    requires Inv(s) && Enabled(s, step) && Buried(s, id)
    ensures Buried(Next(s, step), id)
  {
    if step.Serve? {
      ServeKeepsTomb(s.server, step.op, id);
    }
  }

  lemma {:induction false} RunKeepsInv(s: System, steps: seq<Step>)
    requires Inv(s) && IsRun(s, steps)
    ensures Inv(Run(s, steps))
  {
    if steps != [] {
      RunKeepsInv(s, steps[..|steps| - 1]);
      StepKeepsInv(Run(s, steps[..|steps| - 1]), steps[|steps| - 1]);
    }
  }

  lemma {:induction false} RunKeepsBuried(s: System, steps: seq<Step>, id: Id)
    requires Inv(s) && IsRun(s, steps) && Buried(s, id)
    ensures Buried(Run(s, steps), id)
  {
    if steps != [] {
      RunKeepsBuried(s, steps[..|steps| - 1], id);
      RunKeepsInv(s, steps[..|steps| - 1]);
      StepKeepsBuried(Run(s, steps[..|steps| - 1]), steps[|steps| - 1], id);
    }
  }

  /** In every run from an initial state, an id that is deleted at the server at some time stays deleted. */
  lemma {:induction false} DeletedStaysDeleted(s: System, steps: seq<Step>, n: nat, id: Id)
    requires Initial(s) && IsRun(s, steps) && n <= |steps|
    requires IsRun(s, steps[..n]) && Buried(Run(s, steps[..n]), id)
    ensures Buried(Run(s, steps), id)
  {
    assert Inv(s);
    SplitRun(s, steps, n);
    RunKeepsInv(s, steps[..n]);
    RunKeepsBuried(Run(s, steps[..n]), steps[n..], id);
  }

  // ---------------------------------------------------------------- at most once, in the system

  lemma {:induction false} RunKeepsSpentIn(s: System, steps: seq<Step>, dto: RecordDTO)
    requires IsRun(s, steps) && Spent(s.server.repo, dto)
    ensures Spent(Run(s, steps).server.repo, dto)
  {
    if steps != [] {
      var before := Run(s, steps[..|steps| - 1]);
      RunKeepsSpentIn(s, steps[..|steps| - 1], dto);
      if steps[|steps| - 1].Serve? {
        StepKeepsSpent(before.server, steps[|steps| - 1].op, dto);
      }
    }
  }

  lemma AttemptSpends(server: Server, op: ServerOp, dto: RecordDTO)
    requires ServerSound(server) && Attempts(server, op, dto)
    ensures Spent(ServerStep(server, op).repo, dto)
  {
  }

  ghost predicate AttemptsAt(s: System, steps: seq<Step>, i: nat, dto: RecordDTO)
    requires IsRun(s, steps)
  {
    && i < |steps| && steps[i].Serve?
    && IsRun(s, steps[..i]) && Attempts(Run(s, steps[..i]).server, steps[i].op, dto)
  }

  /**
   * In no run of the system is a record that a device sent applied twice: the second of any two upserts
   * of it is answered as a conflict and changes no record, whichever messages and handlers they are of.
   */
  lemma {:induction false} NothingIsAppliedTwice(s: System, steps: seq<Step>, i: nat, j: nat, dto: RecordDTO)
    requires Initial(s) && IsRun(s, steps)
    requires i < j && AttemptsAt(s, steps, i, dto) && AttemptsAt(s, steps, j, dto)
    ensures var before := Run(s, steps[..j]).server;
      var after := ServerStep(before, steps[j].op);
      && after.repo == before.repo
      && after.handlers[steps[j].op.h].results[|before.handlers[steps[j].op.h].results|].status == Conflict
  {
    AttemptedIsSpent(s, steps, i, j, dto);
    SpentIsRefused(Run(s, steps[..j]).server, steps[j].op, dto);
  }

  /** What the i-th step attempts is spent before every later one. */
  lemma {:induction false} AttemptedIsSpent(s: System, steps: seq<Step>, i: nat, j: nat, dto: RecordDTO)
    requires Initial(s) && IsRun(s, steps) && AttemptsAt(s, steps, i, dto)
    requires i < j <= |steps| && IsRun(s, steps[..j])
    ensures Spent(Run(s, steps[..j]).server.repo, dto)
  {
    SpentBehind(s, steps, i, dto);
    assert steps[..j][..i + 1] == steps[..i + 1];
    SpentAlong(s, steps[..j], i + 1, dto);
  }

  lemma {:induction false} SpentBehind(s: System, steps: seq<Step>, i: nat, dto: RecordDTO)
    requires Initial(s) && IsRun(s, steps) && AttemptsAt(s, steps, i, dto)
    ensures IsRun(s, steps[..i + 1]) && Spent(Run(s, steps[..i + 1]).server.repo, dto)
  {
    RunKeepsInv(s, steps[..i]);
    AttemptSpends(Run(s, steps[..i]).server, steps[i].op, dto);
    ServeInRun(s, steps, i);
  }

  /** What is spent after n steps of a run is spent at its end. */
  lemma {:induction false} SpentAlong(s: System, run: seq<Step>, n: nat, dto: RecordDTO)
    requires IsRun(s, run) && n <= |run| && IsRun(s, run[..n])
    requires Spent(Run(s, run[..n]).server.repo, dto)
    ensures Spent(Run(s, run).server.repo, dto)
  {
    SplitRun(s, run, n);
    RunKeepsSpentIn(Run(s, run[..n]), run[n..], dto);
  }

  /** A step of the server in a run is a step of the server alone. */
  lemma {:induction false} ServeInRun(s: System, steps: seq<Step>, i: nat)
    requires IsRun(s, steps) && i < |steps| && steps[i].Serve?
    ensures IsRun(s, steps[..i]) && IsRun(s, steps[..i + 1])
    ensures ServerEnabled(Run(s, steps[..i]).server, steps[i].op)
    ensures Run(s, steps[..i + 1]).server == ServerStep(Run(s, steps[..i]).server, steps[i].op)
  {
    SplitRun(s, steps, i + 1);
    assert steps[..i + 1][..i] == steps[..i];
  }
}
