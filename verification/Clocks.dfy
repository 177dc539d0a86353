/**
 * The later side wins, told by the clocks: a pulled change replaces a change of the user if and only if the
 * server wrote it after the user made it, in every run of the system, whatever way the two have come since.
 */
module Clocks {
  import opened Domain
  import opened Repository
  import opened SyncService
  import opened Merge
  import opened Protocol
  import opened LocalEdits
  import O = Ownership
  import T = Tombstones
  import D = Device

  // ---------------------------------------------------------------- when the server wrote

  /** The clock reading of the step that brought the server's counter to v. */
  ghost function WrittenAt(s: System, steps: seq<Step>, v: nat): Time
    requires IsRun(s, steps) && s.server.repo.counter < v <= Run(s, steps).server.repo.counter
  {
    var n := |steps| - 1;
    if v <= Run(s, steps[..n]).server.repo.counter then WrittenAt(s, steps[..n], v)
    else if steps[n].Serve? then steps[n].op.at
    else 0
  }

  /** A step of the server leaves the repository, or appends one write with the clock reading of the step. */
  lemma {:induction false} StepIsStamped(server: Server, op: ServerOp)
    requires Linear(server.repo) && ServerEnabled(server, op)
    ensures var before, after := server.repo, ServerStep(server, op).repo;
      after == before ||
      (&& after.counter == before.counter + 1 && before.log <= after.log && |after.log| == |before.log| + 1
       && after.log[|before.log|].rec.updatedAt == op.at)
  {
  }

  /** The write with version v bears the clock reading of the step that made it. */
  ghost predicate IsStamped(s: System, steps: seq<Step>, v: nat)
    requires IsRun(s, steps) && s.server.repo.counter < v <= Run(s, steps).server.repo.counter
  {
    var log := Run(s, steps).server.repo.log; v <= |log| && log[v - 1].rec.updatedAt == WrittenAt(s, steps, v)
  }

  lemma {:induction false} StepKeepsStamped(s: System, steps: seq<Step>, v: nat)
    requires IsRun(s, steps) && steps != [] && Linear(Run(s, steps[..|steps| - 1]).server.repo)
    requires s.server.repo.counter < v <= Run(s, steps).server.repo.counter
    requires v <= Run(s, steps[..|steps| - 1]).server.repo.counter ==> IsStamped(s, steps[..|steps| - 1], v)
    ensures IsStamped(s, steps, v)
  {
    var n := |steps| - 1;
    if steps[n].Serve? {
      StepIsStamped(Run(s, steps[..n]).server, steps[n].op);
    }
  }

  lemma {:induction false} WritesAreStamped(s: System, steps: seq<Step>, v: nat)
    requires Initial(s) && IsRun(s, steps) && 1 <= v <= Run(s, steps).server.repo.counter
    ensures IsStamped(s, steps, v)
  {
    var n := |steps| - 1;
    LogIsLinear(s, steps[..n]);
    if v <= Run(s, steps[..n]).server.repo.counter {
      WritesAreStamped(s, steps[..n], v);
    }
    StepKeepsStamped(s, steps, v);
  }

  lemma {:induction false} LogIsLinear(s: System, steps: seq<Step>)
    requires Initial(s) && IsRun(s, steps)
    ensures Linear(Run(s, steps).server.repo)
  {
    O.CursorsStartBehind(s);
    T.RunKeepsInv(s, steps);
  }

  // ---------------------------------------------------------------- what is pulled

  /** The DTO is a write of the log, as it was written. */
  ghost predicate Logged(log: seq<Write>, dto: RecordDTO) {
    && 1 <= dto.version <= |log|
    && var rec := log[dto.version - 1].rec;
    && dto.id == rec.id && DtoContent(dto) == RecordContent(rec) && dto.updatedAt == rec.updatedAt
  }

  ghost predicate MailLogged(log: seq<Write>, mail: Option<Mail>) {
    mail.Some? && mail.value.PullMail? ==>
      forall i :: 0 <= i < |mail.value.dtos| ==> Logged(log, mail.value.dtos[i])
  }

  ghost predicate AllLogged(s: System) {
    forall d :: d in s.nodes ==> MailLogged(s.server.repo.log, s.nodes[d].mail)
  }

  lemma {:induction false} ServeKeepsLogged(s: System, op: ServerOp, to: Option<Dev>)
    requires T.Inv(s) && AllLogged(s) && ServeEnabled(s, op, to)
    ensures AllLogged(ServeNext(s, op, to))
  {
    StepIsStamped(s.server, op);
    assert s.server.repo.log <= ServeNext(s, op, to).server.repo.log;
    forall d | d in s.nodes
      ensures MailLogged(ServeNext(s, op, to).server.repo.log, ServeNext(s, op, to).nodes[d].mail)
    {
      assert MailLogged(s.server.repo.log, s.nodes[d].mail);
    }
  }

  lemma {:induction false} PullAnswerLogged(s: System, dev: Dev, dtos: seq<RecordDTO>)
    requires T.Inv(s) && AllLogged(s) && Enabled(s, ServePull(dev, dtos))
    ensures AllLogged(Next(s, ServePull(dev, dtos)))
  {
    forall i | 0 <= i < |dtos| ensures Logged(s.server.repo.log, dtos[i]) {
      CurrentIsLogged(s.server.repo, dtos[i].id);
    }
  }

  lemma {:induction false} StepKeepsLogged(s: System, step: Step)
    requires T.Inv(s) && AllLogged(s) && Enabled(s, step)
    ensures AllLogged(Next(s, step))
  {
    match step
    case Local(_, _) =>
    case ServePull(dev, dtos) => PullAnswerLogged(s, dev, dtos);
    case Serve(op, to) => ServeKeepsLogged(s, op, to);
    case Export(_) =>
  }

  lemma {:induction false} RunKeepsLogged(s: System, steps: seq<Step>)
    requires T.Inv(s) && AllLogged(s) && IsRun(s, steps)
    ensures AllLogged(Run(s, steps))
  {
    if steps != [] {
      var n := |steps| - 1;
      RunKeepsLogged(s, steps[..n]);
      T.RunKeepsInv(s, steps[..n]);
      StepKeepsLogged(Run(s, steps[..n]), steps[n]);
    }
  }

  lemma {:induction false} AllIsLogged(s: System, steps: seq<Step>)
    requires Initial(s) && IsRun(s, steps)
    ensures AllLogged(Run(s, steps))
  {
    O.CursorsStartBehind(s);
    RunKeepsLogged(s, steps);
  }

  // ---------------------------------------------------------------- when the user edited

  /** The job makes a copy under this id, of the side that loses. */
  ghost predicate Copies(before: Records, jobs: seq<Job>, id: Id, j: Job) {
    j in jobs && Forks(before, j.incoming) && j.copy.id == id
  }

  /**
   * When the record that now stands under id on dev came to be as the user wants it: at the last edit of it,
   * or of the record of which it is a conflict copy, or at the making of the copy if it is of a record of
   * the server.
   */
  ghost function EditedAt(s: System, steps: seq<Step>, dev: Dev, id: Id): Time
    requires IsRun(s, steps)
    decreases |steps|
  {
    if steps == [] then 0
    else
      var n := |steps| - 1;
      var before := Run(s, steps[..n]);
      var records := if dev in before.nodes then before.nodes[dev].device.store.records else map[];
      if !steps[n].Local? || steps[n].dev != dev then EditedAt(s, steps[..n], dev, id)
      else
        match steps[n].e
        case Edited(edit) =>
          if id in TouchedIds(edit) && Takes(records, edit) then edit.at else EditedAt(s, steps[..n], dev, id)
        case PullDelivered(jobs, _) =>
          if exists j :: Copies(records, jobs, id, j) then
            var j :| Copies(records, jobs, id, j);
            if records[j.incoming.id].dto.isDeleted && !j.incoming.isDeleted then j.copy.at
            else EditedAt(s, steps[..n], dev, j.incoming.id)
          else EditedAt(s, steps[..n], dev, id)
        case _ => EditedAt(s, steps[..n], dev, id)
  }

  lemma EditIsStamped(records: Records, edit: D.Edit, id: Id)
    requires Keyed(records) && IsDirty(D.ApplyEdit(records, edit), id)
    ensures if id in TouchedIds(edit) && Takes(records, edit) then D.ApplyEdit(records, edit)[id].dirtyAt == edit.at
            else id in records && D.ApplyEdit(records, edit)[id] == records[id]
  {
    if edit.Import? {
      LastIsThere(edit.dtos, id);
      D.ImportedIsLast(records, edit.dtos, edit.at, id);
    }
  }

  /** A record that is dirty after a merge was so before, at the same time, or is a copy. */
  lemma {:induction false} MergeIsStamped(records: Records, jobs: seq<Job>, id: Id)
    requires Keyed(records) && DistinctIncoming(jobs) && FreshCopies(records, jobs)
    requires IsDirty(MergeAll(records, jobs), id)
    ensures (forall j :: !Copies(records, jobs, id, j)) ==>
              IsDirty(records, id) && MergeAll(records, jobs)[id].dirtyAt == records[id].dirtyAt
    ensures forall j :: Copies(records, jobs, id, j) ==>
              && IsDirty(records, j.incoming.id)
              && MergeAll(records, jobs)[id].dirtyAt ==
                 if records[j.incoming.id].dto.isDeleted && !j.incoming.isDeleted then j.copy.at
                 else records[j.incoming.id].dirtyAt
  {
    MergeAllIsMerge(records, jobs);
    if id in CopyIds(records, jobs) {
      var j :| j in jobs && Forks(records, j.incoming) && j.copy.id == id;
      assert Copies(records, jobs, id, j);
    } else if id in IncomingIds(jobs) {
      var j :| j in jobs && j.incoming.id == id;
      assert MergeAll(records, jobs)[id] == Kept(records, j.incoming);
    }
  }

  /** A record that is dirty after a reply was so before, and is the same. */
  lemma ReplyIsStamped(records: Records, results: seq<PushResult>, id: Id)
    requires IsDirty(D.PutApplied(records, results), id)
    ensures id in records && D.PutApplied(records, results)[id] == records[id]
  {
    if i :| 0 <= i < |results| && results[i].status == Applied && results[i].serverRecord.id == id {
      AppliedIsClean(records, results, i);
    } else {
      D.NotTouched(records, results, id);
    }
  }

  lemma {:induction false} AppliedIsClean(records: Records, results: seq<PushResult>, i: nat)
    requires i < |results| && results[i].status == Applied
    ensures !IsDirty(D.PutApplied(records, results), results[i].serverRecord.id)
  {
    if i < |results| - 1 {
      AppliedIsClean(records, results[..|results| - 1], i);
    }
  }

  ghost predicate DirtyTimesTold(s: System, steps: seq<Step>, dev: Dev)
    requires IsRun(s, steps)
  {
    dev in Run(s, steps).nodes &&
    forall id :: IsDirty(Run(s, steps).nodes[dev].device.store.records, id) ==>
      Run(s, steps).nodes[dev].device.store.records[id].dirtyAt == EditedAt(s, steps, dev, id)
  }

  lemma {:induction false} EditTellsTime(s: System, steps: seq<Step>, dev: Dev, id: Id)
    requires IsRun(s, steps) && steps != [] && DirtyTimesTold(s, steps[..|steps| - 1], dev)
    requires D.Disciplined(Run(s, steps[..|steps| - 1]).nodes[dev].device)
    requires steps[|steps| - 1].Local? && steps[|steps| - 1].dev == dev && steps[|steps| - 1].e.Edited?
    requires IsDirty(Run(s, steps).nodes[dev].device.store.records, id)
    ensures Run(s, steps).nodes[dev].device.store.records[id].dirtyAt == EditedAt(s, steps, dev, id)
  {
    var n := |steps| - 1;
    EditIsStamped(Run(s, steps[..n]).nodes[dev].device.store.records, steps[n].e.edit, id);
  }

  lemma {:induction false} PullTellsTime(s: System, steps: seq<Step>, dev: Dev, id: Id)
    requires IsRun(s, steps) && steps != [] && DirtyTimesTold(s, steps[..|steps| - 1], dev)
    requires D.Disciplined(Run(s, steps[..|steps| - 1]).nodes[dev].device)
    requires steps[|steps| - 1].Local? && steps[|steps| - 1].dev == dev && steps[|steps| - 1].e.PullDelivered?
    requires IsDirty(Run(s, steps).nodes[dev].device.store.records, id)
    ensures Run(s, steps).nodes[dev].device.store.records[id].dirtyAt == EditedAt(s, steps, dev, id)
  {
    var n := |steps| - 1;
    MergeIsStamped(Run(s, steps[..n]).nodes[dev].device.store.records, steps[n].e.jobs, id);
  }

  lemma {:induction false} OtherEventTellsTime(s: System, steps: seq<Step>, dev: Dev, id: Id)
    requires IsRun(s, steps) && steps != [] && DirtyTimesTold(s, steps[..|steps| - 1], dev)
    requires steps[|steps| - 1].Local? && steps[|steps| - 1].dev == dev
    requires !steps[|steps| - 1].e.Edited? && !steps[|steps| - 1].e.PullDelivered?
    requires IsDirty(Run(s, steps).nodes[dev].device.store.records, id)
    ensures Run(s, steps).nodes[dev].device.store.records[id].dirtyAt == EditedAt(s, steps, dev, id)
  {
    var n := |steps| - 1;
    if steps[n].e.PushDelivered? {
      ReplyIsStamped(Run(s, steps[..n]).nodes[dev].device.store.records, steps[n].e.results, id);
    }
  }

  lemma {:induction false} ElsewhereTellsTime(s: System, steps: seq<Step>, dev: Dev, id: Id)
    requires IsRun(s, steps) && steps != [] && DirtyTimesTold(s, steps[..|steps| - 1], dev)
    requires !(steps[|steps| - 1].Local? && steps[|steps| - 1].dev == dev)
    requires IsDirty(Run(s, steps).nodes[dev].device.store.records, id)
    ensures Run(s, steps).nodes[dev].device.store.records[id].dirtyAt == EditedAt(s, steps, dev, id)
  {
    assert Run(s, steps).nodes[dev].device == Run(s, steps[..|steps| - 1]).nodes[dev].device;
  }

  lemma {:induction false} StepTellsTime(s: System, steps: seq<Step>, dev: Dev, id: Id)
    requires IsRun(s, steps) && steps != [] && DirtyTimesTold(s, steps[..|steps| - 1], dev)
    requires D.Disciplined(Run(s, steps[..|steps| - 1]).nodes[dev].device)
    requires IsDirty(Run(s, steps).nodes[dev].device.store.records, id)
    ensures Run(s, steps).nodes[dev].device.store.records[id].dirtyAt == EditedAt(s, steps, dev, id)
  {
    var step := steps[|steps| - 1];
    if !(step.Local? && step.dev == dev) {
      ElsewhereTellsTime(s, steps, dev, id);
    } else if step.e.Edited? {
      EditTellsTime(s, steps, dev, id);
    } else if step.e.PullDelivered? {
      PullTellsTime(s, steps, dev, id);
    } else {
      OtherEventTellsTime(s, steps, dev, id);
    }
  }

  /** A dirty record bears the time of the user's edit. */
  lemma {:induction false} DirtyTimesAreEditTimes(s: System, steps: seq<Step>, dev: Dev)
    requires Initial(s) && IsRun(s, steps) && dev in s.nodes
    ensures DirtyTimesTold(s, steps, dev) && D.Disciplined(Run(s, steps).nodes[dev].device)
  {
    O.InitialInv(s);
    O.RunKeepsInv(s, steps);
    if steps != [] {
      var n := |steps| - 1;
      DirtyTimesAreEditTimes(s, steps[..n], dev);
      assert O.NodeOf(Run(s, steps).registry, Run(s, steps).nodes[dev]);
      forall id | IsDirty(Run(s, steps).nodes[dev].device.store.records, id)
        ensures Run(s, steps).nodes[dev].device.store.records[id].dirtyAt == EditedAt(s, steps, dev, id)
      {
        StepTellsTime(s, steps, dev, id);
      }
    }
  }

  // ---------------------------------------------------------------- the later side wins

  /** By its stamps the later side wins, if both or neither are deletions. */
  lemma {:induction false} LaterStampWins(before: Records, jobs: seq<Job>, j: Job)
    requires Keyed(before) && DistinctIncoming(jobs) && FreshCopies(before, jobs) && j in jobs
    requires IsDirty(before, j.incoming.id) && before[j.incoming.id].dto.isDeleted == j.incoming.isDeleted
    ensures var after := MergeAll(before, jobs);
      ServerSideWon(before, after, j) || UserSideWon(before, after, j)
    ensures ServerSideWon(before, MergeAll(before, jobs), j) <==>
            j.incoming.updatedAt > before[j.incoming.id].dirtyAt
  {
    MergeAllIsMerge(before, jobs);
    assert MergeAll(before, jobs)[j.incoming.id] == Kept(before, j.incoming);
    if Forks(before, j.incoming) {
      assert j.copy.id in CopyIds(before, jobs);
    }
  }

  /** The record is what was pulled, clean, and the user's is kept under a new id, dirty. */
  ghost predicate ServerSideWon(before: Records, after: Records, j: Job)
    requires j.incoming.id in before
  {
    && j.incoming.id in after && !after[j.incoming.id].dirty && after[j.incoming.id].dto == j.incoming
    && j.copy.id !in before && IsDirty(after, j.copy.id)
    && DtoContent(after[j.copy.id].dto) == DtoContent(before[j.incoming.id].dto)
    && after[j.copy.id].dirtyAt == before[j.incoming.id].dirtyAt
  }

  /** The record is the user's still, to be pushed over what was pulled. */
  ghost predicate UserSideWon(before: Records, after: Records, j: Job)
    requires j.incoming.id in before
  {
    && IsDirty(after, j.incoming.id)
    && DtoContent(after[j.incoming.id].dto) == DtoContent(before[j.incoming.id].dto)
    && after[j.incoming.id].dto.baseVersion == j.incoming.version
    && after[j.incoming.id].dirtyAt == before[j.incoming.id].dirtyAt
  }

  lemma {:induction false} PulledTimeIsTold(
    s: System, steps: seq<Step>, dev: Dev, jobs: seq<Job>, dirty: seq<StoredRecord>, j: Job)
    requires Initial(s) && IsRun(s, steps) && j in jobs
    requires Enabled(Run(s, steps), Local(dev, D.PullDelivered(jobs, dirty)))
    ensures Logged(Run(s, steps).server.repo.log, j.incoming)
    ensures j.incoming.version <= Run(s, steps).server.repo.counter
    ensures j.incoming.updatedAt == WrittenAt(s, steps, j.incoming.version)
  {
    AllIsLogged(s, steps);
    LogIsLinear(s, steps);
    PulledIsLogged(Run(s, steps), dev, jobs, j);
    WritesAreStamped(s, steps, j.incoming.version);
  }

  lemma {:induction false} EditTimeIsTold(s: System, steps: seq<Step>, dev: Dev, id: Id)
    requires Initial(s) && IsRun(s, steps) && dev in s.nodes && dev in Run(s, steps).nodes
    requires IsDirty(Run(s, steps).nodes[dev].device.store.records, id)
    ensures Run(s, steps).nodes[dev].device.store.records[id].dirtyAt == EditedAt(s, steps, dev, id)
    ensures Keyed(Run(s, steps).nodes[dev].device.store.records)
  {
    DirtyTimesAreEditTimes(s, steps, dev);
  }

  /**
   * A pull brings a change of a record that the user has changed as well, and both or neither of the two are
   * deletions. The pulled record is the server's write of its version, as it was written. It replaces the
   * user's if and only if the server wrote it after the user's edit; the user's is then kept under a new id.
   * Otherwise the user's stays, to be pushed over that write.
   */
  lemma {:induction false} LaterSideWins(
    s: System, steps: seq<Step>, dev: Dev, jobs: seq<Job>, dirty: seq<StoredRecord>, j: Job)
    requires Initial(s) && IsRun(s, steps) && dev in s.nodes
    requires Enabled(Run(s, steps), Local(dev, D.PullDelivered(jobs, dirty))) && j in jobs
    requires var records := Run(s, steps).nodes[dev].device.store.records;
      IsDirty(records, j.incoming.id) && records[j.incoming.id].dto.isDeleted == j.incoming.isDeleted
    ensures Logged(Run(s, steps).server.repo.log, j.incoming) && j.incoming.version <= Run(s, steps).server.repo.counter
    ensures var before := Run(s, steps).nodes[dev].device.store.records;
      var after := Next(Run(s, steps), Local(dev, D.PullDelivered(jobs, dirty))).nodes[dev].device.store.records;
      && (ServerSideWon(before, after, j) || UserSideWon(before, after, j))
      && (ServerSideWon(before, after, j) <==>
          WrittenAt(s, steps, j.incoming.version) > EditedAt(s, steps, dev, j.incoming.id))
  {
    PulledTimeIsTold(s, steps, dev, jobs, dirty, j);
    EditTimeIsTold(s, steps, dev, j.incoming.id);
    LaterStampWins(Run(s, steps).nodes[dev].device.store.records, jobs, j);
  }

  lemma PulledIsLogged(s: System, dev: Dev, jobs: seq<Job>, j: Job)
    requires AllLogged(s) && dev in s.nodes && s.nodes[dev].mail == Some(PullMail(D.IncomingOf(jobs))) && j in jobs
    ensures Logged(s.server.repo.log, j.incoming)
  {
    assert MailLogged(s.server.repo.log, s.nodes[dev].mail);
    var i :| 0 <= i < |jobs| && jobs[i] == j;
    assert D.IncomingOf(jobs)[i] == j.incoming;
  }
}
