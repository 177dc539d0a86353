/**
 * How a pulled set of records is merged into a device's records: fast-forward for clean records,
 * conflict resolution for dirty ones.
 */
module Merge {
  import opened Domain

  type Records = map<Id, StoredRecord>

  /** The fresh id and the clock reading a conflict copy gets, should one be made. */
  datatype Stamp = Stamp(id: Id, at: Time)

  /** One pulled record together with the stamp of its conflict copy. */
  datatype Job = Job(incoming: RecordDTO, copy: Stamp)

  ghost predicate Keyed(records: Records) {
    forall id :: id in records ==> records[id].dto.id == id
  }

  function Put(records: Records, r: StoredRecord): Records {
    records[r.dto.id := r]
  }

  /** A record exactly as the server has it. */
  function Clean(dto: RecordDTO): StoredRecord {
    StoredRecord(dto, false, 0)
  }

  function Rebased(local: StoredRecord, version: int): StoredRecord {
    local.(dto := local.dto.(baseVersion := version))
  }

  function CopyOfLocal(local: StoredRecord, stamp: Stamp): StoredRecord {
    local.(dto := local.dto.(id := stamp.id, baseVersion := 0))
  }

  function CopyOfIncoming(dto: RecordDTO, stamp: Stamp): StoredRecord {
    StoredRecord(dto.(id := stamp.id, baseVersion := 0), true, stamp.at)
  }

  /** The four cases of a conflict, in the order in which they are tried. */
  function Resolve(records: Records, local: StoredRecord, job: Job): Records {
    var incoming := job.incoming;
    if local.dto.isDeleted && !incoming.isDeleted then
      Put(Put(records, CopyOfIncoming(incoming, job.copy)), Rebased(local, incoming.version))
    else if !local.dto.isDeleted && incoming.isDeleted then
      Put(Put(records, CopyOfLocal(local, job.copy)), Clean(incoming))
    else if incoming.updatedAt > local.dirtyAt then
      Put(Put(records, CopyOfLocal(local, job.copy)), Clean(incoming))
    else
      Put(records, Rebased(local, incoming.version))
  }

  function MergeOne(records: Records, job: Job): Records {
    if job.incoming.id in records && records[job.incoming.id].dirty then
      Resolve(records, records[job.incoming.id], job)
    else
      Put(records, Clean(job.incoming))
  }

  /** What the loop over the pulled records computes, in the order they came. */
  function MergeAll(records: Records, jobs: seq<Job>): Records {
    if jobs == [] then records
    else MergeOne(MergeAll(records, jobs[..|jobs| - 1]), jobs[|jobs| - 1])
  }

  // ---------------------------------------------------------------- the merge without an order

  predicate InConflict(before: Records, incoming: RecordDTO) {
    incoming.id in before && before[incoming.id].dirty
  }

  /** Delete wins over update whatever the clocks say; otherwise the later side wins. */
  predicate ServerWins(local: StoredRecord, incoming: RecordDTO) {
    if local.dto.isDeleted != incoming.isDeleted then incoming.isDeleted
    else incoming.updatedAt > local.dirtyAt
  }

  /** The conflict leaves a copy under a fresh id. */
  predicate Forks(before: Records, incoming: RecordDTO) {
    && InConflict(before, incoming)
    && (ServerWins(before[incoming.id], incoming) || (before[incoming.id].dto.isDeleted && !incoming.isDeleted))
  }

  function Kept(before: Records, incoming: RecordDTO): StoredRecord {
    if InConflict(before, incoming) && !ServerWins(before[incoming.id], incoming)
    then Rebased(before[incoming.id], incoming.version)
    else Clean(incoming)
  }

  function CopyMade(before: Records, job: Job): StoredRecord
    requires Forks(before, job.incoming)
  {
    if ServerWins(before[job.incoming.id], job.incoming)
    then CopyOfLocal(before[job.incoming.id], job.copy)
    else CopyOfIncoming(job.incoming, job.copy)
  }

  function IncomingIds(jobs: seq<Job>): set<Id> {
    set j | j in jobs :: j.incoming.id
  }

  function CopyIds(before: Records, jobs: seq<Job>): set<Id> {
    set j | j in jobs && Forks(before, j.incoming) :: j.copy.id
  }

  ghost predicate DistinctIncoming(jobs: seq<Job>) {
    forall i, j :: 0 <= i < j < |jobs| ==> jobs[i].incoming.id != jobs[j].incoming.id
  }

  /** The ids of the copies that are made are new and differ from each other. */
  ghost predicate FreshCopies(before: Records, jobs: seq<Job>) {
    && CopyIds(before, jobs) !! before.Keys + IncomingIds(jobs)
    && (forall i, j :: 0 <= i < j < |jobs| && Forks(before, jobs[i].incoming) && Forks(before, jobs[j].incoming) ==>
          jobs[i].copy.id != jobs[j].copy.id)
  }

  /** The merged records, id by id: the order of the jobs does not occur. */
  ghost predicate IsMerge(before: Records, jobs: seq<Job>, after: Records) {
    && after.Keys == before.Keys + IncomingIds(jobs) + CopyIds(before, jobs)
    && (forall j :: j in jobs ==> after[j.incoming.id] == Kept(before, j.incoming))
    && (forall j :: j in jobs && Forks(before, j.incoming) ==> after[j.copy.id] == CopyMade(before, j))
    && (forall id :: id in before && id !in IncomingIds(jobs) ==> after[id] == before[id])
  }

  lemma JobSets(before: Records, jobs: seq<Job>, job: Job)
    ensures IncomingIds(jobs + [job]) == IncomingIds(jobs) + {job.incoming.id}
    ensures CopyIds(before, jobs + [job]) ==
            CopyIds(before, jobs) + if Forks(before, job.incoming) then {job.copy.id} else {}
  {
  }

  /** Merging a record that no earlier job touched. */
  lemma MergeOneAt(before: Records, sofar: Records, job: Job)
    requires Keyed(before)
    requires job.incoming.id in sofar <==> job.incoming.id in before
    requires job.incoming.id in before ==> sofar[job.incoming.id] == before[job.incoming.id]
    ensures MergeOne(sofar, job) ==
            if Forks(before, job.incoming)
            then sofar[job.copy.id := CopyMade(before, job)][job.incoming.id := Kept(before, job.incoming)]
            else sofar[job.incoming.id := Kept(before, job.incoming)]
  {
  }

  /** The last job is about an id of its own, and no earlier job made its copy. */
  lemma LastJobApart(before: Records, jobs: seq<Job>, job: Job)
    requires DistinctIncoming(jobs + [job]) && FreshCopies(before, jobs + [job])
    ensures job.incoming.id !in IncomingIds(jobs) + CopyIds(before, jobs)
    ensures Forks(before, job.incoming) ==>
              && job.copy.id !in before.Keys + IncomingIds(jobs) + CopyIds(before, jobs)
              && job.copy.id != job.incoming.id
  {
    var all := jobs + [job];
    JobSets(before, jobs, job);
    assert all[|jobs|] == job;
    forall j | j in jobs
      ensures j.incoming.id != job.incoming.id
      ensures Forks(before, j.incoming) && Forks(before, job.incoming) ==> j.copy.id != job.copy.id
    {
      var i :| 0 <= i < |jobs| && jobs[i] == j;
      assert all[i] == j;
    }
  }

  lemma MergeStep(before: Records, jobs: seq<Job>, job: Job, sofar: Records)
    requires Keyed(before) && DistinctIncoming(jobs + [job]) && FreshCopies(before, jobs + [job])
    requires IsMerge(before, jobs, sofar)
    ensures IsMerge(before, jobs + [job], MergeOne(sofar, job))
  {
    JobSets(before, jobs, job);
    LastJobApart(before, jobs, job);
    MergeOneAt(before, sofar, job);
    var after := MergeOne(sofar, job);
    forall j | j in jobs ensures after[j.incoming.id] == Kept(before, j.incoming) {
      assert j.incoming.id in IncomingIds(jobs);
    }
    forall j | j in jobs && Forks(before, j.incoming) ensures after[j.copy.id] == CopyMade(before, j) {
      assert j.copy.id in CopyIds(before, jobs);
    }
    MergeJoin(before, jobs, job, after);
  }

  lemma MergeJoin(before: Records, jobs: seq<Job>, job: Job, after: Records)
    requires after.Keys == before.Keys + IncomingIds(jobs + [job]) + CopyIds(before, jobs + [job])
    requires IncomingIds(jobs + [job]) == IncomingIds(jobs) + {job.incoming.id}
    requires CopyIds(before, jobs + [job]) ==
             CopyIds(before, jobs) + if Forks(before, job.incoming) then {job.copy.id} else {}
    requires forall j :: j in jobs ==> j.incoming.id in after && after[j.incoming.id] == Kept(before, j.incoming)
    requires forall j :: j in jobs && Forks(before, j.incoming) ==>
               j.copy.id in after && after[j.copy.id] == CopyMade(before, j)
    requires after[job.incoming.id] == Kept(before, job.incoming)
    requires Forks(before, job.incoming) ==> after[job.copy.id] == CopyMade(before, job)
    requires forall id :: id in before && id !in IncomingIds(jobs + [job]) ==> after[id] == before[id]
    ensures IsMerge(before, jobs + [job], after)
  {
  }

  /** The loop computes the order-free merge. */
  lemma {:induction false} MergeAllIsMerge(before: Records, jobs: seq<Job>)
    requires Keyed(before) && DistinctIncoming(jobs) && FreshCopies(before, jobs)
    ensures IsMerge(before, jobs, MergeAll(before, jobs))
  {
    if jobs != [] {
      var n := |jobs| - 1;
      assert jobs[..n] + [jobs[n]] == jobs;
      assert forall j :: j in jobs[..n] ==> j in jobs;
      assert CopyIds(before, jobs[..n]) <= CopyIds(before, jobs);
      assert IncomingIds(jobs[..n]) <= IncomingIds(jobs);
      MergeAllIsMerge(before, jobs[..n]);
      MergeStep(before, jobs[..n], jobs[n], MergeAll(before, jobs[..n]));
    }
  }

  /** A merge is determined, id by id, by which jobs there are. */
  lemma MergeIsUnique(before: Records, jobs: seq<Job>, reordered: seq<Job>, a: Records, b: Records, id: Id)
    requires IsMerge(before, jobs, a) && IsMerge(before, reordered, b)
    requires forall j :: j in jobs <==> j in reordered
    requires id in a
    ensures id in b && a[id] == b[id]
  {
    if id in IncomingIds(jobs) {
      var j :| j in jobs && j.incoming.id == id;
      assert j in reordered;
    } else if id in CopyIds(before, jobs) {
      var j :| j in jobs && Forks(before, j.incoming) && j.copy.id == id;
      assert j in reordered;
    } else {
      assert id !in IncomingIds(reordered);
    }
  }

  lemma {:induction false} MergesAgree(before: Records, jobs: seq<Job>, reordered: seq<Job>, a: Records, b: Records)
    requires IsMerge(before, jobs, a) && IsMerge(before, reordered, b)
    requires forall j :: j in jobs <==> j in reordered
    ensures a == b
  {
    forall id ensures id in a ==> id in b && a[id] == b[id]
      ensures id in b ==> id in a
    {
      if id in a { MergeIsUnique(before, jobs, reordered, a, b, id); }
      if id in b { MergeIsUnique(before, reordered, jobs, b, a, id); }
    }
  }

  lemma SameJobs(jobs: seq<Job>, reordered: seq<Job>)
    requires multiset(jobs) == multiset(reordered)
    ensures forall j :: j in jobs <==> j in reordered
  {
    forall j ensures j in jobs <==> j in reordered {
      assert j in jobs <==> j in multiset(jobs);
      assert j in reordered <==> j in multiset(reordered);
    }
  }

  /** Whatever order the server lists the records in, the store ends the same. */
  lemma {:induction false} MergeOrderIrrelevant(before: Records, jobs: seq<Job>, reordered: seq<Job>)
    requires Keyed(before) && DistinctIncoming(jobs) && FreshCopies(before, jobs)
    requires DistinctIncoming(reordered) && FreshCopies(before, reordered)
    requires multiset(jobs) == multiset(reordered)
    ensures MergeAll(before, jobs) == MergeAll(before, reordered)
  {
    MergeAllIsMerge(before, jobs);
    MergeAllIsMerge(before, reordered);
    SameJobs(jobs, reordered);
    MergesAgree(before, jobs, reordered, MergeAll(before, jobs), MergeAll(before, reordered));
  }

  // ---------------------------------------------------------------- another order, other copy ids

  ghost function Incomings(jobs: seq<Job>): set<RecordDTO> {
    set j | j in jobs :: j.incoming
  }

  /** The job that brings the record. */
  ghost function JobFor(jobs: seq<Job>, incoming: RecordDTO): (j: Job)
    requires incoming in Incomings(jobs)
    ensures j in jobs && j.incoming == incoming
  {
    var j :| j in jobs && j.incoming == incoming;
    j
  }

  /** The job that makes the copy. */
  ghost function MakerOf(before: Records, jobs: seq<Job>, id: Id): (j: Job)
    requires id in CopyIds(before, jobs)
    ensures j in jobs && Forks(before, j.incoming) && j.copy.id == id
  {
    var j :| j in jobs && Forks(before, j.incoming) && j.copy.id == id;
    j
  }

  /** The id of the copy in the other merge that stands for the copy with this id. */
  ghost function CopyIn(before: Records, jobs: seq<Job>, other: seq<Job>, id: Id): Id
    requires Incomings(jobs) <= Incomings(other) && id in CopyIds(before, jobs)
  {
    JobFor(other, MakerOf(before, jobs, id).incoming).copy.id
  }

  ghost predicate OneClock(jobs: seq<Job>, at: Time) {
    forall j :: j in jobs ==> j.copy.at == at
  }

  /** A copy under another id; if it is of a pulled record, it may bear another clock reading. */
  ghost predicate SameCopy(r: StoredRecord, r': StoredRecord, id': Id) {
    r' == r.(dto := r.dto.(id := id'), dirtyAt := r'.dirtyAt)
  }

  /** One merge is the other with the copies renamed. */
  ghost predicate SameButForCopies(before: Records, jobs: seq<Job>, other: seq<Job>, a: Records, b: Records)
    requires Incomings(jobs) <= Incomings(other)
  {
    && (forall id :: id in a && id !in CopyIds(before, jobs) ==>
         id in b && id !in CopyIds(before, other) && b[id] == a[id])
    && (forall id :: id in CopyIds(before, jobs) ==>
          var id' := CopyIn(before, jobs, other, id);
          id in a && id' in b && id' in CopyIds(before, other) && SameCopy(a[id], b[id'], id'))
  }

  lemma {:induction false} CopyMatches(before: Records, jobs: seq<Job>, other: seq<Job>, a: Records, b: Records, id: Id)
    requires Incomings(jobs) <= Incomings(other) && IsMerge(before, jobs, a) && IsMerge(before, other, b)
    requires id in CopyIds(before, jobs)
    ensures var id' := CopyIn(before, jobs, other, id);
      id in a && id' in b && id' in CopyIds(before, other) && SameCopy(a[id], b[id'], id')
    ensures forall at :: OneClock(jobs, at) && OneClock(other, at) ==>
              b[CopyIn(before, jobs, other, id)].dirtyAt == a[id].dirtyAt
  {
  }

  /** The renaming back undoes the renaming. */
  lemma {:induction false} CopyBack(before: Records, jobs: seq<Job>, other: seq<Job>, id: Id)
    requires Incomings(jobs) == Incomings(other) && id in CopyIds(before, jobs)
    requires DistinctIncoming(jobs) && FreshCopies(before, other)
    ensures CopyIn(before, jobs, other, id) in CopyIds(before, other)
    ensures CopyIn(before, other, jobs, CopyIn(before, jobs, other, id)) == id
  {
  }

  lemma {:induction false} OriginalMatches(
    before: Records, jobs: seq<Job>, other: seq<Job>, a: Records, b: Records, id: Id)
    requires FreshCopies(before, other) && Incomings(jobs) == Incomings(other)
    requires IsMerge(before, jobs, a) && IsMerge(before, other, b)
    requires id in a && id !in CopyIds(before, jobs)
    ensures id in b && id !in CopyIds(before, other) && b[id] == a[id]
  {
    IdsOfIncomings(jobs);
    IdsOfIncomings(other);
    if j :| j in jobs && j.incoming.id == id {
      assert j.incoming in Incomings(other);
      var k := JobFor(other, j.incoming);
      assert a[id] == Kept(before, j.incoming) && b[k.incoming.id] == Kept(before, k.incoming);
    }
  }

  lemma IdsOfIncomings(jobs: seq<Job>)
    ensures IncomingIds(jobs) == set dto | dto in Incomings(jobs) :: dto.id
  {
  }

  lemma {:induction false} OneWaySame(before: Records, jobs: seq<Job>, other: seq<Job>, a: Records, b: Records)
    requires FreshCopies(before, other) && Incomings(jobs) == Incomings(other)
    requires IsMerge(before, jobs, a) && IsMerge(before, other, b)
    ensures SameButForCopies(before, jobs, other, a, b)
  {
    forall id | id in a && id !in CopyIds(before, jobs)
      ensures id in b && id !in CopyIds(before, other) && b[id] == a[id]
    {
      OriginalMatches(before, jobs, other, a, b, id);
    }
    forall id | id in CopyIds(before, jobs)
      ensures var id' := CopyIn(before, jobs, other, id);
        id in a && id' in b && id' in CopyIds(before, other) && SameCopy(a[id], b[id'], id')
    {
      CopyMatches(before, jobs, other, a, b, id);
    }
  }

  /**
   * The order of the pulled records does not matter but for the names of the copies, which are drawn as the
   * records come: between the stores of two merges of the same records there is a one-to-one renaming of
   * the copies, and nothing else differs but the clock readings at which pulled records were copied.
   */
  lemma {:induction false} MergeOrderRenamesCopies(before: Records, jobs: seq<Job>, other: seq<Job>)
    requires Keyed(before) && DistinctIncoming(jobs) && FreshCopies(before, jobs)
    requires DistinctIncoming(other) && FreshCopies(before, other) && Incomings(jobs) == Incomings(other)
    ensures SameButForCopies(before, jobs, other, MergeAll(before, jobs), MergeAll(before, other))
    ensures SameButForCopies(before, other, jobs, MergeAll(before, other), MergeAll(before, jobs))
    ensures forall id :: id in CopyIds(before, jobs) ==>
              && CopyIn(before, jobs, other, id) in CopyIds(before, other)
              && CopyIn(before, other, jobs, CopyIn(before, jobs, other, id)) == id
    ensures forall id, at :: id in CopyIds(before, jobs) && OneClock(jobs, at) && OneClock(other, at) ==>
              var id' := CopyIn(before, jobs, other, id);
              && id in MergeAll(before, jobs) && id' in MergeAll(before, other)
              && MergeAll(before, other)[id'].dirtyAt == MergeAll(before, jobs)[id].dirtyAt
  {
    var a, b := MergeAll(before, jobs), MergeAll(before, other);
    MergeAllIsMerge(before, jobs);
    MergeAllIsMerge(before, other);
    OneWaySame(before, jobs, other, a, b);
    OneWaySame(before, other, jobs, b, a);
    forall id | id in CopyIds(before, jobs)
      ensures CopyIn(before, jobs, other, id) in CopyIds(before, other)
      ensures CopyIn(before, other, jobs, CopyIn(before, jobs, other, id)) == id
      ensures forall at :: OneClock(jobs, at) && OneClock(other, at) ==>
                b[CopyIn(before, jobs, other, id)].dirtyAt == a[id].dirtyAt
    {
      CopyBack(before, jobs, other, id);
      CopyMatches(before, jobs, other, a, b, id);
    }
  }

  // ---------------------------------------------------------------- what a merge keeps

  /** Where a dirty record is after the merge: under its own id, or under that of its conflict copy. */
  ghost function Heir(before: Records, jobs: seq<Job>, id: Id): Id
    requires id in before
  {
    if exists j :: j in jobs && j.incoming.id == id
                   && InConflict(before, j.incoming) && ServerWins(before[id], j.incoming)
    then
      var j :| j in jobs && j.incoming.id == id && InConflict(before, j.incoming) && ServerWins(before[id], j.incoming);
      j.copy.id
    else id
  }

  ghost predicate IsDirty(records: Records, id: Id) {
    id in records && records[id].dirty
  }

  lemma HeirOf(before: Records, jobs: seq<Job>, j: Job)
    requires DistinctIncoming(jobs) && j in jobs && InConflict(before, j.incoming)
    ensures Heir(before, jobs, j.incoming.id) ==
            if ServerWins(before[j.incoming.id], j.incoming) then j.copy.id else j.incoming.id
  {
  }

  lemma HeirIsDirty(before: Records, jobs: seq<Job>, id: Id)
    requires Keyed(before) && DistinctIncoming(jobs) && FreshCopies(before, jobs)
    requires IsDirty(before, id)
    ensures var after := MergeAll(before, jobs);
      var heir := Heir(before, jobs, id);
      IsDirty(after, heir) && DtoContent(after[heir].dto) == DtoContent(before[id].dto)
  {
    MergeAllIsMerge(before, jobs);
    if id in IncomingIds(jobs) {
      var j :| j in jobs && j.incoming.id == id;
      HeirOf(before, jobs, j);
      assert MergeAll(before, jobs)[id] == Kept(before, j.incoming);
    }
  }

  lemma HeirsDiffer(before: Records, jobs: seq<Job>, id: Id, other: Id)
    requires Keyed(before) && DistinctIncoming(jobs) && FreshCopies(before, jobs)
    requires id in before && other in before && id != other
    ensures Heir(before, jobs, id) != Heir(before, jobs, other)
  {
  }

  /** No dirty record is lost in a merge: each lives on, dirty and with its content, and no two become one. */
  lemma {:induction false} DirtySurvivesMerge(before: Records, jobs: seq<Job>)
    requires Keyed(before) && DistinctIncoming(jobs) && FreshCopies(before, jobs)
    ensures var after := MergeAll(before, jobs);
      && (forall id :: IsDirty(before, id) ==>
            && IsDirty(after, Heir(before, jobs, id))
            && DtoContent(after[Heir(before, jobs, id)].dto) == DtoContent(before[id].dto))
      && (forall id, other :: IsDirty(before, id) && IsDirty(before, other) && id != other ==>
            Heir(before, jobs, id) != Heir(before, jobs, other))
  {
    forall id | IsDirty(before, id)
      ensures IsDirty(MergeAll(before, jobs), Heir(before, jobs, id))
      ensures DtoContent(MergeAll(before, jobs)[Heir(before, jobs, id)].dto) == DtoContent(before[id].dto)
    {
      HeirIsDirty(before, jobs, id);
    }
    forall id, other | IsDirty(before, id) && IsDirty(before, other) && id != other
      ensures Heir(before, jobs, id) != Heir(before, jobs, other)
    {
      HeirsDiffer(before, jobs, id, other);
    }
  }

  /**
   * How each conflict ends. The winner keeps the id: the server's side clean, the local side dirty and
   * based on the version it has to replace. A loser that is kept becomes a new record that is still to
   * be pushed.
   */
  lemma {:induction false} ConflictOutcome(before: Records, jobs: seq<Job>, j: Job)
    requires Keyed(before) && DistinctIncoming(jobs) && FreshCopies(before, jobs)
    requires j in jobs && InConflict(before, j.incoming)
    ensures var local, after := before[j.incoming.id], MergeAll(before, jobs);
      && j.incoming.id in after
      && var winner := after[j.incoming.id];
      if ServerWins(local, j.incoming) then
        !winner.dirty && winner.dto == j.incoming
      else
        && winner.dirty && DtoContent(winner.dto) == DtoContent(local.dto)
        && winner.dto.baseVersion == j.incoming.version
        && winner.dto.version == local.dto.version && winner.dirtyAt == local.dirtyAt
    ensures Forks(before, j.incoming) ==>
              var local, after := before[j.incoming.id], MergeAll(before, jobs);
              && j.copy.id in after && j.copy.id !in before
              && var loser := after[j.copy.id];
              && loser.dirty && loser.dto.id == j.copy.id && loser.dto.baseVersion == 0
              && loser.dirtyAt == (if ServerWins(local, j.incoming) then local.dirtyAt else j.copy.at)
              && DtoContent(loser.dto) ==
                 if ServerWins(local, j.incoming) then DtoContent(local.dto) else DtoContent(j.incoming)
  {
    MergeAllIsMerge(before, jobs);
    if Forks(before, j.incoming) {
      assert j.copy.id in CopyIds(before, jobs);
    }
  }

  /** A delete on either side of a conflict ends as a tombstone, whatever the clocks say. */
  lemma DeleteWins(before: Records, jobs: seq<Job>, j: Job)
    requires Keyed(before) && DistinctIncoming(jobs) && FreshCopies(before, jobs)
    requires j in jobs && InConflict(before, j.incoming)
    requires before[j.incoming.id].dto.isDeleted || j.incoming.isDeleted
    ensures j.incoming.id in MergeAll(before, jobs) && MergeAll(before, jobs)[j.incoming.id].dto.isDeleted
  {
    MergeAllIsMerge(before, jobs);
  }

  /** The pulled record itself, or its dirty copy, carries the pulled content. */
  ghost predicate IncomingSurvives(before: Records, jobs: seq<Job>, j: Job)
  {
    var after := MergeAll(before, jobs);
    || (j.incoming.id in after && DtoContent(after[j.incoming.id].dto) == DtoContent(j.incoming))
    || (Forks(before, j.incoming) && j.copy.id in after && DtoContent(after[j.copy.id].dto) == DtoContent(j.incoming))
  }

  /**
   * The promise that the losing side of a conflict is always kept fails for a server update that loses
   * to a local one by time. This is exactly when it fails: both sides agree on deletion, the local
   * change is not older, and the contents differ.
   */
  lemma IncomingSurvivesExactlyWhen(before: Records, jobs: seq<Job>, j: Job)
    requires Keyed(before) && DistinctIncoming(jobs) && FreshCopies(before, jobs)
    requires j in jobs
    ensures IncomingSurvives(before, jobs, j) <==>
            !( && InConflict(before, j.incoming)
               && before[j.incoming.id].dto.isDeleted == j.incoming.isDeleted
               && j.incoming.updatedAt <= before[j.incoming.id].dirtyAt
               && DtoContent(before[j.incoming.id].dto) != DtoContent(j.incoming))
  {
    MergeAllIsMerge(before, jobs);
  }

  lemma ServerUpdateCanBeLost()
    ensures exists before: Records, j: Job ::
              Keyed(before) && DistinctIncoming([j]) && FreshCopies(before, [j]) && !IncomingSurvives(before, [j], j)
  {
    var mine := RecordDTO(1, Text, Payload([], [], [1], []), 1, 1, 5, false);
    var theirs := RecordDTO(1, Text, Payload([], [], [2], []), 0, 2, 10, false);
    var before: Records := map[1 := StoredRecord(mine, true, 10)];
    var j := Job(theirs, Stamp(2, 11));
    assert !Forks(before, theirs);
    assert j in [j];
    IncomingSurvivesExactlyWhen(before, [j], j);
    assert mine.payload.ciphertext[0] != theirs.payload.ciphertext[0];
  }

  lemma {:induction false} MergeKeepsKeyed(before: Records, jobs: seq<Job>)
    requires Keyed(before)
    ensures Keyed(MergeAll(before, jobs))
    ensures before.Keys <= MergeAll(before, jobs).Keys
  {
    if jobs != [] {
      MergeKeepsKeyed(before, jobs[..|jobs| - 1]);
    }
  }
}
