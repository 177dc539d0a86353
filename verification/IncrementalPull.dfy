/**
 * A device that only ever pulls. However the server's records change between its pulls, each pull of
 * the changes alone leaves it with exactly what a full download would give.
 */
module IncrementalPull {
  import opened Domain
  import opened Repository
  import opened SyncService
  import opened Merge
  import opened Convergence
  import D = Device

  /** An id is never written by an owner other than the one it belongs to. */
  ghost predicate RespectsOwners(s: Server, op: ServerOp)
    requires ServerEnabled(s, op)
  {
    match op
    case ApplyOp(h, _) =>
      var handler := s.handlers[h];
      NextDTO(handler).id in s.repo.records ==> s.repo.records[NextDTO(handler).id].owner == handler.msg.owner
    case WriteOp(rec, _, _) => rec.id in s.repo.records ==> s.repo.records[rec.id].owner == rec.owner
    case _ => true
  }

  /** What happened at the server since the last pull, and the pull. */
  datatype Round = Round(ops: seq<ServerOp>, jobs: seq<Job>)

  ghost predicate OpsRespectOwners(s: Server, ops: seq<ServerOp>)
    requires IsServerRun(s, ops)
  {
    ops != [] ==>
      var n := |ops| - 1;
      OpsRespectOwners(s, ops[..n]) && RespectsOwners(ServerRun(s, ops[..n]), ops[n])
  }

  datatype World = World(server: Server, store: D.LocalState)

  const FRESH := World(EMPTY_SERVER, D.EMPTY_STORE)

  ghost predicate RoundEnabled(w: World, owner: Owner, round: Round) {
    && IsServerRun(w.server, round.ops) && OpsRespectOwners(w.server, round.ops)
    && IsListing(ServerRun(w.server, round.ops).repo, owner, w.store.cursor, D.IncomingOf(round.jobs))
  }

  ghost function AfterRound(w: World, owner: Owner, round: Round): World
    requires RoundEnabled(w, owner, round)
  {
    World(ServerRun(w.server, round.ops),
          D.LocalState(MergeAll(w.store.records, round.jobs), D.PulledCursor(w.store.cursor, round.jobs),
                       w.store.pending))
  }

  ghost predicate Enabled(owner: Owner, rounds: seq<Round>)
    decreases |rounds|, 0
  {
    rounds != [] ==>
      Enabled(owner, rounds[..|rounds| - 1]) &&
      RoundEnabled(After(owner, rounds[..|rounds| - 1]), owner, rounds[|rounds| - 1])
  }

  ghost function After(owner: Owner, rounds: seq<Round>): World
    requires Enabled(owner, rounds)
    decreases |rounds|, 1
  {
    if rounds == [] then FRESH
    else AfterRound(After(owner, rounds[..|rounds| - 1]), owner, rounds[|rounds| - 1])
  }

  // ---------------------------------------------------------------- the server between pulls

  /** What GrewBy says, whoever wrote. */
  ghost predicate Grew(repo: Repo, repo': Repo) {
    && repo.counter <= repo'.counter
    && (forall id :: id in repo.records ==> id in repo'.records && repo'.records[id].owner == repo.records[id].owner)
    && (forall id :: id in repo'.records ==>
          || (id in repo.records && repo'.records[id] == repo.records[id])
          || repo.counter < repo'.records[id].version <= repo'.counter)
  }

  lemma StepGrows(s: Server, op: ServerOp)
    requires ServerEnabled(s, op) && WellFormed(s.repo) && RespectsOwners(s, op)
    ensures Grew(s.repo, ServerStep(s, op).repo) && WellFormed(ServerStep(s, op).repo)
  {
  }

  lemma {:induction false} RunGrows(s: Server, ops: seq<ServerOp>)
    requires IsServerRun(s, ops) && OpsRespectOwners(s, ops) && WellFormed(s.repo)
    ensures Grew(s.repo, ServerRun(s, ops).repo) && WellFormed(ServerRun(s, ops).repo)
  {
    if ops != [] {
      RunGrows(s, ops[..|ops| - 1]);
      StepGrows(ServerRun(s, ops[..|ops| - 1]), ops[|ops| - 1]);
    }
  }

  lemma StillCurrent(repo: Repo, repo': Repo, owner: Owner, store: D.LocalState)
    requires Grew(repo, repo') && Current(repo, owner, store)
    ensures Current(repo', owner, store)
  {
  }

  // ---------------------------------------------------------------- the device

  ghost predicate AllClean(records: Records) {
    Keyed(records) && forall id :: id in records ==> !records[id].dirty
  }

  lemma {:induction false} CleanMerge(before: Records, jobs: seq<Job>)
    requires AllClean(before)
    ensures AllClean(MergeAll(before, jobs))
  {
    if jobs != [] {
      CleanMerge(before, jobs[..|jobs| - 1]);
    }
  }

  /** After every round the device has what the server has for its owner: no record more or less. */
  lemma {:induction false} PullOnlyDeviceMirrorsServer(owner: Owner, rounds: seq<Round>)
    requires Enabled(owner, rounds)
    ensures var w := After(owner, rounds);
      && Matches(w.server.repo, owner, w.store.records)
      && AllClean(w.store.records) && WellFormed(w.server.repo) && Current(w.server.repo, owner, w.store)
  {
    if rounds != [] {
      var n := |rounds| - 1;
      var w := After(owner, rounds[..n]);
      PullOnlyDeviceMirrorsServer(owner, rounds[..n]);
      var jobs := rounds[n].jobs;
      var repo := ServerRun(w.server, rounds[n].ops).repo;
      RunGrows(w.server, rounds[n].ops);
      StillCurrent(w.server.repo, repo, owner, w.store);
      CleanMerge(w.store.records, jobs);
      JobsAreDistinct(jobs);
      assert CopyIds(w.store.records, jobs) == {};
      PullCatchesUp(repo, owner, w.store, jobs);
      NothingDirty(repo, owner, After(owner, rounds).store);
    }
  }

  lemma JobsAreDistinct(jobs: seq<Job>)
    requires DistinctIds(D.IncomingOf(jobs))
    ensures DistinctIncoming(jobs)
  {
  }
}
