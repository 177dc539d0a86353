/** The server's record repository: one global version counter, compare-and-swap on the base version. */
module Repository {
  import opened Domain

  /** One accepted write, as the log remembers it. */
  datatype Write = Upserted(rec: Record, base: int) | Tombstoned(rec: Record)

  /** The repository's value. The log holds the write with version v at index v - 1. */
  datatype Repo = Repo(records: map<Id, Record>, counter: nat, log: seq<Write>)

  const EMPTY_REPO := Repo(map[], 0, [])

  datatype UpsertResult = UpsertResult(repo: Repo, record: Record, conflict: bool)

  function Upsert(r: Repo, rec: Record, base: int, now: Time): UpsertResult {
    if rec.id in r.records && r.records[rec.id].version != base then
      UpsertResult(r, r.records[rec.id], true)
    else
      var saved := rec.(version := r.counter + 1, updatedAt := now);
      UpsertResult(Repo(r.records[rec.id := saved], r.counter + 1, r.log + [Upserted(saved, base)]), saved, false)
  }

  /** Unchanged when the id is unknown or belongs to somebody else. */
  function Delete(r: Repo, id: Id, owner: Owner, now: Time): Repo {
    if id in r.records && r.records[id].owner == owner then
      var saved := r.records[id].(deleted := true, version := r.counter + 1, updatedAt := now);
      Repo(r.records[id := saved], r.counter + 1, r.log + [Tombstoned(saved)])
    else
      r
  }

  ghost predicate Changed(r: Repo, owner: Owner, since: int, id: Id) {
    id in r.records && r.records[id].owner == owner && r.records[id].version > since
  }

  /** Records stand under their ids, and the counter has passed their versions. */
  ghost predicate WellFormed(r: Repo) {
    forall id :: id in r.records ==> r.records[id].id == id && r.records[id].version <= r.counter
  }

  /** dtos is the owner's changed records, each once, in some order. */
  ghost predicate IsListing(r: Repo, owner: Owner, since: int, dtos: seq<RecordDTO>) {
    && DistinctIds(dtos)
    && (forall i :: 0 <= i < |dtos| ==>
          Changed(r, owner, since, dtos[i].id) && dtos[i] == RecordToDTO(r.records[dtos[i].id]))
    && (forall id :: Changed(r, owner, since, id) ==> exists i :: 0 <= i < |dtos| && dtos[i].id == id)
  }

  // ---------------------------------------------------------------- linear history

  /** The version of the last write to id, 0 when there was none. */
  ghost function LastVersion(log: seq<Write>, id: Id): (v: nat)
    ensures v <= |log|
    ensures v > 0 ==> log[v - 1].rec.id == id
    ensures forall k :: v <= k < |log| ==> log[k].rec.id != id
  {
    if log == [] then 0
    else if log[|log| - 1].rec.id == id then |log|
    else LastVersion(log[..|log| - 1], id)
  }

  /** The write at i, if an upsert of a known id, was based on its predecessor. */
  ghost predicate Based(log: seq<Write>, i: nat)
    requires i < |log|
  {
    var last := LastVersion(log[..i], log[i].rec.id);
    log[i].Upserted? && last > 0 ==> log[i].base == last
  }

  /** The records are the last writes of the log. */
  ghost predicate Reflects(records: map<Id, Record>, log: seq<Write>) {
    && (forall id :: id in records <==> LastVersion(log, id) > 0)
    && (forall id :: id in records ==> records[id] == log[LastVersion(log, id) - 1].rec)
  }

  /** Records and log tell the same story, and every accepted upsert was based on its predecessor. */
  ghost predicate Linear(r: Repo) {
    && r.counter == |r.log|
    && (forall i :: 0 <= i < |r.log| ==> r.log[i].rec.version == i + 1)
    && (forall i :: 0 <= i < |r.log| ==> Based(r.log, i))
    && Reflects(r.records, r.log)
  }

  lemma BasedAppend(r: Repo, w: Write, i: nat)
    requires Linear(r) && i <= |r.log|
    requires w.Upserted? && w.rec.id in r.records ==> w.base == r.records[w.rec.id].version
    ensures Based(r.log + [w], i)
  {
    var log := r.log + [w];
    if i == |r.log| {
      assert log[..i] == r.log;
    } else {
      assert log[..i] == r.log[..i] && Based(r.log, i);
    }
  }

  lemma ReflectsAppend(records: map<Id, Record>, log: seq<Write>, w: Write)
    requires Reflects(records, log)
    ensures Reflects(records[w.rec.id := w.rec], log + [w])
  {
  }

  lemma LinearAppend(r: Repo, w: Write)
    requires Linear(r)
    requires w.rec.version == r.counter + 1
    requires w.Upserted? && w.rec.id in r.records ==> w.base == r.records[w.rec.id].version
    ensures Linear(Repo(r.records[w.rec.id := w.rec], r.counter + 1, r.log + [w]))
  {
    forall i | 0 <= i < |r.log + [w]| ensures Based(r.log + [w], i) {
      BasedAppend(r, w, i);
    }
    ReflectsAppend(r.records, r.log, w);
  }

  lemma UpsertKeepsLinear(r: Repo, rec: Record, base: int, now: Time)
    requires Linear(r)
    ensures Linear(Upsert(r, rec, base, now).repo)
  {
    var u := Upsert(r, rec, base, now);
    if !u.conflict {
      LinearAppend(r, Upserted(u.record, base));
    }
  }

  lemma DeleteKeepsLinear(r: Repo, id: Id, owner: Owner, now: Time)
    requires Linear(r)
    ensures Linear(Delete(r, id, owner, now))
  {
    if id in r.records && r.records[id].owner == owner {
      assert r.records[id].id == id;
      LinearAppend(r, Tombstoned(r.records[id].(deleted := true, version := r.counter + 1, updatedAt := now)));
    }
  }

  datatype RepoOp = UpsertOp(rec: Record, base: int, now: Time) | DeleteOp(id: Id, owner: Owner, now: Time)

  function Apply(r: Repo, op: RepoOp): Repo {
    match op
    case UpsertOp(rec, base, now) => Upsert(r, rec, base, now).repo
    case DeleteOp(id, owner, now) => Delete(r, id, owner, now)
  }

  function ApplyAll(r: Repo, ops: seq<RepoOp>): Repo {
    if ops == [] then r else Apply(ApplyAll(r, ops[..|ops| - 1]), ops[|ops| - 1])
  }

  lemma {:induction false} RunKeepsLinear(r: Repo, ops: seq<RepoOp>)
    requires Linear(r)
    ensures Linear(ApplyAll(r, ops))
  {
    if ops != [] {
      var before := ApplyAll(r, ops[..|ops| - 1]);
      RunKeepsLinear(r, ops[..|ops| - 1]);
      match ops[|ops| - 1]
      case UpsertOp(rec, base, now) => UpsertKeepsLinear(before, rec, base, now);
      case DeleteOp(id, owner, now) => DeleteKeepsLinear(before, id, owner, now);
    }
  }

  /** The operation that brought the counter to v. */
  ghost function WriterOf(ops: seq<RepoOp>, v: nat): (n: nat)
    requires 1 <= v <= ApplyAll(EMPTY_REPO, ops).counter
    ensures n < |ops|
  {
    var n := |ops| - 1;
    if v <= ApplyAll(EMPTY_REPO, ops[..n]).counter then WriterOf(ops[..n], v) else n
  }

  /** The write is what the operation asked for, and bears the clock reading of the operation. */
  ghost predicate IsWriteOf(w: Write, op: RepoOp) {
    match op
    case UpsertOp(rec, base, now) =>
      && w.Upserted? && w.base == base && w.rec.updatedAt == now
      && w.rec.id == rec.id && w.rec.owner == rec.owner && w.rec.kind == rec.kind
      && w.rec.payload == rec.payload && w.rec.deleted == rec.deleted
    case DeleteOp(id, owner, now) =>
      w.Tombstoned? && w.rec.id == id && w.rec.owner == owner && w.rec.deleted && w.rec.updatedAt == now
  }

  /** The write with version v is what the operation that made it asked for. */
  ghost predicate IsAsAsked(ops: seq<RepoOp>, v: nat) {
    var r := ApplyAll(EMPTY_REPO, ops);
    1 <= v <= r.counter == |r.log| && IsWriteOf(r.log[v - 1], ops[WriterOf(ops, v)])
  }

  lemma {:induction false} WritesAreAsAsked(ops: seq<RepoOp>, v: nat)
    requires 1 <= v <= ApplyAll(EMPTY_REPO, ops).counter
    ensures IsAsAsked(ops, v)
  {
    var n := |ops| - 1;
    var before := ApplyAll(EMPTY_REPO, ops[..n]);
    RunKeepsLinear(EMPTY_REPO, ops[..n]);
    RunKeepsLinear(EMPTY_REPO, ops);
    if v <= before.counter {
      WritesAreAsAsked(ops[..n], v);
      assert before.log <= ApplyAll(EMPTY_REPO, ops).log;
    } else if ops[n].DeleteOp? {
      assert before.records[ops[n].id].id == ops[n].id;
    }
  }

  /** Entry i of the log directly follows entry j on the same id. */
  ghost predicate Follows(log: seq<Write>, j: int, i: int) {
    && 0 <= j < i < |log|
    && log[j].rec.id == log[i].rec.id
    && (forall k :: j < k < i ==> log[k].rec.id != log[i].rec.id)
  }

  lemma FollowedIsBase(r: Repo, j: int, i: int)
    requires Linear(r) && Follows(r.log, j, i) && r.log[i].Upserted?
    ensures r.log[i].base == r.log[j].rec.version
  {
    var v := LastVersion(r.log[..i], r.log[i].rec.id);
    assert r.log[..i][j].rec.id == r.log[i].rec.id;
    assert v == j + 1;
    assert Based(r.log, i);
  }

  lemma CurrentIsLogged(r: Repo, id: Id)
    requires Linear(r) && id in r.records
    ensures 1 <= r.records[id].version <= |r.log|
    ensures r.log[r.records[id].version - 1].rec == r.records[id]
    ensures r.records[id].id == id
  {
  }

  lemma LatestIsCurrent(r: Repo, i: nat)
    requires Linear(r) && i < |r.log|
    ensures r.log[i].rec.id in r.records
    ensures r.log[i].rec.version <= r.records[r.log[i].rec.id].version <= r.counter
  {
  }

  /** What it means for a repository that its log is linear. */
  ghost predicate IsHistory(r: Repo) {
    && |r.log| == r.counter
    && (forall i :: 0 <= i < |r.log| ==> r.log[i].rec.version == i + 1)
    && (forall i, j :: Follows(r.log, j, i) && r.log[i].Upserted? ==> r.log[i].base == r.log[j].rec.version)
    && (forall i :: 0 <= i < |r.log| ==>
          && r.log[i].rec.id in r.records
          && r.log[i].rec.version <= r.records[r.log[i].rec.id].version <= r.counter)
    && (forall id :: id in r.records ==>
          && 1 <= r.records[id].version <= r.counter
          && r.log[r.records[id].version - 1].rec == r.records[id])
  }

  lemma {:induction false} LinearIsHistory(r: Repo)
    requires Linear(r)
    ensures IsHistory(r)
  {
    forall i, j | Follows(r.log, j, i) && r.log[i].Upserted?
      ensures r.log[i].base == r.log[j].rec.version
    {
      FollowedIsBase(r, j, i);
    }
    forall i | 0 <= i < |r.log|
      ensures r.log[i].rec.id in r.records && r.log[i].rec.version <= r.records[r.log[i].rec.id].version <= r.counter
    {
      LatestIsCurrent(r, i);
    }
    forall id | id in r.records
      ensures 1 <= r.records[id].version <= r.counter && r.log[r.records[id].version - 1].rec == r.records[id]
    {
      CurrentIsLogged(r, id);
    }
  }

  /**
   * After any run on an empty repository the log is the history of every record: one write a version,
   * counted from 1 without gaps; an accepted upsert of a known id carried the version of the write directly
   * before it on that id; the repository holds the latest write of each id, and nothing else. Each write is
   * what the operation that made it asked for, and bears the clock reading of that operation.
   */
  lemma {:induction false} LinearHistory(ops: seq<RepoOp>)
    ensures IsHistory(ApplyAll(EMPTY_REPO, ops))
    ensures forall v: nat :: 1 <= v <= ApplyAll(EMPTY_REPO, ops).counter ==> IsAsAsked(ops, v)
  {
    RunKeepsLinear(EMPTY_REPO, ops);
    LinearIsHistory(ApplyAll(EMPTY_REPO, ops));
    AllAsAsked(ops);
  }

  lemma {:induction false} AllAsAsked(ops: seq<RepoOp>)
    ensures forall v: nat :: 1 <= v <= ApplyAll(EMPTY_REPO, ops).counter ==> IsAsAsked(ops, v)
  {
    forall v: nat | 1 <= v <= ApplyAll(EMPTY_REPO, ops).counter ensures IsAsAsked(ops, v) {
      WritesAreAsAsked(ops, v);
    }
  }

  // ---------------------------------------------------------------- the repository itself

  class RecordRepository {
    var records: map<Id, Record>
    var counter: nat
    ghost var log: seq<Write>

    ghost function State(): Repo
      reads this
    {
      Repo(records, counter, log)
    }

    constructor ()
      ensures State() == EMPTY_REPO
    {
      records, counter, log := map[], 0, [];
    }

    method UpsertRecord(rec: Record, base: int, now: Time) returns (saved: Record, conflict: bool)
      modifies this
      ensures var u := Upsert(old(State()), rec, base, now);
        State() == u.repo && saved == u.record && conflict == u.conflict
      ensures conflict <==> rec.id in old(records) && old(records)[rec.id].version != base
      ensures conflict ==> saved == old(records)[rec.id] && records == old(records) && counter == old(counter)
      ensures !conflict ==>
                && counter == old(counter) + 1 && records == old(records)[rec.id := saved]
                && saved.version == counter && saved.updatedAt == now
                && saved.id == rec.id && saved.owner == rec.owner && saved.kind == rec.kind
                && saved.payload == rec.payload && saved.deleted == rec.deleted
    {
      if rec.id in records && records[rec.id].version != base {
        return records[rec.id], true;
      }
      counter := counter + 1;
      saved := rec.(version := counter, updatedAt := now);
      records := records[rec.id := saved];
      log := log + [Upserted(saved, base)];
      conflict := false;
    }

    method DeleteRecord(id: Id, owner: Owner, now: Time) returns (found: bool)
      modifies this
      ensures State() == Delete(old(State()), id, owner, now)
      ensures found <==> id in old(records) && old(records)[id].owner == owner
      ensures !found ==> records == old(records) && counter == old(counter)
      ensures found ==>
                && counter == old(counter) + 1 && id in records && records == old(records)[id := records[id]]
                && records[id].deleted && records[id].version == counter && records[id].updatedAt == now
                && records[id].id == old(records)[id].id && records[id].owner == owner
                && records[id].kind == old(records)[id].kind && records[id].payload == old(records)[id].payload
    {
      if id !in records || records[id].owner != owner {
        return false;
      }
      counter := counter + 1;
      var saved := records[id].(deleted := true, version := counter, updatedAt := now);
      records := records[id := saved];
      log := log + [Tombstoned(saved)];
      found := true;
    }

    method Get(id: Id, owner: Owner) returns (rec: Option<Record>)
      ensures rec == if id in records && records[id].owner == owner then Some(records[id]) else None
    {
      if id !in records || records[id].owner != owner {
        return None;
      }
      rec := Some(records[id]);
    }

    /** Go ranges over the map in an order of its own; so does this loop. */
    method ListSince(owner: Owner, since: int) returns (result: seq<Record>)
      requires forall id :: id in records ==> records[id].id == id
      ensures forall i :: 0 <= i < |result| ==>
                Changed(State(), owner, since, result[i].id) && result[i] == records[result[i].id]
      ensures forall i, j :: 0 <= i < j < |result| ==> result[i].id != result[j].id
      ensures forall id :: Changed(State(), owner, since, id) ==> exists i :: 0 <= i < |result| && result[i].id == id
      ensures forall i :: 0 <= i < |result| ==> result[i].owner == owner && result[i].version > since
      ensures forall id :: id in records && records[id].owner == owner && records[id].version > since ==>
                records[id] in result
    {
      result := [];
      var rest := records.Keys;
      while rest != {}
        invariant rest <= records.Keys
        invariant forall i :: 0 <= i < |result| ==>
                    && result[i].id !in rest
                    && Changed(State(), owner, since, result[i].id) && result[i] == records[result[i].id]
        invariant forall i, j :: 0 <= i < j < |result| ==> result[i].id != result[j].id
        invariant forall id :: Changed(State(), owner, since, id) && id !in rest ==>
                    exists i :: 0 <= i < |result| && result[i].id == id
        decreases rest
      {
        var id :| id in rest;
        rest := rest - {id};
        ghost var before := result;
        if records[id].owner == owner && records[id].version > since {
          result := result + [records[id]];
          assert result[|before|].id == id;
        }
        assert forall i :: 0 <= i < |before| ==> result[i] == before[i];
      }
      forall id | id in records && records[id].owner == owner && records[id].version > since
        ensures records[id] in result
      {
        assert Changed(State(), owner, since, id);
        var i :| 0 <= i < |result| && result[i].id == id;
        assert result[i] in result;
      }
    }
  }
}
