/**
 * The client's Syncer. Each of its methods is proved to move the device machine along its own steps,
 * whatever the transport answers and wherever it fails.
 */
module Syncer {
  import opened Domain
  import opened Merge
  import opened Chunks
  import opened Device
  import opened Store
  import opened Iterations

  /** Fresh ids and clock readings, as the process gets them from outside. */
  class Environment {
    var nextId: nat
    var now: Time

    constructor (nextId: nat, now: Time)
      ensures this.nextId == nextId && this.now == now
    {
      this.nextId, this.now := nextId, now;
    }

    method NewString() returns (id: Id)
      modifies this`nextId
      ensures id == old(nextId) && nextId == id + 1
    {
      id := nextId;
      nextId := nextId + 1;
    }

    method Now() returns (t: Time)
      modifies this`now
      ensures t == now >= old(now)
    {
      var elapsed: int := *;
      if elapsed > 0 {
        now := now + elapsed;
      }
      t := now;
    }
  }

  /** The ids of a reply that the server can have sent: distinct in a pull, and generated before. */
  predicate PlausiblePull(dtos: seq<RecordDTO>, known: nat) {
    DistinctIds(dtos) && forall dto :: dto in dtos ==> dto.id < known
  }

  predicate PlausiblePush(results: seq<PushResult>, known: nat) {
    forall r :: r in results ==> r.serverRecord.id < known
  }

  /** The network: any call may fail, and any plausible reply may come. The trace remembers them all. */
  class Transport {
    ghost var trace: seq<Call>

    constructor ()
      ensures trace == []
    {
      trace := [];
    }

    method Pull(since: int, known: nat) returns (reply: Option<seq<RecordDTO>>)
      modifies this
      ensures reply.Some? ==> PlausiblePull(reply.value, known)
      ensures trace == old(trace) + [PullCall(since, reply)]
    {
      reply := *;
      if reply.Some? && !PlausiblePull(reply.value, known) {
        reply := None;
      }
      trace := trace + [PullCall(since, reply)];
    }

    method Push(key: Key, request: seq<RecordDTO>, known: nat) returns (reply: Option<seq<PushResult>>)
      modifies this
      ensures reply.Some? ==> PlausiblePush(reply.value, known)
      ensures trace == old(trace) + [PushCall(key, request, reply)]
    {
      reply := *;
      if reply.Some? && !PlausiblePush(reply.value, known) {
        reply := None;
      }
      trace := trace + [PushCall(key, request, reply)];
    }
  }

  lemma FreshCopiesStep(before: Records, jobs: seq<Job>, job: Job, known: nat)
    requires DistinctIncoming(jobs) && FreshCopies(before, jobs)
    requires forall j :: j in jobs ==> j.incoming.id != job.incoming.id
    requires forall id :: id in before ==> id < known
    requires job.incoming.id < known && forall j :: j in jobs ==> j.incoming.id < known
    requires forall j :: j in jobs && Forks(before, j.incoming) ==> j.copy.id >= known
    requires Forks(before, job.incoming) ==>
               && job.copy.id >= known
               && forall j :: j in jobs && Forks(before, j.incoming) ==> j.copy.id != job.copy.id
    ensures DistinctIncoming(jobs + [job]) && FreshCopies(before, jobs + [job])
  {
  }

  // One lemma for each kind of step the Syncer makes.

  lemma PushedAll(d0: Device, es: seq<Event>, i: nat, conflicts: bool)
    requires IsRun(d0, es) && Run(d0, es).phase == Pushing(i, [], conflicts)
    ensures IsRun(d0, es + [Advanced(0)])
    ensures RegisteredKeys(d0, es + [Advanced(0)]) == RegisteredKeys(d0, es)
    ensures InSync(d0, es) ==> InSync(d0, es + [Advanced(0)])
    ensures var d := Run(d0, es);
      Run(d0, es + [Advanced(0)]) == d.(phase := if conflicts then Iterate(i + 1, d.config) else Idle)
    ensures CallsOf(d0, es + [Advanced(0)]) == CallsOf(d0, es)
    ensures AtLoopHead(d0, es + [Advanced(0)]) <==> conflicts
  {
  }

  lemma Replayed(d0: Device, es: seq<Event>)
    requires IsRun(d0, es) && Run(d0, es).phase == Replaying([])
    ensures IsRun(d0, es + [Advanced(0)])
    ensures RegisteredKeys(d0, es + [Advanced(0)]) == RegisteredKeys(d0, es)
    ensures InSync(d0, es) ==> InSync(d0, es + [Advanced(0)])
    ensures var d := Run(d0, es);
      Run(d0, es + [Advanced(0)]) == d.(phase := Iterate(0, d.config))
    ensures CallsOf(d0, es + [Advanced(0)]) == CallsOf(d0, es)
    ensures AtLoopHead(d0, es + [Advanced(0)])
  {
  }

  lemma Registered(d0: Device, es: seq<Event>, key: Key, i: nat, chunk: seq<StoredRecord>,
                   chunks: seq<seq<StoredRecord>>, conflicts: bool)
    requires IsRun(d0, es) && Run(d0, es).phase == Pushing(i, [chunk] + chunks, conflicts)
    ensures IsRun(d0, es + [Advanced(key)])
    ensures RegisteredKeys(d0, es + [Advanced(key)]) == RegisteredKeys(d0, es) + [key]
    ensures InSync(d0, es) ==> InSync(d0, es + [Advanced(key)])
    ensures var d := Run(d0, es);
      Run(d0, es + [Advanced(key)]) ==
      Device(d.store.(pending := d.store.pending + [PendingBatch(key, IdsOf(chunk))]),
             PushWait(i, key, chunk, chunks, conflicts), d.config)
    ensures CallsOf(d0, es + [Advanced(key)]) == CallsOf(d0, es)
  {
  }

  lemma Acknowledged(d0: Device, es: seq<Event>, results: seq<PushResult>)
    requires IsRun(d0, es) && Outstanding(Run(d0, es)).Some?
    ensures IsRun(d0, es + [PushDelivered(results)])
    ensures RegisteredKeys(d0, es + [PushDelivered(results)]) == RegisteredKeys(d0, es)
    ensures InSync(d0, es) ==> InSync(d0, es + [PushDelivered(results)])
    ensures var d := Run(d0, es);
      Run(d0, es + [PushDelivered(results)]) ==
      Device(Acknowledge(d.store, d.phase.key, results),
             if d.phase.ReplayWait? then Replaying(d.phase.rest)
             else Pushing(d.phase.iteration, d.phase.chunks, d.phase.conflicts || HasConflict(results)),
             d.config)
    ensures var sent := Outstanding(Run(d0, es)).value;
      CallsOf(d0, es + [PushDelivered(results)]) == CallsOf(d0, es) + [PushCall(sent.0, sent.1, Some(results))]
  {
  }

  lemma PushFailed(d0: Device, es: seq<Event>)
    requires IsRun(d0, es) && Outstanding(Run(d0, es)).Some?
    ensures IsRun(d0, es + [Failed])
    ensures RegisteredKeys(d0, es + [Failed]) == RegisteredKeys(d0, es)
    ensures InSync(d0, es) ==> InSync(d0, es + [Failed])
    ensures Run(d0, es + [Failed]) == Run(d0, es).(phase := Idle)
    ensures var sent := Outstanding(Run(d0, es)).value;
      CallsOf(d0, es + [Failed]) == CallsOf(d0, es) + [PushCall(sent.0, sent.1, None)]
  {
  }

  /** The step to the next batch of a replay. */
  lemma NextBatch(d0: Device, es: seq<Event>, batch: PendingBatch, rest: seq<PendingBatch>)
    requires IsRun(d0, es) && Run(d0, es).phase == Replaying([batch] + rest)
    ensures IsRun(d0, es + [Advanced(0)])
    ensures RegisteredKeys(d0, es + [Advanced(0)]) == RegisteredKeys(d0, es)
    ensures InSync(d0, es) ==> InSync(d0, es + [Advanced(0)])
    ensures var d := Run(d0, es);
      var request := RequestOf(d.store.records, batch.ids);
      Run(d0, es + [Advanced(0)]) ==
      if request == []
      then d.(store := d.store.(pending := Without(d.store.pending, batch.key)), phase := Replaying(rest))
      else d.(phase := ReplayWait(batch.key, request, rest))
    ensures CallsOf(d0, es + [Advanced(0)]) == CallsOf(d0, es)
  {
  }

  lemma TakeNext<T>(all: seq<T>, k: nat, rest: seq<T>)
    requires k < |all| && rest == all[k..]
    ensures rest == [all[k]] + rest[1..] && rest[1..] == all[k + 1..]
  {
  }

  lemma JustStarted(d0: Device)
    requires d0.phase.Idle?
    ensures IsRun(d0, [Started]) && InSync(d0, [Started]) && RegisteredKeys(d0, [Started]) == []
    ensures Run(d0, [Started]) == d0.(phase := Replaying(d0.store.pending))
    ensures CallsOf(d0, [Started]) == []
  {
  }

  /** dtos is an enumeration, without repetition, of what is dirty. */
  ghost predicate IsLeftOver(records: Records, dtos: seq<RecordDTO>) {
    && DistinctIds(dtos)
    && (forall i :: 0 <= i < |dtos| ==> IsDirty(records, dtos[i].id) && records[dtos[i].id].dto == dtos[i])
    && (forall id :: IsDirty(records, id) ==> exists i :: 0 <= i < |dtos| && dtos[i].id == id)
  }

  /** Where a run began: the device as it was, the calls made before, and the next id to be generated. */
  datatype Origin = Origin(device: Device, trace: seq<Call>, nextId: nat)

  class Syncer {
    const transport: Transport
    const store: Store
    const env: Environment
    var chunkSize: int
    var maxIterations: int

    ghost function Conf(): Config
      reads this
    {
      Config(chunkSize, maxIterations)
    }

    /** Every id in the store was generated before. */
    ghost predicate Ready()
      reads this, store, env
    {
      store.Valid() && forall id :: id in store.records ==> id < env.nextId
    }

    /**
     * The machine, run along the Sync es from the origin, stands in the given phase with the store as it is, and
     * the calls made since then are those of the run. New batches have keys generated since then.
     */
    ghost predicate At(o: Origin, es: seq<Event>, phase: Phase)
      reads this, store, store.buf, env, transport
      requires Ready()
    {
      && IsRun(o.device, es) && InSync(o.device, es)
      && Run(o.device, es) == Device(store.State(), phase, Conf())
      && transport.trace == o.trace + CallsOf(o.device, es)
      && Rising(RegisteredKeys(o.device, es), o.nextId, env.nextId)
    }

    constructor (transport: Transport, store: Store, env: Environment)
      ensures this.transport == transport && this.store == store && this.env == env
      ensures Conf() == Config(DEFAULT_CHUNK_SIZE, 5)
    {
      this.transport, this.store, this.env := transport, store, env;
      chunkSize, maxIterations := DEFAULT_CHUNK_SIZE, 5;
    }

    method WithChunkSize(n: int)
      modifies this`chunkSize
      ensures chunkSize == n
    {
      chunkSize := n;
    }

    method WithMaxIterations(n: int)
      modifies this`maxIterations
      ensures maxIterations == n
    {
      maxIterations := n;
    }

    method SaveConflictCopy(local: StoredRecord) returns (ghost stamp: Stamp)
      requires Ready()
      modifies store`records, env
      ensures Ready()
      ensures store.records == Put(old(store.records), CopyOfLocal(local, stamp))
      ensures stamp.id == old(env.nextId) && env.nextId == stamp.id + 1
      ensures stamp.id in store.records && store.records == old(store.records)[stamp.id := store.records[stamp.id]]
      ensures var copy := store.records[stamp.id];
        && copy.dto.id == stamp.id && copy.dto.baseVersion == 0 && copy.dto.version == local.dto.version
        && DtoContent(copy.dto) == DtoContent(local.dto)
        && copy.dirty == local.dirty && copy.dirtyAt == local.dirtyAt
    {
      var id := env.NewString();
      stamp := Stamp(id, 0);
      store.PutRecord(local.(dto := local.dto.(id := id, baseVersion := 0)));
    }

    method SaveConflictCopyFromDTO(dto: RecordDTO) returns (ghost stamp: Stamp)
      requires Ready()
      modifies store`records, env
      ensures Ready()
      ensures store.records == Put(old(store.records), CopyOfIncoming(dto, stamp))
      ensures stamp.id == old(env.nextId) && env.nextId == stamp.id + 1
      ensures stamp.at == env.now >= old(env.now)
      ensures stamp.id in store.records && store.records == old(store.records)[stamp.id := store.records[stamp.id]]
      ensures var copy := store.records[stamp.id];
        && copy.dto.id == stamp.id && copy.dto.baseVersion == 0 && copy.dto.version == dto.version
        && DtoContent(copy.dto) == DtoContent(dto) && copy.dirty && copy.dirtyAt == env.now
    {
      var id := env.NewString();
      var now := env.Now();
      stamp := Stamp(id, now);
      store.PutRecord(StoredRecord(dto.(id := id, baseVersion := 0), true, now));
    }

    method ResolveConflict(local: StoredRecord, incoming: RecordDTO) returns (ghost stamp: Stamp)
      requires Ready()
      requires incoming.id in store.records && local == store.records[incoming.id]
      modifies store`records, env
      ensures Ready() && env.nextId >= old(env.nextId)
      ensures store.records == Resolve(old(store.records), local, Job(incoming, stamp))
      ensures local.dirty && Forks(old(store.records), incoming) ==>
                stamp.id == old(env.nextId) && env.nextId == stamp.id + 1
    {
      stamp := Stamp(0, 0);
      if local.dto.isDeleted && !incoming.isDeleted {
        stamp := SaveConflictCopyFromDTO(incoming);
        store.PutRecord(local.(dto := local.dto.(baseVersion := incoming.version)));
      } else if !local.dto.isDeleted && incoming.isDeleted {
        stamp := SaveConflictCopy(local);
        store.PutRecord(StoredRecord(incoming, false, 0));
      } else if incoming.updatedAt > local.dirtyAt {
        stamp := SaveConflictCopy(local);
        store.PutRecord(StoredRecord(incoming, false, 0));
      } else {
        store.PutRecord(local.(dto := local.dto.(baseVersion := incoming.version)));
      }
    }

    method MergeIncoming(incoming: RecordDTO) returns (ghost stamp: Stamp)
      requires Ready() && incoming.id < env.nextId
      modifies store`records, env
      ensures Ready() && env.nextId >= old(env.nextId)
      ensures store.records == MergeOne(old(store.records), Job(incoming, stamp))
      ensures Forks(old(store.records), incoming) ==>
                stamp.id == old(env.nextId) && env.nextId == stamp.id + 1
    {
      stamp := Stamp(0, 0);
      var local := store.GetRecord(incoming.id);
      if local.Some? && local.value.dirty {
        stamp := ResolveConflict(local.value, incoming);
      } else {
        store.PutRecord(StoredRecord(incoming, false, 0));
      }
    }

    method PullAndMerge() returns (ok: bool, ghost jobs: seq<Job>)
      requires Ready()
      modifies store`records, store`lastSyncVersion, env, transport
      ensures Ready() && env.nextId >= old(env.nextId)
      ensures transport.trace ==
              old(transport.trace) + [PullCall(old(store.lastSyncVersion), if ok then Some(IncomingOf(jobs)) else None)]
      ensures !ok ==> store.State() == old(store.State())
      ensures ok ==>
                && DistinctIncoming(jobs) && FreshCopies(old(store.records), jobs)
                && (forall j :: j in jobs && Forks(old(store.records), j.incoming) ==>
                      old(env.nextId) <= j.copy.id < env.nextId)
                && store.State() == LocalState(MergeAll(old(store.records), jobs),
                                               PulledCursor(old(store.lastSyncVersion), jobs),
                                               old(store.State()).pending)
    {
      jobs := [];
      var reply := transport.Pull(store.lastSyncVersion, env.nextId);
      if reply.None? {
        return false, [];
      }
      var dtos := reply.value;
      var maxVersion := store.lastSyncVersion;
      ghost var before, known := store.records, env.nextId;
      for i := 0 to |dtos|
        invariant Ready() && env.nextId >= known
        invariant |jobs| == i && forall k :: 0 <= k < i ==> jobs[k].incoming == dtos[k]
        invariant DistinctIncoming(jobs) && FreshCopies(before, jobs)
        invariant forall j :: j in jobs && Forks(before, j.incoming) ==> known <= j.copy.id < env.nextId
        invariant store.records == MergeAll(before, jobs)
        invariant maxVersion == PulledCursor(old(store.lastSyncVersion), jobs)
        invariant store.lastSyncVersion == old(store.lastSyncVersion)
        invariant transport.trace == old(transport.trace) + [PullCall(store.lastSyncVersion, reply)]
      {
        MergeAllIsMerge(before, jobs);
        assert dtos[i].id !in IncomingIds(jobs) + CopyIds(before, jobs);
        assert Forks(store.records, dtos[i]) == Forks(before, dtos[i]);
        ghost var stamp := MergeIncoming(dtos[i]);
        ghost var job := Job(dtos[i], stamp);
        FreshCopiesStep(before, jobs, job, known);
        assert (jobs + [job])[..i] == jobs;
        jobs := jobs + [job];
        if dtos[i].version > maxVersion {
          maxVersion := dtos[i].version;
        }
      }
      store.SetLastSyncVersion(maxVersion);
      assert IncomingOf(jobs) == dtos;
      ok := true;
    }

    method ApplyPushResults(results: seq<PushResult>) returns (hadConflicts: bool)
      requires Ready() && PlausiblePush(results, env.nextId)
      modifies store`records, store`lastSyncVersion
      ensures Ready()
      ensures store.State() == LocalState(PutApplied(old(store.records), results),
                                          AppliedCursor(old(store.lastSyncVersion), results),
                                          old(store.State()).pending)
      ensures hadConflicts == HasConflict(results)
    {
      hadConflicts := false;
      var maxVersion := store.lastSyncVersion;
      for i := 0 to |results|
        invariant Ready()
        invariant store.records == PutApplied(old(store.records), results[..i])
        invariant maxVersion == AppliedCursor(old(store.lastSyncVersion), results[..i])
        invariant hadConflicts == HasConflict(results[..i])
        invariant store.lastSyncVersion == old(store.lastSyncVersion)
      {
        assert results[..i + 1][..i] == results[..i];
        assert results[i] in results;
        if results[i].status == Applied {
          store.PutRecord(StoredRecord(results[i].serverRecord, false, 0));
          if results[i].serverRecord.version > maxVersion {
            maxVersion := results[i].serverRecord.version;
          }
        } else {
          hadConflicts := true;
          assert results[i] in results[..i + 1];
        }
      }
      assert results[..|results|] == results;
      store.SetLastSyncVersion(maxVersion);
    }

    method RecordIDs(records: seq<StoredRecord>) returns (ids: seq<Id>)
      ensures ids == IdsOf(records)
    {
      var a := new Id[|records|];
      for i := 0 to |records|
        invariant forall k :: 0 <= k < i ==> a[k] == records[k].dto.id
      {
        a[i] := records[i].dto.id;
      }
      ids := a[..];
    }

    /** Sends a push; a reply is applied and takes the batch off the pending list. */
    method Exchange(key: Key, request: seq<RecordDTO>) returns (reply: Option<seq<PushResult>>, hadConflicts: bool)
      requires Ready()
      modifies store`records, store`lastSyncVersion, store`len, store.buf, transport
      ensures Ready()
      ensures transport.trace == old(transport.trace) + [PushCall(key, request, reply)]
      ensures store.State() ==
              if reply.Some? then Acknowledge(old(store.State()), key, reply.value) else old(store.State())
      ensures reply.Some? ==> hadConflicts == HasConflict(reply.value)
    {
      hadConflicts := false;
      reply := transport.Push(key, request, env.nextId);
      if reply.Some? {
        hadConflicts := ApplyPushResults(reply.value);
        store.ClearPendingPush(key);
      }
    }

    /** Puts the batch on record, under a fresh key, before it is sent. */
    method Register(chunk: seq<StoredRecord>, ghost o: Origin, ghost es: seq<Event>, ghost i: nat,
                    ghost chunks: seq<seq<StoredRecord>>, ghost conflicts: bool)
      returns (key: Key, ghost es': seq<Event>)
      requires Ready() && At(o, es, Pushing(i, [chunk] + chunks, conflicts))
      modifies store`buf, store`len, store.buf, env`nextId
      ensures Ready() && env.nextId >= old(env.nextId) && (store.buf == old(store.buf) || fresh(store.buf))
      ensures At(o, es', PushWait(i, key, chunk, chunks, conflicts)) && key == old(env.nextId)
    {
      key := env.NewString();
      var ids := RecordIDs(chunk);
      store.AddPendingPush(PendingBatch(key, ids));
      Registered(o.device, es, key, i, chunk, chunks, conflicts);
      assert Rising(RegisteredKeys(o.device, es) + [key], o.nextId, env.nextId);
      es' := es + [Advanced(key)];
    }

    /** Sends a registered chunk. */
    method SendChunk(key: Key, chunk: seq<StoredRecord>, ghost o: Origin, ghost es: seq<Event>, ghost i: nat,
                     ghost chunks: seq<seq<StoredRecord>>, ghost conflicts: bool)
      returns (ok: bool, hadConflicts: bool, ghost es': seq<Event>)
      requires Ready() && At(o, es, PushWait(i, key, chunk, chunks, conflicts))
      modifies store`records, store`lastSyncVersion, store`len, store.buf, transport
      ensures Ready()
      ensures ok ==> At(o, es', Pushing(i, chunks, conflicts || hadConflicts))
      ensures !ok ==> At(o, es', Idle) && es' != [] && es'[|es'| - 1] == Failed
    {
      var reply;
      reply, hadConflicts := Exchange(key, DtosOf(chunk));
      if reply.None? {
        PushFailed(o.device, es);
        return false, false, es + [Failed];
      }
      Acknowledged(o.device, es, reply.value);
      es' := es + [PushDelivered(reply.value)];
      ok := true;
    }

    method PushChunk(chunk: seq<StoredRecord>, ghost o: Origin, ghost es: seq<Event>, ghost i: nat,
                     ghost chunks: seq<seq<StoredRecord>>, ghost conflicts: bool)
      returns (ok: bool, hadConflicts: bool, ghost es': seq<Event>)
      requires Ready() && At(o, es, Pushing(i, [chunk] + chunks, conflicts))
      modifies store, store.buf, env, transport
      ensures Ready() && env.nextId >= old(env.nextId)
      ensures fresh(store.Footprint() - old(store.Footprint())) && store.lastSyncAt == old(store.lastSyncAt)
      ensures ok ==> At(o, es', Pushing(i, chunks, conflicts || hadConflicts))
      ensures !ok ==> At(o, es', Idle) && es' != [] && es'[|es'| - 1] == Failed
    {
      var key;
      key, es' := Register(chunk, o, es, i, chunks, conflicts);
      ok, hadConflicts, es' := SendChunk(key, chunk, o, es', i, chunks, conflicts);
    }

    method PushAll(dirty: seq<StoredRecord>, ghost o: Origin, ghost es: seq<Event>, ghost iteration: nat)
      returns (ok: bool, hadConflicts: bool, ghost es': seq<Event>)
      requires Ready() && At(o, es, Pushing(iteration, ChunksOf(dirty, EffectiveSize(chunkSize)), false))
      modifies store, store.buf, env, transport
      ensures Ready() && env.nextId >= old(env.nextId)
      ensures fresh(store.Footprint() - old(store.Footprint())) && store.lastSyncAt == old(store.lastSyncAt)
      ensures ok ==> At(o, es', Pushing(iteration, [], hadConflicts))
      ensures !ok ==> At(o, es', Idle) && es' != [] && es'[|es'| - 1] == Failed
    {
      hadConflicts := false;
      es' := es;
      var chunks := ChunkRecords(dirty, chunkSize);
      ghost var rest := chunks;
      for k := 0 to |chunks|
        invariant Ready() && env.nextId >= old(env.nextId)
        invariant fresh(store.Footprint() - old(store.Footprint())) && store.lastSyncAt == old(store.lastSyncAt)
        invariant rest == chunks[k..]
        invariant At(o, es', Pushing(iteration, rest, hadConflicts))
      {
        TakeNext(chunks, k, rest);
        var conflict;
        ok, conflict, es' := PushChunk(chunks[k], o, es', iteration, rest[1..], hadConflicts);
        if !ok {
          return false, false, es';
        }
        rest := rest[1..];
        if conflict {
          hadConflicts := true;
        }
      }
      ok := true;
    }

    method Request(ids: seq<Id>) returns (request: seq<RecordDTO>)
      requires store.Valid()
      ensures request == RequestOf(store.records, ids)
      ensures forall dto :: dto in request <==>
                exists id :: id in ids && id in store.records && store.records[id].dto == dto
      ensures |request| <= |ids|
    {
      request := [];
      for i := 0 to |ids|
        invariant request == RequestOf(store.records, ids[..i])
      {
        assert ids[..i + 1][..i] == ids[..i];
        var rec := store.GetRecord(ids[i]);
        if rec.Some? {
          request := request + [rec.value.dto];
        }
      }
      assert ids[..|ids|] == ids;
      RequestHasPresent(store.records, ids);
    }

    method ReplayBatch(batch: PendingBatch, ghost o: Origin, ghost es: seq<Event>, ghost rest: seq<PendingBatch>)
      returns (ok: bool, ghost es': seq<Event>)
      requires Ready() && At(o, es, Replaying([batch] + rest))
      modifies store`records, store`lastSyncVersion, store`len, store.buf, transport
      ensures Ready()
      ensures ok ==> At(o, es', Replaying(rest))
      ensures !ok ==> At(o, es', Idle) && es' != [] && es'[|es'| - 1] == Failed
    {
      var request := Request(batch.ids);
      NextBatch(o.device, es, batch, rest);
      es' := es + [Advanced(0)];
      if |request| == 0 {
        store.ClearPendingPush(batch.key);
        return true, es';
      }
      ok, es' := SendAgain(batch.key, request, o, es', rest);
    }

    /** Sends a batch again, under the key that it was registered under. */
    method SendAgain(key: Key, request: seq<RecordDTO>, ghost o: Origin, ghost es: seq<Event>,
                     ghost rest: seq<PendingBatch>)
      returns (ok: bool, ghost es': seq<Event>)
      requires Ready() && At(o, es, ReplayWait(key, request, rest))
      modifies store`records, store`lastSyncVersion, store`len, store.buf, transport
      ensures Ready()
      ensures ok ==> At(o, es', Replaying(rest))
      ensures !ok ==> At(o, es', Idle) && es' != [] && es'[|es'| - 1] == Failed
    {
      var reply, _ := Exchange(key, request);
      if reply.None? {
        PushFailed(o.device, es);
        return false, es + [Failed];
      }
      Acknowledged(o.device, es, reply.value);
      return true, es + [PushDelivered(reply.value)];
    }

    method ReplayPending(ghost o: Origin, ghost es: seq<Event>) returns (ok: bool, ghost es': seq<Event>)
      requires Ready() && At(o, es, Replaying(store.State().pending))
      modifies store`records, store`lastSyncVersion, store`len, store.buf, transport
      ensures Ready()
      ensures ok ==> At(o, es', Replaying([]))
      ensures !ok ==> At(o, es', Idle) && es' != [] && es'[|es'| - 1] == Failed
    {
      es' := es;
      var batches := store.PendingPushes();
      ghost var all := batches[..];
      ghost var rest := all;
      for i := 0 to batches.Length
        invariant Ready()
        invariant batches[..] == all && rest == all[i..]
        invariant At(o, es', Replaying(rest))
      {
        TakeNext(all, i, rest);
        ok, es' := ReplayBatch(batches[i], o, es', rest[1..]);
        if !ok {
          return false, es';
        }
        rest := rest[1..];
      }
      ok := true;
    }

    method RemainingConflicts() returns (left: seq<RecordDTO>)
      requires store.Valid()
      ensures IsLeftOver(store.records, left)
    {
      var dirty := store.ListDirty();
      var result := new RecordDTO[|dirty|];
      for i := 0 to |dirty|
        invariant forall k :: 0 <= k < i ==> result[k] == dirty[k].dto
      {
        result[i] := dirty[i].dto;
      }
      left := result[..];
      assert forall k :: 0 <= k < |dirty| ==> left[k] == dirty[k].dto;
    }

    /** A pull, and the listing of what is dirty after it. */
    method PullPhase(i: nat, ghost o: Origin, ghost es: seq<Event>)
      returns (ok: bool, dirty: seq<StoredRecord>, ghost es': seq<Event>)
      requires Ready() && At(o, es, Pulling(i))
      modifies store`records, store`lastSyncVersion, env, transport
      ensures Ready() && env.nextId >= old(env.nextId)
      ensures es' != []
      ensures ok ==> At(o, es', AfterPull(i, dirty, Conf())) && es'[|es'| - 1].PullDelivered?
      ensures !ok ==> At(o, es', Idle) && es'[|es'| - 1] == Failed
    {
      ghost var jobs;
      dirty := [];
      ok, jobs := PullAndMerge();
      if !ok {
        RunAppend(o.device, es, Failed);
        assert RegisteredKeys(o.device, es + [Failed]) == RegisteredKeys(o.device, es);
        return false, [], es + [Failed];
      }
      dirty := store.ListDirty();
      RunAppend(o.device, es, PullDelivered(jobs, dirty));
      assert RegisteredKeys(o.device, es + [PullDelivered(jobs, dirty)]) == RegisteredKeys(o.device, es);
      es' := es + [PullDelivered(jobs, dirty)];
    }

    /** A push of what is dirty, and the decision whether to go on. */
    method PushPhase(dirty: seq<StoredRecord>, i: nat, ghost o: Origin, ghost es: seq<Event>)
      returns (ok: bool, hadConflicts: bool, ghost es': seq<Event>)
      requires Ready() && At(o, es, Pushing(i, ChunksOf(dirty, EffectiveSize(chunkSize)), false))
      modifies store, store.buf, env, transport
      ensures Ready() && env.nextId >= old(env.nextId)
      ensures fresh(store.Footprint() - old(store.Footprint())) && store.lastSyncAt == old(store.lastSyncAt)
      ensures es' != []
      ensures ok ==> At(o, es', if hadConflicts then Iterate(i + 1, Conf()) else Idle) && !es'[|es'| - 1].Failed?
      ensures ok ==> (hadConflicts <==> AtLoopHead(o.device, es'))
      ensures !ok ==> At(o, es', Idle) && es'[|es'| - 1] == Failed
    {
      ok, hadConflicts, es' := PushAll(dirty, o, es, i);
      if ok {
        PushedAll(o.device, es', i, hadConflicts);
        es' := es' + [Advanced(0)];
      }
    }

    /** One pass of pull and push. done: the loop ends here, with or without an error. */
    method Iteration(i: nat, ghost o: Origin, ghost es: seq<Event>)
      returns (ok: bool, done: bool, ghost es': seq<Event>)
      requires Ready() && At(o, es, Pulling(i))
      modifies store, store.buf, env, transport
      ensures Ready() && env.nextId >= old(env.nextId)
      ensures fresh(store.Footprint() - old(store.Footprint())) && store.lastSyncAt == old(store.lastSyncAt)
      ensures es' != []
      ensures ok ==> At(o, es', if done then Idle else Iterate(i + 1, Conf())) && !es'[|es'| - 1].Failed?
      ensures ok ==> (done <==> !AtLoopHead(o.device, es'))
      ensures !ok ==> At(o, es', Idle) && es'[|es'| - 1] == Failed
    {
      var dirty;
      ok, dirty, es' := PullPhase(i, o, es);
      if !ok {
        return false, true, es';
      }
      if |dirty| == 0 {
        return true, true, es';
      }
      var hadConflicts;
      ok, hadConflicts, es' := PushPhase(dirty, i, o, es');
      done := !ok || !hadConflicts;
    }

    /** The loop over iterations; finished: it was left before the limit. */
    method Converge(ghost o: Origin, ghost es: seq<Event>) returns (ok: bool, finished: bool, ghost es': seq<Event>)
      requires Ready() && At(o, es, Iterate(0, Conf())) && es != [] && AtLoopHead(o.device, es)
      modifies store, store.buf, env, transport
      ensures Ready() && fresh(store.Footprint() - old(store.Footprint())) && store.lastSyncAt == old(store.lastSyncAt)
      ensures At(o, es', Idle) && es' != []
      ensures ok <==> !es'[|es'| - 1].Failed?
      ensures ok ==> (finished <==> !AtLoopHead(o.device, es'))
    {
      es' := es;
      ok, finished := true, false;
      var i := 0;
      while i < maxIterations
        invariant 0 <= i
        invariant Ready() && store.lastSyncAt == old(store.lastSyncAt)
        invariant fresh(store.Footprint() - old(store.Footprint()))
        invariant At(o, es', Iterate(i, Conf()))
        invariant es' != [] && AtLoopHead(o.device, es')
      {
        ok, finished, es' := Iteration(i, o, es');
        if !ok || finished {
          return;
        }
        i := i + 1;
      }
      ok, finished := true, false;
    }

    /** The start of a Sync: everything up to the loop over iterations. */
    method Replay(ghost o: Origin) returns (ok: bool, ghost es: seq<Event>)
      requires Ready() && o == Origin(Device(store.State(), Idle, Conf()), transport.trace, env.nextId)
      modifies store`records, store`lastSyncVersion, store`len, store.buf, transport
      ensures Ready()
      ensures ok ==> At(o, es, Iterate(0, Conf())) && es != [] && AtLoopHead(o.device, es)
      ensures !ok ==> At(o, es, Idle) && es != [] && es[|es| - 1] == Failed
    {
      JustStarted(o.device);
      ok, es := ReplayPending(o, [Started]);
      if ok {
        Replayed(o.device, es);
        es := es + [Advanced(0)];
      }
    }

    /** Everything of a Sync but the time stamp at its end. */
    method RunSync() returns (ok: bool, left: seq<RecordDTO>, ghost es: seq<Event>)
      requires Ready()
      modifies store, store.buf, env, transport
      ensures Ready() && fresh(store.Footprint() - old(store.Footprint())) && store.lastSyncAt == old(store.lastSyncAt)
      ensures At(Origin(Device(old(store.State()), Idle, Conf()), old(transport.trace), old(env.nextId)), es, Idle)
      ensures es != [] && (ok <==> !es[|es| - 1].Failed?)
      ensures if ok && AtLoopHead(Device(old(store.State()), Idle, Conf()), es)
              then IsLeftOver(store.records, left) else left == []
      ensures old(transport.trace) <= transport.trace
      ensures var calls := transport.trace[|old(transport.trace)|..];
        && Pulls(calls) <= Limit(Conf()) && PulledAgainOnConflict(calls)
        && (ok ==> EndsAsItShould(Conf(), calls, store.records))
        && if ok && (Pulls(calls) == 0 || RefusedSincePull(calls)) then IsLeftOver(store.records, left) else left == []
    {
      ghost var o := Origin(Device(store.State(), Idle, Conf()), transport.trace, env.nextId);
      left := [];
      ok, es := Replay(o);
      if !ok {
        SyncIsAsTold(o.device, es, o.trace, transport.trace);
        return;
      }
      var finished;
      ok, finished, es := Converge(o, es);
      if ok && !finished {
        left := RemainingConflicts();
      }
      SyncIsAsTold(o.device, es, o.trace, transport.trace);
    }

    /**
     * A whole Sync starts and ends with the device at rest and in between makes steps of the machine
     * only. Its last step is Failed exactly when it returns an error, and only then LastSyncAt stays. It
     * returns what is dirty when it stops at the head of the loop, that is, at the limit of iterations.
     */
    method Sync() returns (ok: bool, left: seq<RecordDTO>, ghost es: seq<Event>)
      requires Ready()
      modifies store, store.buf, env, transport
      ensures Ready() && fresh(store.Footprint() - old(store.Footprint()))
      ensures At(Origin(Device(old(store.State()), Idle, Conf()), old(transport.trace), old(env.nextId)), es, Idle)
      ensures es != [] && (ok <==> !es[|es| - 1].Failed?)
      ensures if ok && AtLoopHead(Device(old(store.State()), Idle, Conf()), es)
              then IsLeftOver(store.records, left) else left == []
      ensures old(transport.trace) <= transport.trace
      ensures var calls := transport.trace[|old(transport.trace)|..];
        && Pulls(calls) <= Limit(Conf()) && PulledAgainOnConflict(calls)
        && (ok ==> EndsAsItShould(Conf(), calls, store.records))
        && if ok && (Pulls(calls) == 0 || RefusedSincePull(calls)) then IsLeftOver(store.records, left) else left == []
      ensures store.lastSyncAt == if ok then env.now else old(store.lastSyncAt)
    {
      ok, left, es := RunSync();
      if ok {
        var now := env.Now();
        store.SetLastSyncAt(now);
      }
    }
  }
}
