/**
 * One device as a state machine: local edits, and a Sync that replays unacknowledged batches, then
 * pulls and pushes in turn. Every wait for the network is a state of its own, so that other devices
 * can act in between and any call can fail.
 */
module Device {
  import opened Domain
  import opened Merge
  import opened Chunks

  datatype Config = Config(chunkSize: int, maxIterations: int)

  /** What the store holds of the protocol. */
  datatype LocalState = LocalState(records: Records, cursor: int, pending: seq<PendingBatch>)

  const EMPTY_STORE := LocalState(map[], 0, [])

  datatype Phase =
    | Idle
    | Replaying(rest: seq<PendingBatch>)
    | ReplayWait(key: Key, request: seq<RecordDTO>, rest: seq<PendingBatch>)
    | Pulling(iteration: nat)
    | Pushing(iteration: nat, chunks: seq<seq<StoredRecord>>, conflicts: bool)
    | PushWait(iteration: nat, key: Key, chunk: seq<StoredRecord>, chunks: seq<seq<StoredRecord>>, conflicts: bool)

  datatype Device = Device(store: LocalState, phase: Phase, config: Config)

  // ---------------------------------------------------------------- local edits

  datatype Edit =
    | Create(id: Id, kind: DataType, payload: Payload, at: Time)
    | Update(id: Id, payload: Payload, at: Time)
    | Remove(id: Id, at: Time)
    | Import(dtos: seq<RecordDTO>, at: Time)

  function ImportAll(records: Records, dtos: seq<RecordDTO>, at: Time): Records {
    if dtos == [] then records
    else
      var dto := dtos[|dtos| - 1];
      Put(ImportAll(records, dtos[..|dtos| - 1], at), StoredRecord(dto.(baseVersion := dto.version), true, at))
  }

  /** Update and Remove of an unknown id are refused and change nothing. */
  function ApplyEdit(records: Records, e: Edit): Records {
    match e
    case Create(id, kind, payload, at) =>
      Put(records, StoredRecord(RecordDTO(id, kind, payload, 0, 0, 0, false), true, at))
    case Update(id, payload, at) =>
      if id !in records then records
      else
        var dto := records[id].dto;
        Put(records, StoredRecord(dto.(payload := payload, baseVersion := dto.version), true, at))
    case Remove(id, at) =>
      if id !in records then records
      else
        var dto := records[id].dto;
        Put(records, StoredRecord(dto.(isDeleted := true, baseVersion := dto.version), true, at))
    case Import(dtos, at) => ImportAll(records, dtos, at)
  }

  // ---------------------------------------------------------------- what an edit leaves

  /** The last of the imported records with this id. */
  function LastAbout(dtos: seq<RecordDTO>, id: Id): Option<RecordDTO> {
    if dtos == [] then None
    else if dtos[|dtos| - 1].id == id then Some(dtos[|dtos| - 1])
    else LastAbout(dtos[..|dtos| - 1], id)
  }

  /** Of each id the last imported record counts, marked dirty as of the import. */
  lemma {:induction false} ImportedIsLast(records: Records, dtos: seq<RecordDTO>, at: Time, id: Id)
    ensures var after := ImportAll(records, dtos, at);
      && (id in after <==> id in records || LastAbout(dtos, id).Some?)
      && (id in after ==>
            after[id] == match LastAbout(dtos, id)
                         case None => records[id]
                         case Some(dto) => StoredRecord(dto.(baseVersion := dto.version), true, at))
  {
    if dtos != [] {
      ImportedIsLast(records, dtos[..|dtos| - 1], at, id);
    }
  }

  // ---------------------------------------------------------------- sync steps

  function Max(a: int, b: int): int {
    if a < b then b else a
  }

  function PulledCursor(cursor: int, jobs: seq<Job>): int {
    if jobs == [] then cursor
    else Max(PulledCursor(cursor, jobs[..|jobs| - 1]), jobs[|jobs| - 1].incoming.version)
  }

  /** Applied records become clean copies of what the server now has. */
  function PutApplied(records: Records, results: seq<PushResult>): Records {
    if results == [] then records
    else
      var before := PutApplied(records, results[..|results| - 1]);
      var r := results[|results| - 1];
      if r.status == Applied then Put(before, Clean(r.serverRecord)) else before
  }

  function AppliedCursor(cursor: int, results: seq<PushResult>): int {
    if results == [] then cursor
    else
      var before := AppliedCursor(cursor, results[..|results| - 1]);
      var r := results[|results| - 1];
      if r.status == Applied then Max(before, r.serverRecord.version) else before
  }

  predicate HasConflict(results: seq<PushResult>) {
    exists r :: r in results && r.status == Conflict
  }

  /** The batches whose key is not the given one, in order. */
  function Without(pending: seq<PendingBatch>, key: Key): seq<PendingBatch> {
    if pending == [] then []
    else
      var b := pending[|pending| - 1];
      Without(pending[..|pending| - 1], key) + if b.key == key then [] else [b]
  }

  /** What the reply to the push with the given key does to the store. */
  function Acknowledge(store: LocalState, key: Key, results: seq<PushResult>): LocalState {
    LocalState(PutApplied(store.records, results), AppliedCursor(store.cursor, results), Without(store.pending, key))
  }

  function IdsOf(chunk: seq<StoredRecord>): seq<Id> {
    seq(|chunk|, i requires 0 <= i < |chunk| => chunk[i].dto.id)
  }

  function DtosOf(chunk: seq<StoredRecord>): (dtos: seq<RecordDTO>)
    ensures |dtos| == |chunk|
    ensures forall i :: 0 <= i < |chunk| ==> dtos[i] == chunk[i].dto
  {
    seq(|chunk|, i requires 0 <= i < |chunk| => chunk[i].dto)
  }

  /** The records of a batch as they are now; ids that are gone are skipped. */
  function RequestOf(records: Records, ids: seq<Id>): seq<RecordDTO> {
    if ids == [] then []
    else
      var id := ids[|ids| - 1];
      RequestOf(records, ids[..|ids| - 1]) + if id in records then [records[id].dto] else []
  }

  /** dirty is an enumeration, without repetition, of the dirty records. */
  ghost predicate ListsDirty(records: Records, dirty: seq<StoredRecord>) {
    && (forall i :: 0 <= i < |dirty| ==>
          dirty[i].dto.id in records && dirty[i] == records[dirty[i].dto.id] && dirty[i].dirty)
    && (forall i, j :: 0 <= i < j < |dirty| ==> dirty[i].dto.id != dirty[j].dto.id)
    && (forall id :: id in records && records[id].dirty ==> exists i :: 0 <= i < |dirty| && dirty[i].dto.id == id)
  }

  /** The head of the loop over iterations. */
  function Iterate(iteration: nat, config: Config): Phase {
    if iteration < config.maxIterations then Pulling(iteration) else Idle
  }

  function AfterPull(iteration: nat, dirty: seq<StoredRecord>, config: Config): Phase {
    if dirty == [] then Idle
    else Pushing(iteration, ChunksOf(dirty, EffectiveSize(config.chunkSize)), false)
  }

  datatype Event =
    | Edited(edit: Edit)
    | Started
    // an internal step between two network calls; a new batch takes the key
    | Advanced(key: Key)
    | PullDelivered(jobs: seq<Job>, dirty: seq<StoredRecord>)
    | PushDelivered(results: seq<PushResult>)
    | Failed

  ghost predicate Enabled(d: Device, e: Event) {
    match e
    case Edited(edit) => edit.Create? ==> edit.id !in d.store.records
    case Started => d.phase.Idle?
    case Advanced(_) => d.phase.Replaying? || d.phase.Pushing?
    case PullDelivered(jobs, dirty) =>
      && d.phase.Pulling?
      && DistinctIncoming(jobs)
      && FreshCopies(d.store.records, jobs)
      && ListsDirty(MergeAll(d.store.records, jobs), dirty)
    case PushDelivered(_) => d.phase.ReplayWait? || d.phase.PushWait?
    case Failed => d.phase.Pulling? || d.phase.ReplayWait? || d.phase.PushWait?
  }

  function AdvanceReplay(d: Device): Device
    requires d.phase.Replaying?
  {
    var rest := d.phase.rest;
    if rest == [] then
      d.(phase := Iterate(0, d.config))
    else
      var request := RequestOf(d.store.records, rest[0].ids);
      if request == [] then
        d.(store := d.store.(pending := Without(d.store.pending, rest[0].key)), phase := Replaying(rest[1..]))
      else
        d.(phase := ReplayWait(rest[0].key, request, rest[1..]))
  }

  function AdvancePush(d: Device, key: Key): Device
    requires d.phase.Pushing?
  {
    var Pushing(iteration, chunks, conflicts) := d.phase;
    if chunks == [] then
      d.(phase := if conflicts then Iterate(iteration + 1, d.config) else Idle)
    else
      d.(store := d.store.(pending := d.store.pending + [PendingBatch(key, IdsOf(chunks[0]))]),
         phase := PushWait(iteration, key, chunks[0], chunks[1..], conflicts))
  }

  function Next(d: Device, e: Event): Device
    requires Enabled(d, e)
  {
    match e
    case Edited(edit) => d.(store := d.store.(records := ApplyEdit(d.store.records, edit)))
    case Started => d.(phase := Replaying(d.store.pending))
    case Advanced(key) => if d.phase.Replaying? then AdvanceReplay(d) else AdvancePush(d, key)
    case PullDelivered(jobs, dirty) =>
      var records := MergeAll(d.store.records, jobs);
      Device(LocalState(records, PulledCursor(d.store.cursor, jobs), d.store.pending),
             AfterPull(d.phase.iteration, dirty, d.config), d.config)
    case PushDelivered(results) =>
      var store := Acknowledge(d.store, d.phase.key, results);
      if d.phase.ReplayWait? then Device(store, Replaying(d.phase.rest), d.config)
      else
        var conflicts := d.phase.conflicts || HasConflict(results);
        Device(store, Pushing(d.phase.iteration, d.phase.chunks, conflicts), d.config)
    case Failed => d.(phase := Idle)
  }

  ghost predicate IsRun(d: Device, es: seq<Event>)
    decreases |es|, 0
  {
    es == [] || (IsRun(d, es[..|es| - 1]) && Enabled(Run(d, es[..|es| - 1]), es[|es| - 1]))
  }

  ghost function Run(d: Device, es: seq<Event>): Device
    requires IsRun(d, es)
    decreases |es|, 1
  {
    if es == [] then d else Next(Run(d, es[..|es| - 1]), es[|es| - 1])
  }

  /** One call over the network: what was asked, and the reply, if one came. */
  datatype Call =
    | PullCall(since: int, records: Option<seq<RecordDTO>>)
    | PushCall(key: Key, request: seq<RecordDTO>, results: Option<seq<PushResult>>)

  function IncomingOf(jobs: seq<Job>): (dtos: seq<RecordDTO>)
    ensures |dtos| == |jobs| && forall i :: 0 <= i < |jobs| ==> dtos[i] == jobs[i].incoming
  {
    seq(|jobs|, i requires 0 <= i < |jobs| => jobs[i].incoming)
  }

  /** The request a waiting device has sent: its key and its records. */
  function Outstanding(d: Device): Option<(Key, seq<RecordDTO>)> {
    match d.phase
    case ReplayWait(key, request, _) => Some((key, request))
    case PushWait(_, key, chunk, _, _) => Some((key, DtosOf(chunk)))
    case _ => None
  }

  /** The call that an event completes, if any. */
  ghost function CallOf(d: Device, e: Event): seq<Call>
    requires Enabled(d, e)
  {
    match e
    case PullDelivered(jobs, _) => [PullCall(d.store.cursor, Some(IncomingOf(jobs)))]
    case PushDelivered(results) =>
      var sent := Outstanding(d).value;
      [PushCall(sent.0, sent.1, Some(results))]
    case Failed =>
      if d.phase.Pulling? then [PullCall(d.store.cursor, None)]
      else
        var sent := Outstanding(d).value;
        [PushCall(sent.0, sent.1, None)]
    case _ => []
  }

  ghost function CallsOf(d: Device, es: seq<Event>): seq<Call>
    requires IsRun(d, es)
  {
    if es == [] then []
    else CallsOf(d, es[..|es| - 1]) + CallOf(Run(d, es[..|es| - 1]), es[|es| - 1])
  }

  lemma RunAppend(d: Device, es: seq<Event>, e: Event)
    requires IsRun(d, es) && Enabled(Run(d, es), e)
    ensures IsRun(d, es + [e])
    ensures Run(d, es + [e]) == Next(Run(d, es), e)
    ensures CallsOf(d, es + [e]) == CallsOf(d, es) + CallOf(Run(d, es), e)
  {
  }

  // ---------------------------------------------------------------- pending discipline

  /** At most one batch is unacknowledged, and it is the one the Sync is busy with. */
  ghost predicate Disciplined(d: Device) {
    && Keyed(d.store.records)
    && |d.store.pending| <= 1
    && (forall b, id :: b in d.store.pending && id in b.ids ==> id in d.store.records)
    && match d.phase
       case Idle => true
       case Replaying(rest) => rest == d.store.pending
       case ReplayWait(key, _, rest) => rest == [] && |d.store.pending| == 1 && d.store.pending[0].key == key
       case Pulling(_) => d.store.pending == []
       case Pushing(_, chunks, _) => d.store.pending == [] && InStore(d.store.records, chunks)
       case PushWait(_, key, chunk, chunks, _) =>
         && d.store.pending == [PendingBatch(key, IdsOf(chunk))]
         && InStore(d.store.records, chunks)
  }

  ghost predicate InStore(records: Records, chunks: seq<seq<StoredRecord>>) {
    forall c, r :: c in chunks && r in c ==> r.dto.id in records
  }

  lemma {:induction false} ImportKeepsKeyed(records: Records, dtos: seq<RecordDTO>, at: Time)
    requires Keyed(records)
    ensures Keyed(ImportAll(records, dtos, at)) && records.Keys <= ImportAll(records, dtos, at).Keys
  {
    if dtos != [] {
      ImportKeepsKeyed(records, dtos[..|dtos| - 1], at);
    }
  }

  lemma EditKeepsKeyed(records: Records, e: Edit)
    requires Keyed(records)
    ensures Keyed(ApplyEdit(records, e)) && records.Keys <= ApplyEdit(records, e).Keys
  {
    if e.Import? {
      ImportKeepsKeyed(records, e.dtos, e.at);
    }
  }

  lemma {:induction false} AppliedKeepsKeyed(records: Records, results: seq<PushResult>)
    requires Keyed(records)
    ensures Keyed(PutApplied(records, results)) && records.Keys <= PutApplied(records, results).Keys
  {
    if results != [] {
      AppliedKeepsKeyed(records, results[..|results| - 1]);
    }
  }

  /** A record that no applied result is about stays as it is on the device. */
  lemma {:induction false} NotTouched(records: Records, results: seq<PushResult>, id: Id)
    requires forall i :: 0 <= i < |results| && results[i].status == Applied ==> results[i].serverRecord.id != id
    ensures var after := PutApplied(records, results);
      && (id in after <==> id in records) && (id in records ==> after[id] == records[id])
  {
    if results != [] {
      NotTouched(records, results[..|results| - 1], id);
    }
  }

  lemma {:induction false} PutWhereApplied(records: Records, results: seq<PushResult>, i: nat)
    requires i < |results| && results[i].status == Applied
    requires forall k :: i < k < |results| && results[k].status == Applied ==>
               results[k].serverRecord.id != results[i].serverRecord.id
    ensures var after := PutApplied(records, results);
      results[i].serverRecord.id in after && after[results[i].serverRecord.id] == Clean(results[i].serverRecord)
  {
    if i < |results| - 1 {
      PutWhereApplied(records, results[..|results| - 1], i);
    }
  }

  lemma {:induction false} CursorOnlyGrows(cursor: int, results: seq<PushResult>)
    ensures AppliedCursor(cursor, results) >= cursor
  {
    if results != [] {
      CursorOnlyGrows(cursor, results[..|results| - 1]);
    }
  }

  /** A request has the records of the ids that the store has, and no others. */
  lemma {:induction false} RequestHasPresent(records: Records, ids: seq<Id>)
    ensures forall dto :: dto in RequestOf(records, ids) <==>
              exists id :: id in ids && id in records && records[id].dto == dto
    ensures |RequestOf(records, ids)| <= |ids|
  {
    if ids != [] {
      var n := |ids| - 1;
      RequestHasPresent(records, ids[..n]);
      forall dto | dto in RequestOf(records, ids)
        ensures exists id :: id in ids && id in records && records[id].dto == dto
      {
        if dto in RequestOf(records, ids[..n]) {
          var id :| id in ids[..n] && id in records && records[id].dto == dto;
          assert id in ids;
        } else {
          assert ids[n] in ids;
        }
      }
      forall id | id in ids && id in records ensures records[id].dto in RequestOf(records, ids) {
        if id in ids[..n] { assert records[id].dto in RequestOf(records, ids[..n]); }
      }
    }
  }

  /** Of two lists one after the other. */
  lemma {:induction false} WithoutConcat(a: seq<PendingBatch>, b: seq<PendingBatch>, key: Key)
    ensures Without(a + b, key) == Without(a, key) + Without(b, key)
  {
    if b == [] {
      assert a + b == a;
    } else {
      var n := |b| - 1;
      WithoutConcat(a, b[..n], key);
      assert (a + b)[..|a| + n] == a + b[..n];
    }
  }

  /** A batch goes exactly if it has the key, and all others stay in their order: around each one it is kept or not. */
  lemma {:induction false} WithoutAround(pending: seq<PendingBatch>, i: nat, key: Key)
    requires i < |pending|
    ensures Without(pending, key) ==
            Without(pending[..i], key) + (if pending[i].key == key then [] else [pending[i]])
            + Without(pending[i + 1..], key)
  {
    var one := [pending[i]];
    assert one[..0] == [];
    WithoutConcat(pending[..i], one, key);
    WithoutConcat(pending[..i] + one, pending[i + 1..], key);
    assert pending[..i] + one + pending[i + 1..] == pending;
  }

  lemma WithoutOnly(b: PendingBatch)
    ensures Without([b], b.key) == []
  {
  }

  lemma {:induction false} ChunkMembers<T>(records: seq<T>, size: nat, c: seq<T>, r: T)
    requires size > 0
    requires c in ChunksOf(records, size) && r in c
    ensures r in records
  {
    if |records| > size {
      if c != records[..size] {
        assert c in ChunksOf(records[size..], size);
        ChunkMembers(records[size..], size, c, r);
      }
    }
  }

  lemma StepKeepsDisciplined(d: Device, e: Event)
    requires Disciplined(d) && Enabled(d, e)
    ensures Disciplined(Next(d, e))
  {
    match e
    case Edited(edit) => EditKeepsKeyed(d.store.records, edit);
    case Started =>
    case Advanced(key) =>
      if d.phase.Replaying? {
        if d.phase.rest != [] { WithoutOnly(d.phase.rest[0]); }
      } else if d.phase.chunks != [] {
        var next := Next(d, e);
        assert d.phase.chunks[0] in d.phase.chunks;
        forall id | id in IdsOf(d.phase.chunks[0]) ensures id in d.store.records {
          var i :| 0 <= i < |d.phase.chunks[0]| && d.phase.chunks[0][i].dto.id == id;
        }
        assert next.store.pending == [PendingBatch(key, IdsOf(d.phase.chunks[0]))];
      }
    case PullDelivered(jobs, dirty) =>
      MergeKeepsKeyed(d.store.records, jobs);
      var next := Next(d, e);
      if dirty != [] {
        forall c, r | c in next.phase.chunks && r in c ensures r.dto.id in next.store.records {
          ChunkMembers(dirty, EffectiveSize(d.config.chunkSize), c, r);
        }
      }
    case PushDelivered(results) =>
      AppliedKeepsKeyed(d.store.records, results);
      WithoutOnly(d.store.pending[0]);
      assert d.store.pending == [d.store.pending[0]];
    case Failed =>
  }

  /**
   * From an empty store, in every run with calls failing anywhere, at most one batch is pending, its
   * records are in the store, and a Sync that ends without an error leaves none.
   */
  lemma {:induction false} PendingDiscipline(config: Config, es: seq<Event>)
    requires IsRun(Device(EMPTY_STORE, Idle, config), es)
    ensures var d := Run(Device(EMPTY_STORE, Idle, config), es);
      && Disciplined(d)
      && (es != [] && d.phase.Idle? && !es[|es| - 1].Failed? && !es[|es| - 1].Edited? ==> d.store.pending == [])
  {
    if es != [] {
      var before := Run(Device(EMPTY_STORE, Idle, config), es[..|es| - 1]);
      PendingDiscipline(config, es[..|es| - 1]);
      StepKeepsDisciplined(before, es[|es| - 1]);
      if es[|es| - 1].PushDelivered? || es[|es| - 1].Started? {
        assert !Next(before, es[|es| - 1]).phase.Idle?;
      }
    }
  }

  // ---------------------------------------------------------------- what a push sends

  /** The records of the answered pushes, in the order they were sent. */
  ghost function AnsweredRecords(calls: seq<Call>): seq<RecordDTO> {
    if calls == [] then []
    else
      var c := calls[|calls| - 1];
      AnsweredRecords(calls[..|calls| - 1]) + if c.PushCall? && c.results.Some? then c.request else []
  }

  /** What is still to be sent or answered. */
  ghost function Unanswered(phase: Phase): seq<StoredRecord> {
    match phase
    case Pushing(_, chunks, _) => Flatten(chunks)
    case PushWait(_, _, chunk, chunks, _) => chunk + Flatten(chunks)
    case _ => []
  }

  lemma DtosOfConcat(a: seq<StoredRecord>, b: seq<StoredRecord>)
    ensures DtosOf(a + b) == DtosOf(a) + DtosOf(b)
  {
  }

  ghost predicate InPush(phase: Phase) {
    phase.Pushing? || phase.PushWait?
  }

  lemma PushStepCovers(d: Device, calls: seq<Call>, e: Event)
    requires Enabled(d, e) && InPush(d.phase) && (e.Advanced? || e.PushDelivered?)
    ensures var next := Next(d, e).phase;
      && !next.Replaying? && !next.ReplayWait?
      && (InPush(next) ==>
            AnsweredRecords(calls + CallOf(d, e)) + DtosOf(Unanswered(next)) ==
            AnsweredRecords(calls) + DtosOf(Unanswered(d.phase)))
  {
    if e.PushDelivered? {
      DtosOfConcat(d.phase.chunk, Flatten(d.phase.chunks));
      var sent := Outstanding(d).value;
      assert (calls + CallOf(d, e))[..|calls|] == calls;
      assert AnsweredRecords(calls + CallOf(d, e)) == AnsweredRecords(calls) + sent.1;
    } else {
      assert calls + CallOf(d, e) == calls;
      if d.phase.chunks != [] {
        assert Flatten(d.phase.chunks) == d.phase.chunks[0] + Flatten(d.phase.chunks[1..]);
      }
    }
  }

  /** While chunks are sent and answered, what was answered and what is left make up the dirty list. */
  lemma {:induction false} PushInProgress(d: Device, dirty: seq<StoredRecord>, es: seq<Event>)
    requires d.phase.Pushing? && Flatten(d.phase.chunks) == dirty
    requires IsRun(d, es) && forall e :: e in es ==> e.Advanced? || e.PushDelivered?
    ensures var phase := Run(d, es).phase;
      && !phase.Replaying? && !phase.ReplayWait?
      && (InPush(phase) ==> AnsweredRecords(CallsOf(d, es)) + DtosOf(Unanswered(phase)) == DtosOf(dirty))
  {
    if es != [] {
      var before := es[..|es| - 1];
      assert es[|es| - 1] in es && forall e :: e in before ==> e in es;
      PushInProgress(d, dirty, before);
      if InPush(Run(d, before).phase) {
        PushStepCovers(Run(d, before), CallsOf(d, before), es[|es| - 1]);
      }
    }
  }

  /** The ids that a step puts on the pending list. */
  ghost function PutOnPending(before: seq<PendingBatch>, after: seq<PendingBatch>): seq<Id> {
    if |after| > |before| then after[|before|].ids else []
  }

  /** The ids that were put on the pending list, in the order they were. */
  ghost function RecordedIds(d: Device, es: seq<Event>): seq<Id>
    requires IsRun(d, es)
  {
    if es == [] then []
    else
      RecordedIds(d, es[..|es| - 1]) + PutOnPending(Run(d, es[..|es| - 1]).store.pending, Run(d, es).store.pending)
  }

  /** What is still to be put on the pending list. */
  ghost function Unrecorded(phase: Phase): seq<StoredRecord> {
    match phase
    case Pushing(_, chunks, _) => Flatten(chunks)
    case PushWait(_, _, _, chunks, _) => Flatten(chunks)
    case _ => []
  }

  lemma {:induction false} WithoutIsNoLonger(pending: seq<PendingBatch>, key: Key)
    ensures |Without(pending, key)| <= |pending|
  {
    if pending != [] {
      WithoutIsNoLonger(pending[..|pending| - 1], key);
    }
  }

  lemma IdsOfConcat(a: seq<StoredRecord>, b: seq<StoredRecord>)
    ensures IdsOf(a + b) == IdsOf(a) + IdsOf(b)
  {
  }

  lemma PushStepRecords(d: Device, e: Event)
    requires Enabled(d, e) && InPush(d.phase) && (e.Advanced? || e.PushDelivered?) && InPush(Next(d, e).phase)
    ensures PutOnPending(d.store.pending, Next(d, e).store.pending) + IdsOf(Unrecorded(Next(d, e).phase)) ==
            IdsOf(Unrecorded(d.phase))
  {
    if e.PushDelivered? {
      WithoutIsNoLonger(d.store.pending, d.phase.key);
    } else if d.phase.chunks != [] {
      assert Flatten(d.phase.chunks) == d.phase.chunks[0] + Flatten(d.phase.chunks[1..]);
      IdsOfConcat(d.phase.chunks[0], Flatten(d.phase.chunks[1..]));
    }
  }

  /** While chunks are sent and answered, what was put on the pending list and what is left make up the dirty list. */
  lemma {:induction false} RecordingInProgress(d: Device, dirty: seq<StoredRecord>, es: seq<Event>)
    requires d.phase.Pushing? && Flatten(d.phase.chunks) == dirty
    requires IsRun(d, es) && forall e :: e in es ==> e.Advanced? || e.PushDelivered?
    ensures InPush(Run(d, es).phase) ==> RecordedIds(d, es) + IdsOf(Unrecorded(Run(d, es).phase)) == IdsOf(dirty)
  {
    if es != [] {
      var before := es[..|es| - 1];
      assert es[|es| - 1] in es && forall e :: e in before ==> e in es;
      RecordingInProgress(d, dirty, before);
      PushInProgress(d, dirty, before);
      if InPush(Run(d, before).phase) && InPush(Run(d, es).phase) {
        PushStepRecords(Run(d, before), es[|es| - 1]);
      }
    }
  }

  /**
   * A push of the dirty list that runs to its end without an error has sent each record once, in order, and
   * has put each id on the pending list once, in the same order.
   */
  lemma {:induction false} PushCoversDirty(d: Device, dirty: seq<StoredRecord>, es: seq<Event>)
    requires d.phase.Pushing? && d.phase.chunks == ChunksOf(dirty, EffectiveSize(d.config.chunkSize))
    requires IsRun(d, es) && forall e :: e in es ==> e.Advanced? || e.PushDelivered?
    requires Run(d, es).phase.Pushing? && Run(d, es).phase.chunks == []
    ensures AnsweredRecords(CallsOf(d, es)) == DtosOf(dirty)
    ensures RecordedIds(d, es) == IdsOf(dirty)
  {
    ChunksFlatten(dirty, EffectiveSize(d.config.chunkSize));
    PushInProgress(d, dirty, es);
    RecordingInProgress(d, dirty, es);
  }

  // ---------------------------------------------------------------- each record once

  /** No id is twice among the chunks. */
  ghost predicate ChunksDistinct(d: Device) {
    match d.phase
    case Pushing(_, chunks, _) => DistinctIds(DtosOf(Flatten(chunks)))
    case PushWait(_, _, chunk, chunks, _) => DistinctIds(DtosOf(chunk + Flatten(chunks)))
    case _ => true
  }

  lemma RestIsDistinct(chunk: seq<StoredRecord>, rest: seq<StoredRecord>)
    requires DistinctIds(DtosOf(chunk + rest))
    ensures DistinctIds(DtosOf(chunk)) && DistinctIds(DtosOf(rest))
    ensures forall i, j :: 0 <= i < |chunk| && 0 <= j < |rest| ==> chunk[i].dto.id != rest[j].dto.id
  {
    var all := DtosOf(chunk + rest);
    assert forall i :: 0 <= i < |chunk| ==> all[i] == chunk[i].dto;
    assert forall j :: 0 <= j < |rest| ==> all[|chunk| + j] == rest[j].dto;
  }
}
