/** The server's end of the protocol: Pull and Push over the repository and the idempotency store. */
module SyncService {
  import opened Domain
  import opened Repository
  import opened Idempotency

  // 24 hours
  const IDEMPOTENCY_TTL: Time := 24 * 60 * 60 * 1_000_000_000

  /** A push request: who sends it, under which key, and its records. */
  datatype Msg = Msg(owner: Owner, key: Key, dtos: seq<RecordDTO>)

  function KeyOf(m: Msg): (Owner, Key) {
    (m.owner, m.key)
  }

  type HandlerId = nat

  /** A handler at work: the request, which the cache did not answer, and the results so far. */
  datatype Handler = Handler(msg: Msg, results: seq<PushResult>)

  /**
   * The two stores, and the push handlers at work. Only the methods of the stores are atomic, so any
   * number of handlers, also under one key, take turns.
   */
  datatype Server = Server(repo: Repo, cache: Cache, handlers: map<HandlerId, Handler>)

  const EMPTY_SERVER := Server(EMPTY_REPO, map[], map[])

  /** The clock readings of one push: at the lookup, at each upsert, at the save. */
  datatype PushClock = PushClock(lookup: Time, writes: seq<Time>, save: Time)

  datatype PushRun = PushRun(repo: Repo, results: seq<PushResult>)

  datatype PushOutcome = PushOutcome(server: Server, results: seq<PushResult>)

  function UpsertDTO(r: Repo, owner: Owner, dto: RecordDTO, now: Time): UpsertResult {
    Upsert(r, DTOToRecord(dto, owner), dto.baseVersion, now)
  }

  function ResultOf(dto: RecordDTO, u: UpsertResult): PushResult {
    PushResult(dto.id, if u.conflict then Conflict else Applied, RecordToDTO(u.record))
  }

  function PushRecords(r: Repo, owner: Owner, dtos: seq<RecordDTO>, writes: seq<Time>): (run: PushRun)
    requires |writes| >= |dtos|
    ensures |run.results| == |dtos|
  {
    if dtos == [] then PushRun(r, [])
    else
      var n := |dtos| - 1;
      var before := PushRecords(r, owner, dtos[..n], writes);
      var u := UpsertDTO(before.repo, owner, dtos[n], writes[n]);
      PushRun(u.repo, before.results + [ResultOf(dtos[n], u)])
  }

  /**
   * What a push does with nothing else happening meanwhile: a remembered key is answered from the cache;
   * any other request is applied and remembered.
   */
  function ServerPush(s: Server, owner: Owner, key: Key, dtos: seq<RecordDTO>, clock: PushClock): PushOutcome
    requires |clock.writes| >= |dtos|
  {
    if Hit(s.cache, (owner, key), clock.lookup) then
      PushOutcome(s, s.cache[(owner, key)].results)
    else
      var run := PushRecords(s.repo, owner, dtos, clock.writes);
      var entry := Entry(run.results, clock.save + IDEMPOTENCY_TTL);
      PushOutcome(s.(repo := run.repo, cache := s.cache[(owner, key) := entry]), run.results)
  }

  // ---------------------------------------------------------------- what a push does

  /**
   * Every result answers its own record; an applied one is the DTO of a write that this very push
   * appended to the log, with the content that was sent. Nothing already logged changes.
   */
  ghost predicate Answers(before: Repo, after: Repo, owner: Owner, dtos: seq<RecordDTO>, results: seq<PushResult>) {
    && |results| == |dtos|
    && before.log <= after.log
    && (forall i :: 0 <= i < |dtos| ==> results[i].id == dtos[i].id)
    && (forall i :: 0 <= i < |dtos| && results[i].status == Applied ==>
          var v := results[i].serverRecord.version;
          && |before.log| < v <= |after.log|
          && results[i].serverRecord == RecordToDTO(after.log[v - 1].rec)
          && after.log[v - 1].rec.id == dtos[i].id
          && after.log[v - 1].rec.owner == owner
          && RecordContent(after.log[v - 1].rec) == DtoContent(dtos[i]))
  }

  lemma {:induction false} PushAnswers(r: Repo, owner: Owner, dtos: seq<RecordDTO>, writes: seq<Time>)
    requires |writes| >= |dtos| && r.counter == |r.log|
    ensures var run := PushRecords(r, owner, dtos, writes);
      run.repo.counter == |run.repo.log| && Answers(r, run.repo, owner, dtos, run.results)
  {
    if dtos != [] {
      var n := |dtos| - 1;
      var before := PushRecords(r, owner, dtos[..n], writes);
      PushAnswers(r, owner, dtos[..n], writes);
      OneMoreAnswer(r, before.repo, owner, dtos[..n], before.results, dtos[n], writes[n]);
      assert dtos[..n] + [dtos[n]] == dtos;
    }
  }

  lemma OneMoreAnswer(r: Repo, mid: Repo, owner: Owner, dtos: seq<RecordDTO>, results: seq<PushResult>,
                      dto: RecordDTO, now: Time)
    requires mid.counter == |mid.log| && Answers(r, mid, owner, dtos, results)
    ensures var u := UpsertDTO(mid, owner, dto, now);
      u.repo.counter == |u.repo.log| && Answers(r, u.repo, owner, dtos + [dto], results + [ResultOf(dto, u)])
  {
  }

  /** An id outside the request keeps its record. */
  lemma {:induction false} PushFrame(r: Repo, owner: Owner, dtos: seq<RecordDTO>, writes: seq<Time>, id: Id)
    requires |writes| >= |dtos|
    requires forall i :: 0 <= i < |dtos| ==> dtos[i].id != id
    ensures var after := PushRecords(r, owner, dtos, writes).repo;
      && (id in after.records <==> id in r.records)
      && (id in r.records ==> after.records[id] == r.records[id])
  {
    if dtos != [] {
      PushFrame(r, owner, dtos[..|dtos| - 1], writes, id);
    }
  }

  // ---------------------------------------------------------------- runs of the server

  /**
   * Everything that may happen at the server, one atomic step at a time. A push is a lookup, an upsert
   * for each record, and a save; the steps of other handlers and of the REST interface come in between.
   */
  datatype ServerOp =
    | LookUpOp(h: HandlerId, msg: Msg, at: Time)
    | ApplyOp(h: HandlerId, at: Time)
    | SaveOp(h: HandlerId, at: Time)
    | WriteOp(rec: Record, base: int, at: Time)
    | RemoveOp(id: Id, owner: Owner, at: Time)
    | ExpireOp(at: Time)

  type LookUpStep = op: ServerOp | op.LookUpOp? witness LookUpOp(0, Msg(0, 0, []), 0)

  predicate ServerEnabled(s: Server, op: ServerOp) {
    match op
    case LookUpOp(h, _, _) => h !in s.handlers
    case ApplyOp(h, _) => h in s.handlers && |s.handlers[h].results| < |s.handlers[h].msg.dtos|
    case SaveOp(h, _) => h in s.handlers && |s.handlers[h].results| == |s.handlers[h].msg.dtos|
    case _ => true
  }

  /** The record that the handler upserts next. */
  function NextDTO(h: Handler): RecordDTO
    requires |h.results| < |h.msg.dtos|
  {
    h.msg.dtos[|h.results|]
  }

  function LookUp(s: Server, h: HandlerId, msg: Msg, at: Time): Server {
    if Hit(s.cache, KeyOf(msg), at) then s
    else s.(cache := s.cache - {KeyOf(msg)}, handlers := s.handlers[h := Handler(msg, [])])
  }

  function ApplyNext(s: Server, h: HandlerId, at: Time): Server
    requires ServerEnabled(s, ApplyOp(h, at))
  {
    var handler := s.handlers[h];
    var dto := NextDTO(handler);
    var u := UpsertDTO(s.repo, handler.msg.owner, dto, at);
    s.(repo := u.repo,
       handlers := s.handlers[h := handler.(results := handler.results + [ResultOf(dto, u)])])
  }

  function SaveAnswer(s: Server, h: HandlerId, at: Time): Server
    requires ServerEnabled(s, SaveOp(h, at))
  {
    var handler := s.handlers[h];
    s.(cache := s.cache[KeyOf(handler.msg) := Entry(handler.results, at + IDEMPOTENCY_TTL)],
       handlers := s.handlers - {h})
  }

  function ServerStep(s: Server, op: ServerOp): Server
    requires ServerEnabled(s, op)
  {
    match op
    case LookUpOp(h, msg, at) => LookUp(s, h, msg, at)
    case ApplyOp(h, at) => ApplyNext(s, h, at)
    case SaveOp(h, at) => SaveAnswer(s, h, at)
    case WriteOp(rec, base, at) => s.(repo := Upsert(s.repo, rec, base, at).repo)
    case RemoveOp(id, owner, at) => s.(repo := Delete(s.repo, id, owner, at))
    case ExpireOp(at) => s.(cache := Expire(s.cache, at))
  }

  /** The request that the step answers, and the answer. */
  function Reply(s: Server, op: ServerOp): Option<(Msg, seq<PushResult>)>
    requires ServerEnabled(s, op)
  {
    match op
    case LookUpOp(_, msg, at) => if Hit(s.cache, KeyOf(msg), at) then Some((msg, s.cache[KeyOf(msg)].results)) else None
    case SaveOp(h, _) => Some((s.handlers[h].msg, s.handlers[h].results))
    case _ => None
  }

  ghost predicate IsServerRun(s: Server, ops: seq<ServerOp>)
    decreases |ops|, 0
  {
    ops == [] || (IsServerRun(s, ops[..|ops| - 1]) && ServerEnabled(ServerRun(s, ops[..|ops| - 1]), ops[|ops| - 1]))
  }

  ghost function ServerRun(s: Server, ops: seq<ServerOp>): Server
    requires IsServerRun(s, ops)
    decreases |ops|, 1
  {
    if ops == [] then s else ServerStep(ServerRun(s, ops[..|ops| - 1]), ops[|ops| - 1])
  }

  lemma ServerRunAppend(s: Server, ops: seq<ServerOp>, op: ServerOp)
    requires IsServerRun(s, ops) && ServerEnabled(ServerRun(s, ops), op)
    ensures IsServerRun(s, ops + [op]) && ServerRun(s, ops + [op]) == ServerStep(ServerRun(s, ops), op)
  {
  }

  lemma {:induction false} ServerRunJoin(s: Server, ops: seq<ServerOp>, more: seq<ServerOp>)
    requires IsServerRun(s, ops) && IsServerRun(ServerRun(s, ops), more)
    ensures IsServerRun(s, ops + more) && ServerRun(s, ops + more) == ServerRun(ServerRun(s, ops), more)
  {
    if more == [] {
      assert ops + more == ops;
    } else {
      var n := |more| - 1;
      ServerRunJoin(s, ops, more[..n]);
      ServerRunAppend(s, ops + more[..n], more[n]);
      assert ops + more[..n] + [more[n]] == ops + more;
    }
  }

  lemma {:induction false} ServerRunSplit(s: Server, ops: seq<ServerOp>, n: nat)
    requires IsServerRun(s, ops) && n <= |ops|
    ensures IsServerRun(s, ops[..n]) && IsServerRun(ServerRun(s, ops[..n]), ops[n..])
    ensures ServerRun(ServerRun(s, ops[..n]), ops[n..]) == ServerRun(s, ops)
  {
    if n == |ops| {
      assert ops[..n] == ops && ops[n..] == [];
    } else {
      var last := |ops| - 1;
      ServerRunSplit(s, ops[..last], n);
      assert ops[..last][..n] == ops[..n];
      assert ops[n..][..|ops[n..]| - 1] == ops[..last][n..];
    }
  }

  // ---------------------------------------------------------------- a handler left alone

  function ApplyOps(h: HandlerId, n: nat, at: Time): seq<ServerOp> {
    if n == 0 then [] else ApplyOps(h, n - 1, at) + [ApplyOp(h, at)]
  }

  /** The steps with which a handler with n records to go finishes. */
  function FinishOps(h: HandlerId, n: nat, at: Time): seq<ServerOp> {
    ApplyOps(h, n, at) + [SaveOp(h, at)]
  }

  function Times(n: nat, at: Time): (times: seq<Time>)
    ensures |times| == n
  {
    seq(n, _ => at)
  }

  /** The handler h after n more upserts with nothing in between. */
  function Ahead(s: Server, h: HandlerId, n: nat, at: Time): Server
    requires h in s.handlers && |s.handlers[h].results| + n <= |s.handlers[h].msg.dtos|
  {
    var handler := s.handlers[h];
    var from := |handler.results|;
    var run := PushRecords(s.repo, handler.msg.owner, handler.msg.dtos[from..from + n], Times(n, at));
    s.(repo := run.repo, handlers := s.handlers[h := handler.(results := handler.results + run.results)])
  }

  lemma PushOneMore(r: Repo, owner: Owner, dtos: seq<RecordDTO>, from: nat, n: nat, at: Time)
    requires from + n < |dtos|
    ensures var before := PushRecords(r, owner, dtos[from..from + n], Times(n, at));
      var u := UpsertDTO(before.repo, owner, dtos[from + n], at);
      PushRecords(r, owner, dtos[from..from + (n + 1)], Times(n + 1, at)) ==
      PushRun(u.repo, before.results + [ResultOf(dtos[from + n], u)])
  {
    var part := dtos[from..from + (n + 1)];
    assert part[..n] == dtos[from..from + n];
    WritesDoNotMatterBeyond(r, owner, part[..n], Times(n, at), Times(n + 1, at));
  }

  lemma AheadNext(s: Server, h: HandlerId, n: nat, at: Time)
    requires h in s.handlers && |s.handlers[h].results| + n < |s.handlers[h].msg.dtos|
    ensures ServerEnabled(Ahead(s, h, n, at), ApplyOp(h, at))
    ensures ServerStep(Ahead(s, h, n, at), ApplyOp(h, at)) == Ahead(s, h, n + 1, at)
  {
    var handler := s.handlers[h];
    var from := |handler.results|;
    var before := PushRecords(s.repo, handler.msg.owner, handler.msg.dtos[from..from + n], Times(n, at));
    var ahead := Ahead(s, h, n, at);
    assert ahead.handlers[h] == handler.(results := handler.results + before.results);
    assert NextDTO(ahead.handlers[h]) == handler.msg.dtos[from + n];
    PushOneMore(s.repo, handler.msg.owner, handler.msg.dtos, from, n, at);
    var dto := handler.msg.dtos[from + n];
    var result := ResultOf(dto, UpsertDTO(before.repo, handler.msg.owner, dto, at));
    assert handler.results + (before.results + [result]) == handler.results + before.results + [result];
  }

  /** A run to a state, and one more step from there. */
  lemma RunGoesOn(s: Server, ops: seq<ServerOp>, mid: Server, op: ServerOp, end: Server)
    requires IsServerRun(s, ops) && ServerRun(s, ops) == mid && ServerEnabled(mid, op) && ServerStep(mid, op) == end
    ensures IsServerRun(s, ops + [op]) && ServerRun(s, ops + [op]) == end
  {
    ServerRunAppend(s, ops, op);
  }

  lemma AheadOfNothing(s: Server, h: HandlerId, at: Time)
    requires h in s.handlers && |s.handlers[h].results| <= |s.handlers[h].msg.dtos|
    ensures Ahead(s, h, 0, at) == s
  {
    assert s.handlers[h].results + [] == s.handlers[h].results;
    assert s.handlers[h := s.handlers[h]] == s.handlers;
  }

  /** The upserts of a handler with nothing in between are one PushRecords of what it had to go. */
  lemma {:induction false} AppliesAlone(s: Server, h: HandlerId, n: nat, at: Time)
    requires h in s.handlers && |s.handlers[h].results| + n <= |s.handlers[h].msg.dtos|
    ensures IsServerRun(s, ApplyOps(h, n, at)) && ServerRun(s, ApplyOps(h, n, at)) == Ahead(s, h, n, at)
  {
    if n == 0 {
      AheadOfNothing(s, h, at);
    } else {
      AppliesAlone(s, h, n - 1, at);
      AheadNext(s, h, n - 1, at);
      RunGoesOn(s, ApplyOps(h, n - 1, at), Ahead(s, h, n - 1, at), ApplyOp(h, at), Ahead(s, h, n, at));
    }
  }

  lemma {:induction false} WritesDoNotMatterBeyond(
    r: Repo, owner: Owner, dtos: seq<RecordDTO>, writes: seq<Time>, more: seq<Time>)
    requires |writes| >= |dtos| && |more| >= |dtos|
    requires forall i :: 0 <= i < |dtos| ==> writes[i] == more[i]
    ensures PushRecords(r, owner, dtos, writes) == PushRecords(r, owner, dtos, more)
  {
    if dtos != [] {
      WritesDoNotMatterBeyond(r, owner, dtos[..|dtos| - 1], writes, more);
    }
  }

  /** What a handler that is left alone makes of the server: its answer is remembered. */
  function Finished(s: Server, h: HandlerId, at: Time): Server
    requires h in s.handlers && |s.handlers[h].results| <= |s.handlers[h].msg.dtos|
  {
    var handler := s.handlers[h];
    var rest := handler.msg.dtos[|handler.results|..];
    var run := PushRecords(s.repo, handler.msg.owner, rest, Times(|rest|, at));
    Server(run.repo, s.cache[KeyOf(handler.msg) := Entry(handler.results + run.results, at + IDEMPOTENCY_TTL)],
           s.handlers - {h})
  }

  function ToGo(h: Handler): nat
    requires |h.results| <= |h.msg.dtos|
  {
    |h.msg.dtos| - |h.results|
  }

  lemma FinishesAlone(s: Server, h: HandlerId, at: Time)
    requires h in s.handlers && |s.handlers[h].results| <= |s.handlers[h].msg.dtos|
    ensures IsServerRun(s, FinishOps(h, ToGo(s.handlers[h]), at))
    ensures ServerRun(s, FinishOps(h, ToGo(s.handlers[h]), at)) == Finished(s, h, at)
  {
    var n := ToGo(s.handlers[h]);
    AppliesAlone(s, h, n, at);
    AheadSaves(s, h, at);
    ServerRunAppend(s, ApplyOps(h, n, at), SaveOp(h, at));
  }

  lemma AheadSaves(s: Server, h: HandlerId, at: Time)
    requires h in s.handlers && |s.handlers[h].results| <= |s.handlers[h].msg.dtos|
    ensures ServerEnabled(Ahead(s, h, ToGo(s.handlers[h]), at), SaveOp(h, at))
    ensures ServerStep(Ahead(s, h, ToGo(s.handlers[h]), at), SaveOp(h, at)) == Finished(s, h, at)
  {
    var handler := s.handlers[h];
    var n := ToGo(handler);
    assert handler.msg.dtos[|handler.results|..|handler.results| + n] == handler.msg.dtos[|handler.results|..];
    assert s.handlers[h := Ahead(s, h, n, at).handlers[h]] - {h} == s.handlers - {h};
  }

  /**
   * A lookup, the upserts and the save, with nothing in between, are the push of the service: they lead to
   * the same state of the server, and the last of them answers the request with the same results.
   */
  lemma {:induction false} StepsMakeThePush(s: Server, h: HandlerId, msg: Msg, at: Time)
    requires h !in s.handlers
    ensures var n := |msg.dtos|;
      var ops := [LookUpOp(h, msg, at)] + if Hit(s.cache, KeyOf(msg), at) then [] else FinishOps(h, n, at);
      var push := ServerPush(s, msg.owner, msg.key, msg.dtos, PushClock(at, Times(n, at), at));
      && IsServerRun(s, ops) && IsServerRun(s, ops[..|ops| - 1])
      && ServerRun(s, ops) == push.server
      && ServerEnabled(ServerRun(s, ops[..|ops| - 1]), ops[|ops| - 1])
      && Reply(ServerRun(s, ops[..|ops| - 1]), ops[|ops| - 1]) == Some((msg, push.results))
  {
    var lookUp := LookUpOp(h, msg, at);
    OneStep(s, lookUp);
    if Hit(s.cache, KeyOf(msg), at) {
      assert [lookUp] + [] == [lookUp];
      assert [lookUp][..0] == [];
    } else {
      MissMakesThePush(s, h, msg, at);
    }
  }

  lemma {:induction false} MissMakesThePush(s: Server, h: HandlerId, msg: Msg, at: Time)
    requires h !in s.handlers && !Hit(s.cache, KeyOf(msg), at)
    ensures var ops := [LookUpOp(h, msg, at)] + FinishOps(h, |msg.dtos|, at);
      var push := ServerPush(s, msg.owner, msg.key, msg.dtos, PushClock(at, Times(|msg.dtos|, at), at));
      && IsServerRun(s, ops) && IsServerRun(s, ops[..|ops| - 1])
      && ServerRun(s, ops) == push.server
      && ServerEnabled(ServerRun(s, ops[..|ops| - 1]), ops[|ops| - 1])
      && Reply(ServerRun(s, ops[..|ops| - 1]), ops[|ops| - 1]) == Some((msg, push.results))
  {
    var lookUp := LookUpOp(h, msg, at);
    OneStep(s, lookUp);
    MissedAlone(s, h, msg, at);
    ServerRunJoin(s, [lookUp], FinishOps(h, |msg.dtos|, at));
    MissedReply(s, h, msg, at);
    ServerRunJoin(s, [lookUp], ApplyOps(h, |msg.dtos|, at));
    var ops := [lookUp] + FinishOps(h, |msg.dtos|, at);
    assert ops[..|ops| - 1] == [lookUp] + ApplyOps(h, |msg.dtos|, at);
  }

  /** What the save of a handler that ran alone replies. */
  lemma {:induction false} MissedReply(s: Server, h: HandlerId, msg: Msg, at: Time)
    requires h !in s.handlers && !Hit(s.cache, KeyOf(msg), at)
    ensures var looked := LookUp(s, h, msg, at);
      var ops := ApplyOps(h, |msg.dtos|, at);
      && IsServerRun(looked, ops) && ServerEnabled(ServerRun(looked, ops), SaveOp(h, at))
      && Reply(ServerRun(looked, ops), SaveOp(h, at)) ==
         Some((msg, ServerPush(s, msg.owner, msg.key, msg.dtos, PushClock(at, Times(|msg.dtos|, at), at)).results))
  {
    var looked := LookUp(s, h, msg, at);
    AppliesAlone(looked, h, |msg.dtos|, at);
    AheadToTheEnd(looked, h, at);
  }

  lemma {:induction false} AheadToTheEnd(s: Server, h: HandlerId, at: Time)
    requires h in s.handlers && s.handlers[h].results == []
    ensures var msg := s.handlers[h].msg;
      Ahead(s, h, |msg.dtos|, at).handlers[h] ==
      Handler(msg, PushRecords(s.repo, msg.owner, msg.dtos, Times(|msg.dtos|, at)).results)
  {
    var msg := s.handlers[h].msg;
    assert msg.dtos[0..0 + |msg.dtos|] == msg.dtos;
    var run := PushRecords(s.repo, msg.owner, msg.dtos, Times(|msg.dtos|, at));
    assert [] + run.results == run.results;
  }

  lemma {:induction false} OneStep(s: Server, op: ServerOp)
    requires ServerEnabled(s, op)
    ensures IsServerRun(s, [op]) && ServerRun(s, [op]) == ServerStep(s, op)
  {
    assert IsServerRun(s, []) && ServerRun(s, []) == s;
    ServerRunAppend(s, [], op);
    assert [] + [op] == [op];
  }

  lemma MissedAlone(s: Server, h: HandlerId, msg: Msg, at: Time)
    requires h !in s.handlers && !Hit(s.cache, KeyOf(msg), at)
    ensures var looked := LookUp(s, h, msg, at);
      && IsServerRun(looked, FinishOps(h, |msg.dtos|, at))
      && ServerRun(looked, FinishOps(h, |msg.dtos|, at)) ==
         ServerPush(s, msg.owner, msg.key, msg.dtos, PushClock(at, Times(|msg.dtos|, at), at)).server
  {
    FinishesAlone(LookUp(s, h, msg, at), h, at);
    FinishedIsPush(s, h, msg, at);
  }

  lemma FinishedIsPush(s: Server, h: HandlerId, msg: Msg, at: Time)
    requires h !in s.handlers && !Hit(s.cache, KeyOf(msg), at)
    ensures Finished(LookUp(s, h, msg, at), h, at) ==
            ServerPush(s, msg.owner, msg.key, msg.dtos, PushClock(at, Times(|msg.dtos|, at), at)).server
  {
    var looked := LookUp(s, h, msg, at);
    FinishedFromStart(looked, h, at);
    var run := PushRecords(s.repo, msg.owner, msg.dtos, Times(|msg.dtos|, at));
    assert looked.handlers - {h} == s.handlers;
    var entry := Entry(run.results, at + IDEMPOTENCY_TTL);
    assert looked.cache[KeyOf(msg) := entry] == s.cache[KeyOf(msg) := entry];
  }

  // ---------------------------------------------------------------- at most once

  /** The server has moved past this DTO's base version: no later upsert of it can succeed. */
  ghost predicate Spent(r: Repo, dto: RecordDTO) {
    && dto.baseVersion <= r.counter
    && dto.id in r.records
    && r.records[dto.id].version != dto.baseVersion
  }

  /** Whether it is applied or refused, a DTO is spent afterwards. */
  lemma UpsertSpends(r: Repo, owner: Owner, dto: RecordDTO, now: Time)
    requires dto.baseVersion <= r.counter
    ensures Spent(UpsertDTO(r, owner, dto, now).repo, dto)
  {
  }

  lemma StepKeepsSpent(s: Server, op: ServerOp, dto: RecordDTO)
    requires ServerEnabled(s, op) && Spent(s.repo, dto)
    ensures Spent(ServerStep(s, op).repo, dto)
  {
  }

  lemma {:induction false} RunKeepsSpent(s: Server, ops: seq<ServerOp>, dto: RecordDTO)
    requires IsServerRun(s, ops) && Spent(s.repo, dto)
    ensures Spent(ServerRun(s, ops).repo, dto)
  {
    if ops != [] {
      RunKeepsSpent(s, ops[..|ops| - 1], dto);
      StepKeepsSpent(ServerRun(s, ops[..|ops| - 1]), ops[|ops| - 1], dto);
    }
  }

  /** The step is an upsert of the DTO, whoever sent it, under whatever key. */
  predicate Attempts(s: Server, op: ServerOp, dto: RecordDTO) {
    op.ApplyOp? && ServerEnabled(s, op) && NextDTO(s.handlers[op.h]) == dto
  }

  lemma SpentIsRefused(s: Server, op: ServerOp, dto: RecordDTO)
    requires Attempts(s, op, dto) && Spent(s.repo, dto)
    ensures ServerStep(s, op).repo == s.repo
    ensures ServerStep(s, op).handlers[op.h].results ==
            s.handlers[op.h].results + [PushResult(dto.id, Conflict, RecordToDTO(s.repo.records[dto.id]))]
  {
  }

  /**
   * A record that was sent is applied at most once. Of any two upserts of it in a run of the server, be
   * they of one handler or of two, at the same time or one after the other, under keys the cache knows
   * or has forgotten, the second is answered as a conflict and changes no record.
   */
  lemma {:induction false} AtMostOnce(s: Server, ops: seq<ServerOp>, i: nat, j: nat, dto: RecordDTO)
    requires IsServerRun(s, ops) && i < j < |ops|
    requires IsServerRun(s, ops[..i]) && IsServerRun(s, ops[..j])
    requires Attempts(ServerRun(s, ops[..i]), ops[i], dto) && Attempts(ServerRun(s, ops[..j]), ops[j], dto)
    requires dto.baseVersion <= ServerRun(s, ops[..i]).repo.counter
    ensures var before := ServerRun(s, ops[..j]);
      var after := ServerStep(before, ops[j]);
      && after.repo == before.repo
      && after.handlers[ops[j].h].results[|before.handlers[ops[j].h].results|].status == Conflict
  {
    var first := ServerRun(s, ops[..i]);
    UpsertSpends(first.repo, first.handlers[ops[i].h].msg.owner, dto, ops[i].at);
    ServerRunSplit(s, ops[..j], i + 1);
    assert ops[..j][..i + 1] == ops[..i + 1] && ops[..i + 1][..i] == ops[..i];
    RunKeepsSpent(ServerRun(s, ops[..i + 1]), ops[..j][i + 1..], dto);
    SpentIsRefused(ServerRun(s, ops[..j]), ops[j], dto);
  }

  // ---------------------------------------------------------------- the cached answer

  /** The step takes no clock reading later than t that matters to entries living until t. */
  ghost predicate NotAfter(op: ServerOp, t: Time) {
    (op.LookUpOp? || op.ExpireOp?) ==> op.at <= t
  }

  ghost predicate AllNotAfter(ops: seq<ServerOp>, t: Time) {
    forall i :: 0 <= i < |ops| ==> NotAfter(ops[i], t)
  }

  lemma {:induction false} FinishingLooksNothingUp(h: HandlerId, n: nat, at: Time, t: Time)
    ensures AllNotAfter(FinishOps(h, n, at), t) && AllNotAfter(ApplyOps(h, n, at), t)
  {
    if n > 0 {
      FinishingLooksNothingUp(h, n - 1, at, t);
    }
  }

  /** No handler under the key is at work. */
  ghost predicate Unhandled(s: Server, k: (Owner, Key)) {
    forall h :: h in s.handlers ==> KeyOf(s.handlers[h].msg) != k
  }

  lemma {:induction false} EntrySurvives(s: Server, ops: seq<ServerOp>, k: (Owner, Key))
    requires IsServerRun(s, ops)
    requires k in s.cache && Unhandled(s, k) && AllNotAfter(ops, s.cache[k].expiresAt)
    ensures var later := ServerRun(s, ops);
      k in later.cache && later.cache[k] == s.cache[k] && Unhandled(later, k)
  {
    if ops != [] {
      var n := |ops| - 1;
      EntrySurvives(s, ops[..n], k);
      assert NotAfter(ops[n], s.cache[k].expiresAt);
    }
  }

  /** In no run of the server within the entry's life is the entry dropped or changed. */
  ghost predicate EntryIsSafe(s: Server, k: (Owner, Key))
    requires k in s.cache
  {
    forall ops :: IsServerRun(s, ops) && AllNotAfter(ops, s.cache[k].expiresAt) ==>
      var later := ServerRun(s, ops); k in later.cache && later.cache[k] == s.cache[k]
  }

  /** Every handler at work has results for a part of its records, in order. */
  ghost predicate HandlersInBounds(s: Server) {
    forall h :: h in s.handlers ==> |s.handlers[h].results| <= |s.handlers[h].msg.dtos|
  }

  /**
   * A remembered answer is safe for its whole life if and only if no second handler under its key is at
   * work: one that looked the key up before the answer was saved will save its own over it.
   */
  lemma {:induction false} EntryIsSafeExactlyWhen(s: Server, k: (Owner, Key))
    requires k in s.cache && HandlersInBounds(s)
    ensures EntryIsSafe(s, k) <==> Unhandled(s, k)
  {
    if Unhandled(s, k) {
      forall ops | IsServerRun(s, ops) && AllNotAfter(ops, s.cache[k].expiresAt)
        ensures var later := ServerRun(s, ops); k in later.cache && later.cache[k] == s.cache[k]
      {
        EntrySurvives(s, ops, k);
      }
    } else {
      var h :| h in s.handlers && KeyOf(s.handlers[h].msg) == k;
      var at := s.cache[k].expiresAt;
      var ops := FinishOps(h, ToGo(s.handlers[h]), at);
      FinishesAlone(s, h, at);
      FinishingLooksNothingUp(h, ToGo(s.handlers[h]), at, at);
      assert IsServerRun(s, ops) && AllNotAfter(ops, at);
      assert ServerRun(s, ops).cache[k].expiresAt == at + IDEMPOTENCY_TTL;
    }
  }

  // ---------------------------------------------------------------- two handlers under one key

  lemma {:induction false} SpentRecordsAreRefused(r: Repo, owner: Owner, dtos: seq<RecordDTO>, writes: seq<Time>)
    requires |writes| >= |dtos|
    requires forall i :: 0 <= i < |dtos| ==> Spent(r, dtos[i])
    ensures var run := PushRecords(r, owner, dtos, writes);
      run.repo == r && forall i :: 0 <= i < |dtos| ==> run.results[i].status == Conflict
  {
    if dtos != [] {
      SpentRecordsAreRefused(r, owner, dtos[..|dtos| - 1], writes);
    }
  }

  /** Whether a record of the batch was applied or refused, it is spent afterwards. */
  lemma {:induction false} PushSpends(r: Repo, owner: Owner, dtos: seq<RecordDTO>, writes: seq<Time>, i: nat)
    requires |writes| >= |dtos| && i < |dtos|
    requires forall k :: 0 <= k < |dtos| ==> dtos[k].baseVersion <= r.counter
    ensures r.counter <= PushRecords(r, owner, dtos, writes).repo.counter
    ensures Spent(PushRecords(r, owner, dtos, writes).repo, dtos[i])
  {
    var n := |dtos| - 1;
    var before := PushRecords(r, owner, dtos[..n], writes);
    assert r.counter <= before.repo.counter by {
      if n > 0 { PushSpends(r, owner, dtos[..n], writes, 0); }
    }
    if i < n {
      PushSpends(r, owner, dtos[..n], writes, i);
    }
  }

  /**
   * What goes wrong without that condition. Two handlers of one request have both missed the cache; one
   * runs to its end, then the other. The second refuses every record, and its answer replaces the first's.
   */
  lemma {:induction false} OverlapReplacesAnswer(s: Server, first: HandlerId, second: HandlerId, at: Time)
    requires first != second && first in s.handlers && second in s.handlers
    requires s.handlers[first] == s.handlers[second] && s.handlers[first].results == []
    requires forall i :: 0 <= i < |s.handlers[first].msg.dtos| ==>
               s.handlers[first].msg.dtos[i].baseVersion <= s.repo.counter
    ensures var msg := s.handlers[first].msg;
      var once := FinishOps(first, |msg.dtos|, at);
      var twice := once + FinishOps(second, |msg.dtos|, at);
      && IsServerRun(s, once) && IsServerRun(s, twice)
      && KeyOf(msg) in ServerRun(s, once).cache && KeyOf(msg) in ServerRun(s, twice).cache
      && ServerRun(s, once).cache[KeyOf(msg)].results ==
         PushRecords(s.repo, msg.owner, msg.dtos, Times(|msg.dtos|, at)).results
      && ServerRun(s, twice).repo == ServerRun(s, once).repo
      && ServerRun(s, twice).cache[KeyOf(msg)].expiresAt == at + IDEMPOTENCY_TTL
      && |ServerRun(s, twice).cache[KeyOf(msg)].results| == |msg.dtos|
      && forall i :: 0 <= i < |msg.dtos| ==> ServerRun(s, twice).cache[KeyOf(msg)].results[i].status == Conflict
  {
    var msg := s.handlers[first].msg;
    var n := |msg.dtos|;
    FinishesAlone(s, first, at);
    FinishedFromStart(s, first, at);
    var once := Finished(s, first, at);
    forall i | 0 <= i < n ensures Spent(once.repo, msg.dtos[i]) {
      PushSpends(s.repo, msg.owner, msg.dtos, Times(n, at), i);
    }
    FinishesAlone(once, second, at);
    FinishedFromStart(once, second, at);
    SpentRecordsAreRefused(once.repo, msg.owner, msg.dtos, Times(n, at));
    ServerRunJoin(s, FinishOps(first, n, at), FinishOps(second, n, at));
  }

  lemma FinishedFromStart(s: Server, h: HandlerId, at: Time)
    requires h in s.handlers && s.handlers[h].results == []
    ensures var msg := s.handlers[h].msg;
      var run := PushRecords(s.repo, msg.owner, msg.dtos, Times(|msg.dtos|, at));
      Finished(s, h, at) ==
      Server(run.repo, s.cache[KeyOf(msg) := Entry(run.results, at + IDEMPOTENCY_TTL)], s.handlers - {h})
  {
    var msg := s.handlers[h].msg;
    assert msg.dtos[0..] == msg.dtos;
    var run := PushRecords(s.repo, msg.owner, msg.dtos, Times(|msg.dtos|, at));
    assert [] + run.results == run.results;
  }

  // ---------------------------------------------------------------- the service itself

  class Service {
    const records: RecordRepository
    const idempotency: IdempotencyStore

    ghost function State(): Server
      reads records, idempotency
    {
      Server(records.State(), idempotency.entries, map[])
    }

    constructor (records: RecordRepository, idempotency: IdempotencyStore)
      ensures this.records == records && this.idempotency == idempotency
    {
      this.records := records;
      this.idempotency := idempotency;
    }

    method Pull(owner: Owner, since: int) returns (dtos: seq<RecordDTO>)
      requires forall id :: id in records.records ==> records.records[id].id == id
      ensures IsListing(records.State(), owner, since, dtos)
    {
      var recs := records.ListSince(owner, since);
      var list := new RecordDTO[|recs|];
      for i := 0 to |recs|
        invariant forall k :: 0 <= k < i ==> list[k] == RecordToDTO(recs[k])
      {
        list[i] := RecordToDTO(recs[i]);
      }
      dtos := list[..];
      assert forall i :: 0 <= i < |recs| ==> dtos[i] == RecordToDTO(recs[i]);
    }

    /** The loop of a push over its records. */
    method UpsertAll(owner: Owner, dtos: seq<RecordDTO>, writes: seq<Time>) returns (results: seq<PushResult>)
      requires |writes| >= |dtos|
      modifies records
      ensures var run := PushRecords(old(records.State()), owner, dtos, writes);
        records.State() == run.repo && results == run.results
    {
      var filled := new PushResult[|dtos|];
      for i := 0 to |dtos|
        invariant var run := PushRecords(old(records.State()), owner, dtos[..i], writes);
          records.State() == run.repo && filled[..i] == run.results
      {
        assert dtos[..i + 1][..i] == dtos[..i];
        var saved, conflict := records.UpsertRecord(DTOToRecord(dtos[i], owner), dtos[i].baseVersion, writes[i]);
        ghost var before := filled[..i];
        if conflict {
          filled[i] := PushResult(dtos[i].id, Conflict, RecordToDTO(saved));
        } else {
          filled[i] := PushResult(dtos[i].id, Applied, RecordToDTO(saved));
        }
        assert filled[..i + 1] == before + [filled[i]];
      }
      assert dtos[..|dtos|] == dtos;
      results := filled[..];
      assert results == filled[..|dtos|];
    }

    /**
     * A remembered answer is given again as it was, for as long as it lives. Any other request is answered
     * record by record by the writes that it makes, and this very answer is remembered for a day.
     */
    method Push(owner: Owner, key: Key, dtos: seq<RecordDTO>, clock: PushClock) returns (results: seq<PushResult>)
      requires |clock.writes| >= |dtos|
      modifies records, idempotency
      ensures var o := ServerPush(old(State()), owner, key, dtos, clock);
        State() == o.server && results == o.results
      ensures var k := (owner, key);
        if k in old(idempotency.entries) && clock.lookup <= old(idempotency.entries)[k].expiresAt then
          results == old(idempotency.entries)[k].results && State() == old(State())
        else
          && idempotency.entries ==
             old(idempotency.entries)[k := Entry(results, clock.save + 24 * 60 * 60 * 1_000_000_000)]
          && |results| == |dtos|
          && (old(records.counter) == |old(records.log)| ==>
                Answers(old(records.State()), records.State(), owner, dtos, results))
    {
      var cached := idempotency.Get(owner, key, clock.lookup);
      if cached.Some? {
        return cached.value;
      }
      results := UpsertAll(owner, dtos, clock.writes);
      idempotency.Save(owner, key, results, clock.save, IDEMPOTENCY_TTL);
      ghost var entry := Entry(results, clock.save + IDEMPOTENCY_TTL);
      assert idempotency.entries == old(idempotency.entries)[(owner, key) := entry];
      if old(records.counter) == |old(records.log)| {
        PushAnswers(old(records.State()), owner, dtos, clock.writes);
      }
    }
  }
}
