/**
 * The answer that the server remembers under a key, and when a repeated request is sure to get it: if and
 * only if whatever handlers are still at work under the key have come to the same answer.
 */
module Answers {
  import opened Domain
  import opened Repository
  import opened Idempotency
  import opened SyncService

  /** Every handler under the key has done all its upserts, and came to the answer that is remembered. */
  ghost predicate Agreed(s: Server, k: (Owner, Key))
    requires k in s.cache
  {
    forall h :: h in s.handlers && KeyOf(s.handlers[h].msg) == k ==>
      |s.handlers[h].results| == |s.handlers[h].msg.dtos| && s.handlers[h].results == s.cache[k].results
  }

  /**
   * Lookups and cleanings come within the life of the entry, and no handler that is now at work under the
   * key saves by a clock that has gone back behind the one that made the entry.
   */
  ghost predicate WithinLife(s: Server, k: (Owner, Key), ops: seq<ServerOp>)
    requires k in s.cache
  {
    && AllNotAfter(ops, s.cache[k].expiresAt)
    && forall i :: 0 <= i < |ops| ==> SavedForward(s, k, ops[i])
  }

  ghost predicate SavedForward(s: Server, k: (Owner, Key), op: ServerOp)
    requires k in s.cache
  {
    op.SaveOp? && op.h in s.handlers && KeyOf(s.handlers[op.h].msg) == k ==>
      op.at + IDEMPOTENCY_TTL >= s.cache[k].expiresAt
  }

  /** The answer is still remembered, for no less long, and the handlers under the key are of those of then. */
  ghost predicate Remembered(s: Server, k: (Owner, Key), later: Server)
    requires k in s.cache
  {
    && k in later.cache && later.cache[k].results == s.cache[k].results
    && later.cache[k].expiresAt >= s.cache[k].expiresAt
    && forall h :: h in later.handlers && KeyOf(later.handlers[h].msg) == k ==>
         h in s.handlers && later.handlers[h] == s.handlers[h]
  }

  lemma StepRemembers(s: Server, k: (Owner, Key), later: Server, op: ServerOp)
    requires k in s.cache && Agreed(s, k) && Remembered(s, k, later)
    requires ServerEnabled(later, op) && NotAfter(op, s.cache[k].expiresAt) && SavedForward(s, k, op)
    ensures Remembered(s, k, ServerStep(later, op))
  {
  }

  lemma {:induction false} RunRemembers(s: Server, k: (Owner, Key), ops: seq<ServerOp>)
    requires k in s.cache && Agreed(s, k) && IsServerRun(s, ops) && WithinLife(s, k, ops)
    ensures Remembered(s, k, ServerRun(s, ops))
  {
    if ops != [] {
      var n := |ops| - 1;
      assert forall i :: 0 <= i < n ==> ops[..n][i] == ops[i];
      RunRemembers(s, k, ops[..n]);
      assert NotAfter(ops[n], s.cache[k].expiresAt) && SavedForward(s, k, ops[n]);
      StepRemembers(s, k, ServerRun(s, ops[..n]), ops[n]);
    }
  }

  // ---------------------------------------------------------------- a handler that can still disagree

  /** A step that changes what the server will answer for the DTO: deleting its record, or else any other write. */
  function Disturbance(r: Repo, dto: RecordDTO, at: Time): ServerOp {
    if dto.id in r.records && r.records[dto.id].version != dto.baseVersion then
      RemoveOp(dto.id, r.records[dto.id].owner, at)
    else
      var other := dto.id + 1;
      var rec := if other in r.records then r.records[other] else Record(other, 0, dto.kind, dto.payload, 0, 0, false);
      WriteOp(rec, rec.version, at)
  }

  lemma DisturbanceChangesAnswer(s: Server, owner: Owner, dto: RecordDTO, at: Time)
    requires WellFormed(s.repo)
    ensures var disturbed := ServerStep(s, Disturbance(s.repo, dto, at));
      && disturbed.handlers == s.handlers
      && ResultOf(dto, UpsertDTO(s.repo, owner, dto, at)) != ResultOf(dto, UpsertDTO(disturbed.repo, owner, dto, at))
  {
  }

  lemma {:induction false} FirstResult(r: Repo, owner: Owner, dtos: seq<RecordDTO>, writes: seq<Time>)
    requires |writes| >= |dtos| > 0
    ensures PushRecords(r, owner, dtos, writes).results[0] == ResultOf(dtos[0], UpsertDTO(r, owner, dtos[0], writes[0]))
  {
    var n := |dtos| - 1;
    if n > 0 {
      FirstResult(r, owner, dtos[..n], writes);
    }
  }

  /** What an unfinished handler will answer next is part of what it saves if it now runs to its end. */
  lemma FinishedAnswersNext(s: Server, h: HandlerId, at: Time)
    requires h in s.handlers && |s.handlers[h].results| < |s.handlers[h].msg.dtos|
    ensures var handler := s.handlers[h];
      var results := Finished(s, h, at).cache[KeyOf(handler.msg)].results;
      && |results| > |handler.results|
      && results[|handler.results|] ==
         ResultOf(NextDTO(handler), UpsertDTO(s.repo, handler.msg.owner, NextDTO(handler), at))
  {
    var handler := s.handlers[h];
    var rest := handler.msg.dtos[|handler.results|..];
    FirstResult(s.repo, handler.msg.owner, rest, Times(|rest|, at));
  }

  /** The run: that step if wanted, and then the handler to its end. */
  function DisturbedFinish(s: Server, h: HandlerId, disturb: bool, at: Time): seq<ServerOp>
    requires h in s.handlers && |s.handlers[h].results| < |s.handlers[h].msg.dtos|
  {
    (if disturb then [Disturbance(s.repo, NextDTO(s.handlers[h]), at)] else []) + FinishOps(h, ToGo(s.handlers[h]), at)
  }

  lemma {:induction false} DisturbedFinishIsRun(s: Server, h: HandlerId, disturb: bool, at: Time)
    requires h in s.handlers && |s.handlers[h].results| < |s.handlers[h].msg.dtos|
    ensures var op := Disturbance(s.repo, NextDTO(s.handlers[h]), at);
      var start := if disturb then ServerStep(s, op) else s;
      var ops := DisturbedFinish(s, h, disturb, at);
      start.handlers == s.handlers && IsServerRun(s, ops) && ServerRun(s, ops) == Finished(start, h, at)
  {
    var op := Disturbance(s.repo, NextDTO(s.handlers[h]), at);
    if disturb {
      OneStep(s, op);
      FinishesAlone(ServerStep(s, op), h, at);
      ServerRunJoin(s, [op], FinishOps(h, ToGo(s.handlers[h]), at));
    } else {
      FinishesAlone(s, h, at);
      assert [] + FinishOps(h, ToGo(s.handlers[h]), at) == FinishOps(h, ToGo(s.handlers[h]), at);
    }
  }

  lemma {:induction false} FinishingIsWithinLife(s: Server, k: (Owner, Key), h: HandlerId, disturb: bool)
    requires k in s.cache
    requires h in s.handlers && |s.handlers[h].results| < |s.handlers[h].msg.dtos|
    ensures WithinLife(s, k, DisturbedFinish(s, h, disturb, s.cache[k].expiresAt))
  {
    var at := s.cache[k].expiresAt;
    FinishingIsForward(h, ToGo(s.handlers[h]), at);
  }

  lemma {:induction false} FinishingIsForward(h: HandlerId, n: nat, at: Time)
    ensures forall i :: 0 <= i < |FinishOps(h, n, at)| ==>
              (FinishOps(h, n, at)[i].ApplyOp? || FinishOps(h, n, at)[i].SaveOp?) && FinishOps(h, n, at)[i].at == at
    ensures forall i :: 0 <= i < |ApplyOps(h, n, at)| ==>
              ApplyOps(h, n, at)[i].ApplyOp? && ApplyOps(h, n, at)[i].at == at
  {
    if n > 0 {
      FinishingIsForward(h, n - 1, at);
    }
  }

  /** The handler can still replace the remembered answer by another one. */
  ghost predicate CanReplace(s: Server, k: (Owner, Key), h: HandlerId)
    requires k in s.cache
  {
    exists ops :: Replaces(s, k, h, ops)
  }

  ghost predicate Replaces(s: Server, k: (Owner, Key), h: HandlerId, ops: seq<ServerOp>)
    requires k in s.cache
  {
    && IsServerRun(s, ops) && WithinLife(s, k, ops)
    && var later := ServerRun(s, ops);
    && h !in later.handlers
    && Hit(later.cache, k, s.cache[k].expiresAt) && later.cache[k].results != s.cache[k].results
  }

  lemma {:induction false} UnfinishedCanReplace(s: Server, k: (Owner, Key), h: HandlerId)
    requires k in s.cache && WellFormed(s.repo)
    requires h in s.handlers && KeyOf(s.handlers[h].msg) == k && |s.handlers[h].results| < |s.handlers[h].msg.dtos|
    ensures CanReplace(s, k, h)
  {
    var at := s.cache[k].expiresAt;
    var dto := NextDTO(s.handlers[h]);
    DisturbanceChangesAnswer(s, s.handlers[h].msg.owner, dto, at);
    FinishedAnswersNext(s, h, at);
    FinishedAnswersNext(ServerStep(s, Disturbance(s.repo, dto, at)), h, at);
    var disturb := Finished(s, h, at).cache[k].results == s.cache[k].results;
    DisturbedFinishIsRun(s, h, disturb, at);
    FinishingIsWithinLife(s, k, h, disturb);
    assert Replaces(s, k, h, DisturbedFinish(s, h, disturb, at));
  }

  lemma {:induction false} FinishedCanReplace(s: Server, k: (Owner, Key), h: HandlerId)
    requires k in s.cache && h in s.handlers && KeyOf(s.handlers[h].msg) == k
    requires |s.handlers[h].results| == |s.handlers[h].msg.dtos| && s.handlers[h].results != s.cache[k].results
    ensures CanReplace(s, k, h)
  {
    var at := s.cache[k].expiresAt;
    OneStep(s, SaveOp(h, at));
    assert Replaces(s, k, h, [SaveOp(h, at)]);
  }

  // ---------------------------------------------------------------- the end of an answer's life

  /**
   * A request is answered at its lookup if and only if an answer under its key is remembered and its expiry
   * is not past, and then by that answer, with nothing changed. Otherwise a handler goes to work on it, and
   * what was remembered under the key is forgotten.
   */
  lemma {:induction false} AnsweredAtLookUpExactlyWhen(s: Server, h: HandlerId, m: Msg, at: Time)
    requires h !in s.handlers
    ensures var k := KeyOf(m);
      var next := ServerStep(s, LookUpOp(h, m, at));
      if k in s.cache && at <= s.cache[k].expiresAt then
        Reply(s, LookUpOp(h, m, at)) == Some((m, s.cache[k].results)) && next == s
      else
        && Reply(s, LookUpOp(h, m, at)) == None && k !in next.cache
        && h in next.handlers && next.handlers[h] == Handler(m, []) && next.repo == s.repo
  {
  }

  /** A cleaning forgets exactly the answers of which the expiry is past. */
  lemma {:induction false} CleaningForgets(s: Server, k: (Owner, Key), at: Time)
    ensures var next := ServerStep(s, ExpireOp(at));
      && (k in next.cache <==> k in s.cache && at <= s.cache[k].expiresAt)
      && (k in next.cache ==> next.cache[k] == s.cache[k])
      && next.repo == s.repo && next.handlers == s.handlers
  {
  }

  // ---------------------------------------------------------------- exactly when

  /** In every run of the server within the entry's life the same answer stays remembered. */
  ghost predicate AnswerIsSafe(s: Server, k: (Owner, Key))
    requires k in s.cache
  {
    forall ops :: IsServerRun(s, ops) && WithinLife(s, k, ops) ==>
      var later := ServerRun(s, ops); k in later.cache && later.cache[k].results == s.cache[k].results
  }

  lemma {:induction false} AnswerIsSafeExactlyWhen(s: Server, k: (Owner, Key))
    requires k in s.cache && HandlersInBounds(s) && WellFormed(s.repo)
    ensures AnswerIsSafe(s, k) <==> Agreed(s, k)
  {
    if Agreed(s, k) {
      forall ops | IsServerRun(s, ops) && WithinLife(s, k, ops)
        ensures var later := ServerRun(s, ops); k in later.cache && later.cache[k].results == s.cache[k].results
      {
        RunRemembers(s, k, ops);
      }
    } else {
      var h := Disagreeing(s, k);
      var ops :| Replaces(s, k, h, ops);
      assert IsServerRun(s, ops) && WithinLife(s, k, ops);
    }
  }

  lemma {:induction false} Disagreeing(s: Server, k: (Owner, Key)) returns (h: HandlerId)
    requires k in s.cache && HandlersInBounds(s) && WellFormed(s.repo) && !Agreed(s, k)
    ensures CanReplace(s, k, h)
  {
    h :| h in s.handlers && KeyOf(s.handlers[h].msg) == k &&
         !(|s.handlers[h].results| == |s.handlers[h].msg.dtos| && s.handlers[h].results == s.cache[k].results);
    if |s.handlers[h].results| < |s.handlers[h].msg.dtos| {
      UnfinishedCanReplace(s, k, h);
    } else {
      FinishedCanReplace(s, k, h);
    }
  }

  /** Until the key expires, a repeated request gets the remembered answer and changes nothing at the server. */
  lemma {:induction false} RepeatIsAnsweredFromCache(
    s: Server, ops: seq<ServerOp>, k: (Owner, Key), repeated: LookUpStep)
    requires k in s.cache && Agreed(s, k) && IsServerRun(s, ops) && WithinLife(s, k, ops)
    requires KeyOf(repeated.msg) == k && repeated.at <= s.cache[k].expiresAt &&
               repeated.h !in ServerRun(s, ops).handlers
    ensures var later := ServerRun(s, ops);
      && ServerStep(later, repeated) == later
      && Reply(later, repeated) == Some((repeated.msg, s.cache[k].results))
  {
    RunRemembers(s, k, ops);
  }

  /** Whenever it comes within the key's life, the repeated message is given the answer that is now remembered. */
  ghost predicate RepeatsAreAnsweredAlike(s: Server, m: Msg)
    requires KeyOf(m) in s.cache
  {
    forall ops, h, at :: RepeatComes(s, m, ops, h, at) ==>
      Reply(ServerRun(s, ops), LookUpOp(h, m, at)) == Some((m, s.cache[KeyOf(m)].results))
  }

  ghost predicate RepeatComes(s: Server, m: Msg, ops: seq<ServerOp>, h: HandlerId, at: Time)
    requires KeyOf(m) in s.cache
  {
    && IsServerRun(s, ops) && WithinLife(s, KeyOf(m), ops)
    && h !in ServerRun(s, ops).handlers && at <= s.cache[KeyOf(m)].expiresAt
  }

  /**
   * A repeated request is sure to be answered as it was before if and only if every handler still at work
   * under its key has come to that same answer.
   */
  lemma {:induction false} RepeatsAreAnsweredAlikeExactlyWhen(s: Server, m: Msg)
    requires KeyOf(m) in s.cache && HandlersInBounds(s) && WellFormed(s.repo)
    ensures RepeatsAreAnsweredAlike(s, m) <==> Agreed(s, KeyOf(m))
  {
    var k := KeyOf(m);
    if Agreed(s, k) {
      forall ops, h, at | RepeatComes(s, m, ops, h, at)
        ensures Reply(ServerRun(s, ops), LookUpOp(h, m, at)) == Some((m, s.cache[k].results))
      {
        RepeatIsAnsweredFromCache(s, ops, k, LookUpOp(h, m, at));
      }
    } else {
      var h := Disagreeing(s, k);
      var ops :| Replaces(s, k, h, ops);
      assert RepeatComes(s, m, ops, h, s.cache[k].expiresAt);
    }
  }

  /**
   * The answer that a handler saves is what every request under its key gets for the next 24 hours, and
   * none of them changes anything, if all other handlers under the key have come to the same answer.
   */
  lemma AnsweredForADay(s: Server, h: HandlerId, at: Time, ops: seq<ServerOp>, repeated: LookUpStep)
    requires ServerEnabled(s, SaveOp(h, at))
    requires Agreed(SaveAnswer(s, h, at), KeyOf(s.handlers[h].msg))
    requires IsServerRun(SaveAnswer(s, h, at), ops) && WithinLife(SaveAnswer(s, h, at), KeyOf(s.handlers[h].msg), ops)
    requires KeyOf(repeated.msg) == KeyOf(s.handlers[h].msg) && repeated.at <= at + IDEMPOTENCY_TTL
    requires repeated.h !in ServerRun(SaveAnswer(s, h, at), ops).handlers
    ensures var later := ServerRun(SaveAnswer(s, h, at), ops);
      && ServerStep(later, repeated) == later
      && Reply(later, repeated) == Some((repeated.msg, s.handlers[h].results))
  {
    RepeatIsAnsweredFromCache(SaveAnswer(s, h, at), ops, KeyOf(s.handlers[h].msg), repeated);
  }
}
