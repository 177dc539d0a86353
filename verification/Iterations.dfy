/**
 * The loop of a Sync, seen from outside: how many pulls it makes and when it makes another one, told by
 * its calls over the network alone.
 */
module Iterations {
  import opened Domain
  import opened Merge
  import opened Device

  /** The events are those of a Sync that has not come to rest before the last of them. */
  ghost predicate InSync(d: Device, es: seq<Event>)
    requires IsRun(d, es)
  {
    es != [] &&
    var n := |es| - 1;
    if n == 0 then es[0] == Started
    else InSync(d, es[..n]) && !Run(d, es[..n]).phase.Idle?
  }

  // ---------------------------------------------------------------- what the calls tell

  ghost function Pulls(calls: seq<Call>): nat {
    if calls == [] then 0
    else Pulls(calls[..|calls| - 1]) + if calls[|calls| - 1].PullCall? then 1 else 0
  }

  ghost predicate IsAnswered(c: Call) {
    match c
    case PullCall(_, records) => records.Some?
    case PushCall(_, _, results) => results.Some?
  }

  ghost predicate AllAnswered(calls: seq<Call>) {
    forall c :: c in calls ==> IsAnswered(c)
  }

  /** Since the last pull, or from the beginning if there was none, some record was refused. */
  ghost predicate RefusedSincePull(calls: seq<Call>) {
    calls != [] &&
    var last := calls[|calls| - 1];
    && last.PushCall?
    && ((last.results.Some? && HasConflict(last.results.value)) || RefusedSincePull(calls[..|calls| - 1]))
  }

  /** Every pull but the first was made because some record was refused since the one before. */
  ghost predicate PulledAgainOnConflict(calls: seq<Call>) {
    calls != [] ==>
      var n := |calls| - 1;
      && PulledAgainOnConflict(calls[..n])
      && (calls[n].PullCall? && Pulls(calls[..n]) > 0 ==> RefusedSincePull(calls[..n]))
  }

  /** The keys under which a Sync registered new batches, in the order it did. */
  ghost function RegisteredKeys(d: Device, es: seq<Event>): seq<Key>
    requires IsRun(d, es)
  {
    if es == [] then []
    else
      var n := |es| - 1;
      var before := Run(d, es[..n]).phase;
      RegisteredKeys(d, es[..n]) +
      if es[n].Advanced? && before.Pushing? && before.chunks != [] then [es[n].key] else []
  }

  /** The numbers are generated one after the other, from the first of the range on. */
  ghost predicate Rising(keys: seq<Key>, from: nat, to: nat) {
    && from <= to && (forall i :: 0 <= i < |keys| ==> from <= keys[i] < to)
    && (forall i, j :: 0 <= i < j < |keys| ==> keys[i] < keys[j])
  }

  /** The limit on the number of pulls. */
  function Limit(config: Config): nat {
    if config.maxIterations < 0 then 0 else config.maxIterations
  }

  ghost predicate NothingIsDirty(records: Records) {
    forall id :: !IsDirty(records, id)
  }

  /**
   * What the calls of a Sync that ended without an error tell: it made as many pulls as it may, or after the
   * last of them nothing was refused; and if it pushed nothing after the last pull, there was nothing dirty.
   */
  ghost predicate EndsAsItShould(config: Config, calls: seq<Call>, records: Records) {
    && AllAnswered(calls)
    && (Pulls(calls) == Limit(config) || (Pulls(calls) > 0 && !RefusedSincePull(calls)))
    && (calls != [] && calls[|calls| - 1].PullCall? ==> NothingIsDirty(records))
  }

  // ---------------------------------------------------------------- the steps

  /** When every chunk is answered and there was a conflict, the next iteration comes, unless this was the last. */
  lemma PullsAgainExactlyWhen(d: Device, key: Key)
    requires d.phase.Pushing? && d.phase.chunks == [] && d.phase.conflicts
    ensures Enabled(d, Advanced(key))
    ensures Next(d, Advanced(key)) ==
            d.(phase := if d.phase.iteration + 1 < d.config.maxIterations then Pulling(d.phase.iteration + 1) else Idle)
  {
  }

  /** How the phase of a Sync and the calls it has made so far belong together. */
  ghost predicate Counted(d: Device, calls: seq<Call>, failed: bool) {
    && PulledAgainOnConflict(calls) && Pulls(calls) <= Limit(d.config)
    && (!failed ==> AllAnswered(calls))
    && match d.phase
       case Replaying(_) => Pulls(calls) == 0 && !failed && !LastIsPull(calls)
       case ReplayWait(_, _, _) => Pulls(calls) == 0 && !failed && !LastIsPull(calls)
       case Pulling(i) =>
         && Pulls(calls) == i && i < Limit(d.config) && !failed && !LastIsPull(calls)
         && (i > 0 ==> RefusedSincePull(calls))
       case Pushing(i, chunks, conflicts) =>
         && Pulls(calls) == i + 1 && !failed && (RefusedSincePull(calls) <==> conflicts)
         && (LastIsPull(calls) ==> chunks != [])
       case PushWait(i, _, _, _, conflicts) =>
         Pulls(calls) == i + 1 && !failed && (RefusedSincePull(calls) <==> conflicts)
       case Idle => !failed ==> EndsAsItShould(d.config, calls, d.store.records)
  }

  ghost predicate LastIsPull(calls: seq<Call>) {
    calls != [] && calls[|calls| - 1].PullCall?
  }

  lemma {:induction false} OneMoreCall(calls: seq<Call>, c: Call)
    ensures Pulls(calls + [c]) == Pulls(calls) + if c.PullCall? then 1 else 0
    ensures AllAnswered(calls + [c]) <==> AllAnswered(calls) && IsAnswered(c)
    ensures RefusedSincePull(calls + [c]) <==>
              c.PushCall? && ((c.results.Some? && HasConflict(c.results.value)) || RefusedSincePull(calls))
    ensures PulledAgainOnConflict(calls + [c]) <==>
              PulledAgainOnConflict(calls) && (c.PullCall? && Pulls(calls) > 0 ==> RefusedSincePull(calls))
  {
    assert (calls + [c])[..|calls|] == calls;
    assert c in calls + [c];
    forall x | x in calls ensures x in calls + [c] {}
  }

  lemma {:induction false} AdvanceIsCounted(d: Device, calls: seq<Call>, key: Key)
    requires Counted(d, calls, false) && Enabled(d, Advanced(key))
    ensures Counted(Next(d, Advanced(key)), calls, false)
  {
  }

  lemma {:induction false} PullIsCounted(d: Device, calls: seq<Call>, jobs: seq<Job>, dirty: seq<StoredRecord>)
    requires Counted(d, calls, false) && Enabled(d, PullDelivered(jobs, dirty))
    ensures Counted(Next(d, PullDelivered(jobs, dirty)),
                    calls + [PullCall(d.store.cursor, Some(IncomingOf(jobs)))], false)
  {
    OneMoreCall(calls, PullCall(d.store.cursor, Some(IncomingOf(jobs))));
  }

  lemma {:induction false} PushIsCounted(d: Device, calls: seq<Call>, results: seq<PushResult>)
    requires Counted(d, calls, false) && Enabled(d, PushDelivered(results))
    ensures var sent := Outstanding(d).value;
      Counted(Next(d, PushDelivered(results)), calls + [PushCall(sent.0, sent.1, Some(results))], false)
  {
    var sent := Outstanding(d).value;
    OneMoreCall(calls, PushCall(sent.0, sent.1, Some(results)));
  }

  lemma {:induction false} FailureIsCounted(d: Device, calls: seq<Call>)
    requires Counted(d, calls, false) && Enabled(d, Failed)
    ensures Counted(Next(d, Failed), calls + CallOf(d, Failed), true)
  {
    assert CallOf(d, Failed) == [CallOf(d, Failed)[0]];
    OneMoreCall(calls, CallOf(d, Failed)[0]);
  }

  lemma {:induction false} StepIsCounted(d: Device, calls: seq<Call>, e: Event)
    requires Counted(d, calls, false) && !d.phase.Idle? && Enabled(d, e)
    ensures Counted(Next(d, e), calls + CallOf(d, e), e.Failed?)
  {
    match e
    case Edited(_) => assert calls + [] == calls;
    case Advanced(key) =>
      AdvanceIsCounted(d, calls, key);
      assert calls + [] == calls;
    case PullDelivered(jobs, dirty) => PullIsCounted(d, calls, jobs, dirty);
    case PushDelivered(results) => PushIsCounted(d, calls, results);
    case Failed => FailureIsCounted(d, calls);
  }

  /**
   * A Sync: it never makes more pulls than the limit, it pulls again only on a conflict, and when it ends
   * without an error the calls tell that it had to.
   */
  lemma {:induction false} SyncIsCounted(d: Device, es: seq<Event>)
    requires d.phase.Idle? && IsRun(d, es) && InSync(d, es)
    ensures Counted(Run(d, es), CallsOf(d, es), es[|es| - 1].Failed?)
  {
    var n := |es| - 1;
    if n == 0 {
      assert es[..0] == [];
      assert CallsOf(d, es) == [];
    } else {
      SyncIsCounted(d, es[..n]);
      StepIsCounted(Run(d, es[..n]), CallsOf(d, es[..n]), es[n]);
    }
  }

  /** The last step went to the head of the loop over iterations, to begin it or to try again. */
  ghost predicate AtLoopHead(d: Device, es: seq<Event>)
    requires IsRun(d, es) && es != []
  {
    var before := Run(d, es[..|es| - 1]).phase;
    es[|es| - 1].Advanced? && (before.Replaying? || (before.Pushing? && before.conflicts))
  }

  /** What a whole Sync does, told by its calls; one that ends at the head of the loop has come to its limit. */
  lemma {:induction false} SyncIsAsTold(d: Device, es: seq<Event>, before: seq<Call>, trace: seq<Call>)
    requires d.phase.Idle? && IsRun(d, es) && InSync(d, es) && Run(d, es).phase.Idle?
    requires trace == before + CallsOf(d, es)
    ensures before <= trace
    ensures var calls := trace[|before|..];
      && Pulls(calls) <= Limit(d.config) && PulledAgainOnConflict(calls)
      && (!es[|es| - 1].Failed? ==>
            && EndsAsItShould(d.config, calls, Run(d, es).store.records)
            && (AtLoopHead(d, es) <==> Pulls(calls) == 0 || RefusedSincePull(calls)))
  {
    SyncIsCounted(d, es);
    ConfigStays(d, es);
    assert trace[|before|..] == CallsOf(d, es);
    if !es[|es| - 1].Failed? {
      HeadIsTold(d, es);
    }
  }

  lemma {:induction false} HeadIsTold(d: Device, es: seq<Event>)
    requires d.phase.Idle? && IsRun(d, es) && InSync(d, es) && Run(d, es).phase.Idle? && !es[|es| - 1].Failed?
    ensures AtLoopHead(d, es) <==> Pulls(CallsOf(d, es)) == 0 || RefusedSincePull(CallsOf(d, es))
  {
    var n := |es| - 1;
    SyncIsCounted(d, es[..n]);
    EndsAtTheHead(Run(d, es[..n]), CallsOf(d, es[..n]), es[n]);
  }

  lemma {:induction false} ConfigStays(d: Device, es: seq<Event>)
    requires IsRun(d, es)
    ensures Run(d, es).config == d.config
  {
    if es != [] {
      ConfigStays(d, es[..|es| - 1]);
    }
  }

  lemma {:induction false} EndsAtTheHead(d: Device, calls: seq<Call>, e: Event)
    requires Counted(d, calls, false) && !d.phase.Idle? && Enabled(d, e) && Next(d, e).phase.Idle? && !e.Failed?
    ensures var calls' := calls + CallOf(d, e);
      (e.Advanced? && (d.phase.Replaying? || (d.phase.Pushing? && d.phase.conflicts))) <==>
      (Pulls(calls') == 0 || RefusedSincePull(calls'))
  {
    if e.PullDelivered? {
      OneMoreCall(calls, PullCall(d.store.cursor, Some(IncomingOf(e.jobs))));
    } else {
      assert calls + [] == calls;
    }
  }
}
