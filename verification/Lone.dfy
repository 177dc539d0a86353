/**
 * One device of the whole system, while nobody else has its owner's records written. What Stuck.dfy says
 * of a device and the server holds of the system's runs: with handlers that work step by step, replies that
 * come late or twice, other devices that edit, pull and send whatever they like, and other owners that push.
 */
module Lone {
  import opened Domain
  import opened Repository
  import opened Idempotency
  import opened SyncService
  import opened Merge
  import opened Chunks
  import opened Protocol
  import opened MissedWrites
  import C = Convergence
  import O = Ownership
  import T = Tombstones
  import B = Batches
  import S = Stuck
  import D = Device

  /**
   * The step is none of a failing call or an edit during a Sync of dev, no record of its owner is written
   * but by the handler of the message that dev waits for, there is no second handler under the key of that
   * message, and its answer is not forgotten while dev waits.
   */
  ghost predicate Alone(s: System, dev: Dev, step: Step)
    requires dev in s.nodes
  {
    match step
    case Local(d, e) =>
      d == dev ==> !e.Failed? && (e.Edited? ==> s.nodes[dev].device.phase.Idle? && !e.edit.Import?)
    case Serve(op, _) => AloneServe(s, dev, op)
    case _ => true
  }

  ghost predicate AloneServe(s: System, dev: Dev, op: ServerOp)
    requires dev in s.nodes
  {
    var node := s.nodes[dev];
    match op
    case LookUpOp(_, msg, at) =>
      (exists m :: m in Sends(node) && KeyOf(m) == KeyOf(msg)) ==>
        || Hit(s.server.cache, KeyOf(msg), at)
        || (msg in Sends(node) && KeyOf(msg) !in s.server.cache && Unhandled(s.server, KeyOf(msg)))
    case ApplyOp(h, _) =>
      ServerEnabled(s.server, op) ==>
        var handler := s.server.handlers[h];
        handler.msg.owner != node.owner || handler.msg in Sends(node) || Refuses(s.server.repo, NextDTO(handler))
    case SaveOp(_, _) => true
    case WriteOp(rec, _, _) => rec.owner != node.owner
    case RemoveOp(_, owner, _) => owner != node.owner
    case ExpireOp(at) =>
      forall m :: m in Sends(node) && KeyOf(m) in s.server.cache ==> Hit(s.server.cache, KeyOf(m), at)
  }

  ghost predicate AloneRun(s: System, dev: Dev, steps: seq<Step>)
    requires IsRun(s, steps)
  {
    steps != [] ==>
      var n := |steps| - 1;
      && AloneRun(s, dev, steps[..n])
      && dev in Run(s, steps[..n]).nodes && Alone(Run(s, steps[..n]), dev, steps[n])
  }

  // ---------------------------------------------------------------- what reached states are like

  ghost predicate OwnDtos(repo: Repo, owner: Owner, dtos: seq<RecordDTO>) {
    forall i :: 0 <= i < |dtos| && dtos[i].id in repo.records ==> repo.records[dtos[i].id].owner == owner
  }

  lemma {:induction false} ReachedIsOwned(s: System, dev: Dev)
    requires Reachable(s) && dev in s.nodes
    ensures S.OwnIds(s.server.repo, s.nodes[dev].owner, s.nodes[dev].device.store.records)
    ensures forall m :: m in Sends(s.nodes[dev]) ==> OwnDtos(s.server.repo, s.nodes[dev].owner, m.dtos)
    ensures s.server.repo.records.Keys <= s.registry.Keys
    ensures D.Disciplined(s.nodes[dev].device)
    ensures s.nodes[dev].device.phase.Idle? || s.nodes[dev].device.phase.Pushing? ==> s.nodes[dev].mail.None?
  {
    O.IdsKeepTheirOwner(s);
    assert O.NodeOf(s.registry, s.nodes[dev]);
  }

  lemma {:induction false} ReachedKeysAreKnown(s: System)
    requires Reachable(s)
    ensures forall k :: k in s.server.cache ==> k.1 in s.keys
    ensures forall h :: h in s.server.handlers ==> s.server.handlers[h].msg.key in s.keys
  {
    var book := B.ReachedIsBooked(s);
  }

  lemma {:induction false} ReachedIsWellFormed(s: System, dev: Dev)
    requires Reachable(s) && dev in s.nodes
    ensures WellFormed(s.server.repo) && s.nodes[dev].device.store.cursor <= s.server.repo.counter
  {
    var start, steps :| Initial(start) && IsRun(start, steps) && Run(start, steps) == s;
    O.CursorsStartBehind(start);
    O.CursorsStayBehind(start, steps);
    T.RunKeepsInv(start, steps);
  }

  // ---------------------------------------------------------------- the device and the server as two

  /** The first results to the message are these, and the repository is what it is by then. */
  ghost predicate SoFar(before: Repo, m: Msg, now: Repo, results: seq<PushResult>) {
    |results| <= |m.dtos| && S.Handled(before, now, m.owner, m.dtos[..|results|], results)
  }

  /** How far the server is with the message, from the repository as it was when the message was sent. */
  ghost predicate Underway(before: Repo, m: Msg, server: Server, mail: Option<Mail>) {
    if KeyOf(m) in server.cache then
      && Unhandled(server, KeyOf(m))
      && |server.cache[KeyOf(m)].results| == |m.dtos|
      && SoFar(before, m, server.repo, server.cache[KeyOf(m)].results)
      && (mail.None? || mail == Some(PushMail(server.cache[KeyOf(m)].results)))
    else
      && mail.None?
      && if Unhandled(server, KeyOf(m)) then SoFar(before, m, server.repo, [])
         else exists h :: AtWork(before, m, server, h)
  }

  ghost predicate AtWork(before: Repo, m: Msg, server: Server, h: HandlerId) {
    && h in server.handlers && server.handlers[h].msg == m
    && (forall h' :: h' in server.handlers && KeyOf(server.handlers[h'].msg) == KeyOf(m) ==> h' == h)
    && SoFar(before, m, server.repo, server.handlers[h].results)
  }

  ghost function Awaited(node: Node): Msg
    requires node.device.phase.PushWait?
  {
    Msg(node.owner, node.device.phase.key, D.DtosOf(node.device.phase.chunk))
  }

  /** The records that the device has to do with are the server's, or those when its push was sent. */
  ghost predicate Follows(repo: Repo, server: Server, node: Node) {
    match node.device.phase
    case PushWait(_, _, _, _, _) => Underway(repo, Awaited(node), server, node.mail)
    case Pulling(_) =>
      && server.repo == repo
      && (node.mail.Some? ==>
            node.mail.value.PullMail? && IsListing(repo, node.owner, node.device.store.cursor, node.mail.value.dtos))
    case _ => server.repo == repo && node.mail.None?
  }

  ghost predicate Mirrors(s: System, dev: Dev, t: S.Solo) {
    && Reachable(s) && dev in s.nodes && S.InOrder(t, s.nodes[dev].owner) && t.device == s.nodes[dev].device
    && Follows(t.repo, s.server, s.nodes[dev])
  }

  // ---------------------------------------------------------------- records dealt with one by one

  /** What others write does not change how far a push is. */
  lemma {:induction false} SoFarAmongOthers(before: Repo, m: Msg, now: Repo, results: seq<PushResult>, next: Repo)
    requires SoFar(before, m, now, results) && S.OthersWrote(now, next, m.owner) && OwnDtos(now, m.owner, m.dtos)
    ensures SoFar(before, m, next, results)
  {
    var dtos := m.dtos[..|results|];
    forall i | 0 <= i < |dtos| ensures S.Dealt(before, next, m.owner, dtos[i], results[i]) {
      assert S.Dealt(before, now, m.owner, dtos[i], results[i]);
      assert dtos[i] == m.dtos[i];
      assert dtos[i].id in now.records && C.Owns(now, m.owner, dtos[i].id);
    }
    forall id | (C.Owns(before, m.owner, id) || C.Owns(next, m.owner, id)) && NotAmong(dtos, id)
      ensures SameAt(before, next, id)
    {
      assert C.Owns(before, m.owner, id) || C.Owns(now, m.owner, id) ==> SameAt(before, now, id);
      assert C.Owns(now, m.owner, id) || C.Owns(next, m.owner, id) ==> SameAt(now, next, id);
    }
  }

  lemma {:induction false} SoFarNext(before: Repo, m: Msg, now: Repo, results: seq<PushResult>, at: Time)
    requires SoFar(before, m, now, results) && |results| < |m.dtos|
    requires DistinctIds(m.dtos) && OwnDtos(now, m.owner, m.dtos)
    ensures var dto := m.dtos[|results|];
      var u := UpsertDTO(now, m.owner, dto, at);
      SoFar(before, m, u.repo, results + [ResultOf(dto, u)])
  {
    var n := |results|;
    var dto := m.dtos[n];
    var u := UpsertDTO(now, m.owner, dto, at);
    var results' := results + [ResultOf(dto, u)];
    forall i | 0 <= i < n ensures m.dtos[..n][i].id != dto.id { assert m.dtos[..n][i] == m.dtos[i]; }
    assert NotAmong(m.dtos[..n], dto.id);
    assert dto.id in before.records ==> C.Owns(now, m.owner, dto.id);
    assert C.Owns(before, m.owner, dto.id) || C.Owns(now, m.owner, dto.id) ==> SameAt(before, now, dto.id);
    assert SameAt(before, now, dto.id);
    forall i | 0 <= i < n + 1 ensures S.Dealt(before, u.repo, m.owner, m.dtos[..n + 1][i], results'[i]) {
      if i < n {
        assert m.dtos[..n + 1][i] == m.dtos[..n][i];
        assert S.Dealt(before, now, m.owner, m.dtos[..n][i], results[i]);
      }
    }
    forall id | (C.Owns(before, m.owner, id) || C.Owns(u.repo, m.owner, id)) && NotAmong(m.dtos[..n + 1], id)
      ensures SameAt(before, u.repo, id)
    {
      assert m.dtos[..n + 1][n] == dto;
      forall i | 0 <= i < n ensures m.dtos[..n][i].id != id { assert m.dtos[..n + 1][i] == m.dtos[..n][i]; }
      assert NotAmong(m.dtos[..n], id);
      assert SameAt(before, now, id);
    }
  }

  /** A step of the server that does not work on what dev waits for. */
  ghost predicate NotItsHandler(s: System, dev: Dev, op: ServerOp)
    requires dev in s.nodes
  {
    op.ApplyOp? && op.h in s.server.handlers ==> s.server.handlers[op.h].msg !in Sends(s.nodes[dev])
  }

  lemma {:induction false} ByOthers(s: System, dev: Dev, op: ServerOp, to: Option<Dev>)
    requires Reachable(s) && dev in s.nodes && Enabled(s, Serve(op, to)) && Alone(s, dev, Serve(op, to))
    requires NotItsHandler(s, dev, op)
    ensures var next := ServeNext(s, op, to);
      && S.OthersWrote(s.server.repo, next.server.repo, s.nodes[dev].owner)
      && S.OwnIds(next.server.repo, s.nodes[dev].owner, s.nodes[dev].device.store.records)
  {
    ReachableNext(s, Serve(op, to));
    ReachedIsWellFormed(s, dev);
    ReachedIsWellFormed(ServeNext(s, op, to), dev);
    ReachedIsOwned(ServeNext(s, op, to), dev);
    O.IdsKeepTheirOwner(s);
    WrittenByOthers(s, dev, op);
  }

  lemma {:induction false} WrittenByOthers(s: System, dev: Dev, op: ServerOp)
    requires O.ServerOf(s.registry, s.server) && dev in s.nodes && ServerEnabled(s.server, op)
    requires op.WriteOp? ==> op.rec.id !in s.registry
    requires AloneServe(s, dev, op) && NotItsHandler(s, dev, op)
    ensures var before, after := s.server.repo, ServerStep(s.server, op).repo;
      && before.counter <= after.counter && S.OwnersStay(before, after)
      && (forall id :: C.Owns(before, s.nodes[dev].owner, id) || C.Owns(after, s.nodes[dev].owner, id) ==>
            SameAt(before, after, id))
  {
    if op.ApplyOp? {
      var handler := s.server.handlers[op.h];
      assert O.HandlerOf(s.registry, handler);
      assert O.IsOf(s.registry, handler.msg.owner, NextDTO(handler).id);
    }
  }

  // ---------------------------------------------------------------- steps of the device

  /** The act of the device that the event stands for. */
  lemma {:induction false} ActOf(s: System, dev: Dev, t: S.Solo, e: D.Event) returns (a: S.Act)
    requires Mirrors(s, dev, t) && Enabled(s, Local(dev, e)) && Alone(s, dev, Local(dev, e))
    ensures a == S.Act(e, s.server.repo) && S.Enabled(t, s.nodes[dev].owner, a)
    ensures S.Next(t, s.nodes[dev].owner, a) == S.Solo(s.server.repo, D.Next(t.device, e))
  {
    ReachedIsOwned(s, dev);
    a := S.Act(e, s.server.repo);
    if e.PushDelivered? {
      var m := Awaited(s.nodes[dev]);
      assert m.dtos[..|m.dtos|] == m.dtos;
    }
  }

  /** Where the device goes next, it starts there with nothing in between. */
  lemma {:induction false} LocalFollows(s: System, dev: Dev, t: S.Solo, e: D.Event)
    requires Mirrors(s, dev, t) && Enabled(s, Local(dev, e)) && Alone(s, dev, Local(dev, e))
    ensures Follows(s.server.repo, s.server, LocalNode(s.nodes[dev], e))
  {
    ReachedIsWellFormed(s, dev);
    ReachedKeysAreKnown(s);
    if e.Advanced? && D.Next(t.device, e).phase.PushWait? {
      var m := Awaited(LocalNode(s.nodes[dev], e));
      assert SoFar(s.server.repo, m, s.server.repo, []);
    }
  }

  lemma LocalMirrors(s: System, dev: Dev, t: S.Solo, e: D.Event) returns (a: S.Act)
    requires Mirrors(s, dev, t) && Enabled(s, Local(dev, e)) && Alone(s, dev, Local(dev, e))
    ensures a.Act? && a.e == e && S.Enabled(t, s.nodes[dev].owner, a)
    ensures Mirrors(LocalNext(s, dev, e), dev, S.Next(t, s.nodes[dev].owner, a))
  {
    a := ActOf(s, dev, t, e);
    S.ActKeepsInOrder(t, s.nodes[dev].owner, a);
    LocalFollows(s, dev, t, e);
    ReachableNext(s, Local(dev, e));
  }

  // ---------------------------------------------------------------- other steps

  /** The server makes no step, and nothing comes to dev but the answer to its pull. */
  lemma {:induction false} ElsewhereFollows(s: System, dev: Dev, t: S.Solo, step: Step)
    requires Mirrors(s, dev, t) && Enabled(s, step) && !step.Serve? && !(step.Local? && step.dev == dev)
    ensures Next(s, step).server == s.server && Follows(t.repo, s.server, Next(s, step).nodes[dev])
    ensures Next(s, step).nodes[dev].device == s.nodes[dev].device
  {
  }

  /** Between pushes, what the server does is what others have written. */
  lemma {:induction false} ServeBetween(s: System, dev: Dev, t: S.Solo, op: ServerOp, to: Option<Dev>)
    requires Mirrors(s, dev, t) && Enabled(s, Serve(op, to)) && Alone(s, dev, Serve(op, to))
    requires !s.nodes[dev].device.phase.PushWait?
    ensures var next := ServeNext(s, op, to);
      && S.Enabled(t, s.nodes[dev].owner, S.Others(next.server.repo))
      && Follows(next.server.repo, next.server, next.nodes[dev]) && next.nodes[dev].device == s.nodes[dev].device
  {
    assert Sends(s.nodes[dev]) == {};
    ByOthers(s, dev, op, to);
    var next := ServeNext(s, op, to);
    if s.nodes[dev].mail.Some? {
      ListedAlike(t.repo, next.server.repo, s.nodes[dev].owner, s.nodes[dev].device.store.cursor,
                  s.nodes[dev].mail.value.dtos);
    }
  }

  lemma ListedAlike(repo: Repo, after: Repo, owner: Owner, since: int, dtos: seq<RecordDTO>)
    requires S.OthersWrote(repo, after, owner) && IsListing(repo, owner, since, dtos)
    ensures IsListing(after, owner, since, dtos)
  {
    forall id ensures Changed(after, owner, since, id) <==> Changed(repo, owner, since, id) {
      assert C.Owns(repo, owner, id) || C.Owns(after, owner, id) ==> SameAt(repo, after, id);
    }
    forall i | 0 <= i < |dtos| ensures dtos[i] == RecordToDTO(after.records[dtos[i].id]) {
      assert Changed(repo, owner, since, dtos[i].id) && SameAt(repo, after, dtos[i].id);
    }
  }

  /** Others' writes, other keys' entries and handlers, the expiry of the entry, and the mail may change. */
  lemma {:induction false} SameFollows(
    before: Repo, m: Msg, server: Server, next: Server, mail: Option<Mail>, mail': Option<Mail>)
    requires Underway(before, m, server, mail) && OwnDtos(server.repo, m.owner, m.dtos)
    requires S.OthersWrote(server.repo, next.repo, m.owner) && C.SameFor(server, next, KeyOf(m))
    requires mail' == mail || (KeyOf(m) in server.cache && mail' == Some(PushMail(server.cache[KeyOf(m)].results)))
    ensures Underway(before, m, next, mail')
  {
    if KeyOf(m) in server.cache {
      SoFarAmongOthers(before, m, server.repo, server.cache[KeyOf(m)].results, next.repo);
    } else if Unhandled(server, KeyOf(m)) {
      SoFarAmongOthers(before, m, server.repo, [], next.repo);
    } else {
      var h :| AtWork(before, m, server, h);
      SoFarAmongOthers(before, m, server.repo, server.handlers[h].results, next.repo);
      assert AtWork(before, m, next, h);
    }
  }

  lemma {:induction false} LookUpFollows(
    before: Repo, m: Msg, server: Server, mail: Option<Mail>, h: HandlerId, at: Time)
    requires Underway(before, m, server, mail) && KeyOf(m) !in server.cache && Unhandled(server, KeyOf(m))
    requires h !in server.handlers
    ensures Underway(before, m, LookUp(server, h, m, at), mail)
  {
    assert AtWork(before, m, LookUp(server, h, m, at), h);
  }

  lemma {:induction false} ApplyFollows(
    before: Repo, m: Msg, server: Server, mail: Option<Mail>, h: HandlerId, at: Time)
    requires Underway(before, m, server, mail) && ServerEnabled(server, ApplyOp(h, at)) && server.handlers[h].msg == m
    requires DistinctIds(m.dtos) && OwnDtos(server.repo, m.owner, m.dtos)
    ensures Underway(before, m, ApplyNext(server, h, at), mail)
  {
    var h' :| AtWork(before, m, server, h');
    SoFarNext(before, m, server.repo, server.handlers[h].results, at);
    assert AtWork(before, m, ApplyNext(server, h, at), h);
  }

  lemma {:induction false} SaveFollows(
    before: Repo, m: Msg, server: Server, mail: Option<Mail>, h: HandlerId, at: Time)
    requires Underway(before, m, server, mail) && ServerEnabled(server, SaveOp(h, at))
    requires KeyOf(server.handlers[h].msg) == KeyOf(m)
    ensures Underway(before, m, SaveAnswer(server, h, at), mail)
    ensures Underway(before, m, SaveAnswer(server, h, at), Some(PushMail(server.handlers[h].results)))
  {
    var h' :| AtWork(before, m, server, h');
  }

  /** The handler of the message that dev waits for takes a step. */
  lemma {:induction false} ServeItself(s: System, dev: Dev, t: S.Solo, op: ServerOp, to: Option<Dev>)
    requires Mirrors(s, dev, t) && Enabled(s, Serve(op, to)) && s.nodes[dev].device.phase.PushWait?
    requires var m := Awaited(s.nodes[dev]);
      match op
      case LookUpOp(_, msg, _) => msg == m && KeyOf(m) !in s.server.cache && Unhandled(s.server, KeyOf(m))
      case ApplyOp(h, _) => s.server.handlers[h].msg == m
      case SaveOp(h, _) => KeyOf(s.server.handlers[h].msg) == KeyOf(m)
      case _ => false
    ensures var next := ServeNext(s, op, to);
      Underway(t.repo, Awaited(s.nodes[dev]), next.server, next.nodes[dev].mail)
  {
    var node := s.nodes[dev];
    var m := Awaited(node);
    ReachedIsOwned(s, dev);
    match op
    case LookUpOp(h, msg, at) => LookUpFollows(t.repo, m, s.server, node.mail, h, at);
    case ApplyOp(h, at) =>
      D.RestIsDistinct(node.device.phase.chunk, Flatten(node.device.phase.chunks));
      ApplyFollows(t.repo, m, s.server, node.mail, h, at);
    case SaveOp(h, at) => SaveFollows(t.repo, m, s.server, node.mail, h, at);
  }

  /** Any other step of the server. */
  lemma {:induction false} ServeOthers(s: System, dev: Dev, t: S.Solo, op: ServerOp, to: Option<Dev>)
    requires Mirrors(s, dev, t) && Enabled(s, Serve(op, to)) && Alone(s, dev, Serve(op, to))
    requires s.nodes[dev].device.phase.PushWait?
    requires var m := Awaited(s.nodes[dev]);
      match op
      case LookUpOp(_, msg, at) => KeyOf(msg) == KeyOf(m) ==> Hit(s.server.cache, KeyOf(m), at)
      case ApplyOp(h, _) => s.server.handlers[h].msg != m
      case SaveOp(h, _) => KeyOf(s.server.handlers[h].msg) != KeyOf(m)
      case _ => true
    ensures var next := ServeNext(s, op, to);
      Underway(t.repo, Awaited(s.nodes[dev]), next.server, next.nodes[dev].mail)
  {
    var node := s.nodes[dev];
    var m := Awaited(node);
    var next := ServeNext(s, op, to);
    ReachedIsOwned(s, dev);
    assert Sends(node) == {m};
    ByOthers(s, dev, op, to);
    OtherKeysStay(t.repo, m, s.server, node.mail, op);
    SameFollows(t.repo, m, s.server, next.server, node.mail, next.nodes[dev].mail);
  }

  lemma {:induction false} OtherKeysStay(before: Repo, m: Msg, server: Server, mail: Option<Mail>, op: ServerOp)
    requires ServerEnabled(server, op) && Underway(before, m, server, mail)
    requires match op
      case LookUpOp(_, msg, at) => KeyOf(msg) == KeyOf(m) ==> Hit(server.cache, KeyOf(m), at)
      case ApplyOp(h, _) => server.handlers[h].msg != m
      case SaveOp(h, _) => KeyOf(server.handlers[h].msg) != KeyOf(m)
      case ExpireOp(at) => KeyOf(m) in server.cache ==> Hit(server.cache, KeyOf(m), at)
      case _ => true
    ensures C.SameFor(server, ServerStep(server, op), KeyOf(m))
  {
    if op.ApplyOp? && KeyOf(server.handlers[op.h].msg) == KeyOf(m) {
      assert false;
    }
  }

  /** While dev waits, a step of the server brings its message further, or changes nothing for it. */
  lemma {:induction false} ServeWhileWaiting(s: System, dev: Dev, t: S.Solo, op: ServerOp, to: Option<Dev>)
    requires Mirrors(s, dev, t) && Enabled(s, Serve(op, to)) && Alone(s, dev, Serve(op, to))
    requires s.nodes[dev].device.phase.PushWait?
    ensures var next := ServeNext(s, op, to);
      Underway(t.repo, Awaited(s.nodes[dev]), next.server, next.nodes[dev].mail)
  {
    var m := Awaited(s.nodes[dev]);
    assert Sends(s.nodes[dev]) == {m};
    match op
    case LookUpOp(_, msg, at) =>
      if KeyOf(msg) == KeyOf(m) && !Hit(s.server.cache, KeyOf(m), at) {
        ServeItself(s, dev, t, op, to);
      } else {
        ServeOthers(s, dev, t, op, to);
      }
    case ApplyOp(h, _) =>
      if s.server.handlers[h].msg == m { ServeItself(s, dev, t, op, to); } else { ServeOthers(s, dev, t, op, to); }
    case SaveOp(h, _) =>
      if KeyOf(s.server.handlers[h].msg) == KeyOf(m) {
        ServeItself(s, dev, t, op, to);
      } else {
        ServeOthers(s, dev, t, op, to);
      }
    case _ => ServeOthers(s, dev, t, op, to);
  }

  /** A step that is not dev's own is nothing to it while it waits, and else a write by others. */
  ghost function After(t: S.Solo, after: Repo): S.Solo {
    if t.device.phase.PushWait? then t else t.(repo := after)
  }

  lemma {:induction false} StepMirrors(s: System, dev: Dev, t: S.Solo, step: Step)
    requires Mirrors(s, dev, t) && Enabled(s, step) && Alone(s, dev, step)
    requires !(step.Local? && step.dev == dev)
    ensures !t.device.phase.PushWait? ==> S.Enabled(t, s.nodes[dev].owner, S.Others(Next(s, step).server.repo))
    ensures dev in Next(s, step).nodes && Next(s, step).nodes[dev].owner == s.nodes[dev].owner
    ensures Mirrors(Next(s, step), dev, After(t, Next(s, step).server.repo))
  {
    ReachableNext(s, step);
    ReachedIsOwned(s, dev);
    ReachedIsWellFormed(s, dev);
    if step.Serve? {
      if t.device.phase.PushWait? {
        ServeWhileWaiting(s, dev, t, step.op, step.to);
      } else {
        ServeBetween(s, dev, t, step.op, step.to);
      }
    } else {
      ElsewhereFollows(s, dev, t, step);
    }
  }

  // ---------------------------------------------------------------- runs

  /**
   * The steps are those of a Sync of dev, from its start or from the pull that it has come to, and it has
   * not come to rest before the last of them.
   */
  ghost predicate InSync(s: System, dev: Dev, steps: seq<Step>)
    requires IsRun(s, steps) && dev in s.nodes
  {
    steps != [] &&
    var n := |steps| - 1;
    if n == 0 then s.nodes[dev].device.phase.Idle? ==> steps[0] == Local(dev, D.Started)
    else
      && InSync(s, dev, steps[..n])
      && dev in Run(s, steps[..n]).nodes && !Run(s, steps[..n]).nodes[dev].device.phase.Idle?
  }

  /** The acts are what dev did and others wrote in the run, and lead to the same state of dev. */
  ghost predicate Simulates(s: System, dev: Dev, steps: seq<Step>, t: S.Solo, acts: seq<S.Act>)
    requires IsRun(s, steps)
  {
    && dev in s.nodes && dev in Run(s, steps).nodes && Run(s, steps).nodes[dev].owner == s.nodes[dev].owner
    && S.IsRun(t, s.nodes[dev].owner, acts)
    && Mirrors(Run(s, steps), dev, S.Run(t, s.nodes[dev].owner, acts))
    && (InSync(s, dev, steps) ==> S.IsSync(t, s.nodes[dev].owner, acts))
  }

  /** The acts of the first step of a Sync are none that would come before its start. */
  lemma {:induction false} ActAppend(t: S.Solo, owner: Owner, acts: seq<S.Act>, a: S.Act)
    requires S.IsRun(t, owner, acts) && S.Enabled(S.Run(t, owner, acts), owner, a)
    ensures S.IsRun(t, owner, acts + [a]) && S.Run(t, owner, acts + [a]) == S.Next(S.Run(t, owner, acts), owner, a)
    ensures acts == [] && (t.device.phase.Idle? ==> a.Act? && a.e == D.Started) ==> S.IsSync(t, owner, acts + [a])
    ensures S.IsSync(t, owner, acts) && !S.Run(t, owner, acts).device.phase.Idle? ==> S.IsSync(t, owner, acts + [a])
  {
    assert (acts + [a])[..|acts|] == acts;
  }

  /** One more step, and the act that stands for it. */
  lemma {:induction false} SyncGoesOn(s: System, dev: Dev, steps: seq<Step>, t: S.Solo, acts: seq<S.Act>, a: S.Act)
    requires IsRun(s, steps) && steps != [] && (|steps| == 1 ==> acts == [])
    requires dev in s.nodes && t.device == s.nodes[dev].device
    requires Simulates(s, dev, steps[..|steps| - 1], t, acts)
    requires S.Enabled(S.Run(t, s.nodes[dev].owner, acts), s.nodes[dev].owner, a)
    requires steps[|steps| - 1] == Local(dev, D.Started) ==> a.Act? && a.e == D.Started
    ensures var owner := s.nodes[dev].owner;
      && S.IsRun(t, owner, acts + [a]) && S.Run(t, owner, acts + [a]) == S.Next(S.Run(t, owner, acts), owner, a)
      && (InSync(s, dev, steps) ==> S.IsSync(t, owner, acts + [a]))
  {
    ActAppend(t, s.nodes[dev].owner, acts, a);
  }

  lemma {:induction false} OwnStepSimulates(s: System, dev: Dev, steps: seq<Step>, t: S.Solo, acts: seq<S.Act>)
    returns (acts': seq<S.Act>)
    requires IsRun(s, steps) && steps != [] && steps[|steps| - 1].Local? && steps[|steps| - 1].dev == dev
    requires dev in s.nodes && t.device == s.nodes[dev].device
    requires Simulates(s, dev, steps[..|steps| - 1], t, acts) && (|steps| == 1 ==> acts == [])
    requires Alone(Run(s, steps[..|steps| - 1]), dev, steps[|steps| - 1])
    ensures Simulates(s, dev, steps, t, acts') && LastAct(s, dev, steps, t, acts')
  {
    var n := |steps| - 1;
    var a := LocalMirrors(Run(s, steps[..n]), dev, S.Run(t, s.nodes[dev].owner, acts), steps[n].e);
    acts' := acts + [a];
    assert acts'[..|acts|] == acts;
    SyncGoesOn(s, dev, steps, t, acts, a);
  }

  lemma {:induction false} OtherStepSimulates(s: System, dev: Dev, steps: seq<Step>, t: S.Solo, acts: seq<S.Act>)
    returns (acts': seq<S.Act>)
    requires IsRun(s, steps) && steps != [] && !(steps[|steps| - 1].Local? && steps[|steps| - 1].dev == dev)
    requires dev in s.nodes && t.device == s.nodes[dev].device && !t.device.phase.PushWait?
    requires Simulates(s, dev, steps[..|steps| - 1], t, acts) && (|steps| == 1 ==> acts == [])
    requires Alone(Run(s, steps[..|steps| - 1]), dev, steps[|steps| - 1])
    ensures Simulates(s, dev, steps, t, acts')
  {
    var n := |steps| - 1;
    var now := S.Run(t, s.nodes[dev].owner, acts);
    StepMirrors(Run(s, steps[..n]), dev, now, steps[n]);
    if now.device.phase.PushWait? {
      acts' := acts;
    } else {
      var a := S.Others(Run(s, steps).server.repo);
      acts' := acts + [a];
      SyncGoesOn(s, dev, steps, t, acts, a);
    }
  }

  /** Such a run of the system is, for the device, a run of the device with its pushes answered one by one. */
  lemma {:induction false} RunSimulates(s: System, dev: Dev, steps: seq<Step>, t: S.Solo) returns (acts: seq<S.Act>)
    requires Mirrors(s, dev, t) && IsRun(s, steps) && AloneRun(s, dev, steps) && !t.device.phase.PushWait?
    ensures Simulates(s, dev, steps, t, acts) && (steps == [] ==> acts == [])
    ensures steps != [] && steps[|steps| - 1].Local? && steps[|steps| - 1].dev == dev ==>
              LastAct(s, dev, steps, t, acts)
  {
    acts := [];
    if steps != [] {
      var n := |steps| - 1;
      acts := RunSimulates(s, dev, steps[..n], t);
      if steps[n].Local? && steps[n].dev == dev {
        acts := OwnStepSimulates(s, dev, steps, t, acts);
      } else {
        acts := OtherStepSimulates(s, dev, steps, t, acts);
      }
    }
  }

  /** The last act is the event of the last step, from the same phase. */
  ghost predicate LastAct(s: System, dev: Dev, steps: seq<Step>, t: S.Solo, acts: seq<S.Act>)
    requires IsRun(s, steps) && Simulates(s, dev, steps, t, acts)
    requires steps != [] && steps[|steps| - 1].Local?
  {
    var n := |steps| - 1;
    && acts != [] && acts[|acts| - 1].Act? && acts[|acts| - 1].e == steps[n].e
    && dev in Run(s, steps[..n]).nodes
    && S.Run(t, s.nodes[dev].owner, acts[..|acts| - 1]).device == Run(s, steps[..n]).nodes[dev].device
  }

  // ---------------------------------------------------------------- what holds of the system

  ghost function SoloOf(s: System, dev: Dev): S.Solo
    requires dev in s.nodes
  {
    S.Solo(s.server.repo, s.nodes[dev].device)
  }

  /** Some run leads here, and dev, with nothing pending, is at rest or about to pull, in any iteration. */
  ghost predicate Standing(s: System, dev: Dev) {
    && Reachable(s) && dev in s.nodes && s.nodes[dev].device.store.pending == []
    && (s.nodes[dev].device.phase.Idle? || (s.nodes[dev].device.phase.Pulling? && s.nodes[dev].mail.None?))
  }

  lemma {:induction false} StandingCanStart(s: System, dev: Dev)
    requires Standing(s, dev)
    ensures S.CanStart(SoloOf(s, dev), s.nodes[dev].owner) && Mirrors(s, dev, SoloOf(s, dev))
  {
    ReachedIsOwned(s, dev);
    ReachedIsWellFormed(s, dev);
  }

  /** The iteration is over: every chunk is answered, or nothing was dirty after the pull. */
  ghost predicate IterationOver(s: System, dev: Dev, steps: seq<Step>)
    requires IsRun(s, steps) && steps != [] && dev in s.nodes
  {
    var n := |steps| - 1;
    var i := S.IterationAt(s.nodes[dev].device.phase);
    && dev in Run(s, steps).nodes && dev in Run(s, steps[..n]).nodes
    && var before, now := Run(s, steps[..n]).nodes[dev].device.phase, Run(s, steps).nodes[dev].device.phase;
    || (now.Pushing? && now.iteration == i && now.chunks == [])
    || (steps[n].Local? && steps[n].dev == dev && before.Pulling? && before.iteration == i && now.Idle?)
  }

  /**
   * Stuck.ConvergesExactlyWhen for the whole system: from a state that any run reached, with calls failed
   * and edits lost or stuck in whatever way before, a Sync that starts there, or one that pulls there in any
   * of its iterations. If from then on nobody else has the owner's records written and no call fails, then
   * after this iteration nothing is dirty, and no conflict was reported in it, if and only if no record was
   * stuck when it began.
   */
  lemma {:induction false} ConvergesExactlyWhen(s: System, dev: Dev, steps: seq<Step>)
    requires Standing(s, dev) && IsRun(s, steps) && AloneRun(s, dev, steps)
    requires InSync(s, dev, steps) && IterationOver(s, dev, steps)
    ensures var node, after := s.nodes[dev], Run(s, steps).nodes[dev];
      var stuck := S.SomeStuck(s.server.repo, node.owner, node.device.store);
      && (S.NothingIsDirty(after.device.store.records) <==> !stuck)
      && (after.device.phase.Pushing? ==> (after.device.phase.conflicts <==> stuck))
      && (!stuck && S.Coherent(s.server.repo, node.owner, node.device.store) ==>
            C.Matches(Run(s, steps).server.repo, node.owner, after.device.store.records))
  {
    var t := SoloOf(s, dev);
    StandingCanStart(s, dev);
    var acts := RunSimulates(s, dev, steps, t);
    OverIsOver(s, dev, steps, t, acts);
    S.ConvergesExactlyWhen(t, s.nodes[dev].owner, acts);
  }

  lemma {:induction false} OverIsOver(s: System, dev: Dev, steps: seq<Step>, t: S.Solo, acts: seq<S.Act>)
    requires IsRun(s, steps) && steps != [] && Simulates(s, dev, steps, t, acts) && acts != []
    requires t.device == s.nodes[dev].device && IterationOver(s, dev, steps)
    requires steps[|steps| - 1].Local? && steps[|steps| - 1].dev == dev ==> LastAct(s, dev, steps, t, acts)
    ensures S.IterationOver(t, s.nodes[dev].owner, acts)
    ensures Run(s, steps).server.repo == S.Run(t, s.nodes[dev].owner, acts).repo
  {
  }

  /**
   * Stuck.StuckStaysStuck for the whole system: a record that is stuck for good is so in every state that
   * such runs reach, of any number of Syncs and edits, whenever the device does not wait for a push.
   */
  lemma {:induction false} StuckStaysStuck(s: System, dev: Dev, steps: seq<Step>, id: Id)
    requires Standing(s, dev) && IsRun(s, steps) && AloneRun(s, dev, steps)
    requires S.StuckForGood(SoloOf(s, dev), s.nodes[dev].owner, id)
    ensures var end := Run(s, steps);
      && dev in end.nodes && IsDirty(end.nodes[dev].device.store.records, id)
      && (!end.nodes[dev].device.phase.PushWait? ==> S.StuckForGood(SoloOf(end, dev), s.nodes[dev].owner, id))
  {
    var t := SoloOf(s, dev);
    StandingCanStart(s, dev);
    var acts := RunSimulates(s, dev, steps, t);
    S.StuckStaysStuck(t, s.nodes[dev].owner, acts, id);
  }
}
