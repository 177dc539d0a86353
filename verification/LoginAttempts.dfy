/** The login gate: how many failed logins an account can see in a given time. */
module LoginAttempts {
  import opened Domain
  import opened Sets

  type LoginName = nat

  datatype AttemptEntry = AttemptEntry(count: int, windowEnd: int)

  type Attempts = map<LoginName, AttemptEntry>

  datatype Limits = Limits(maxAttempts: int, window: int)

  /** One login: its clock readings in the order they are taken, and whether the credentials pass. */
  datatype Login = Login(login: LoginName, gate: int, check: int, open: int, passes: bool)

  datatype Outcome = RateLimited | Refused | Succeeded

  predicate Expired(a: Attempts, login: LoginName, now: int) {
    login !in a || now > a[login].windowEnd
  }

  predicate IsAllowed(a: Attempts, login: LoginName, now: int, limits: Limits) {
    Expired(a, login, now) || a[login].count < limits.maxAttempts
  }

  function Counted(a: Attempts, login: LoginName, check: int, open: int, limits: Limits): Attempts {
    var e := if Expired(a, login, check) then AttemptEntry(0, open + limits.window) else a[login];
    a[login := e.(count := e.count + 1)]
  }

  function OutcomeOf(a: Attempts, l: Login, limits: Limits): Outcome {
    if !IsAllowed(a, l.login, l.gate, limits) then RateLimited
    else if !l.passes then Refused
    else Succeeded
  }

  function Step(a: Attempts, l: Login, limits: Limits): Attempts {
    match OutcomeOf(a, l, limits)
    case RateLimited => a
    case Refused => Counted(a, l.login, l.check, l.open, limits)
    case Succeeded => a - {l.login}
  }

  function Run(a: Attempts, ls: seq<Login>, limits: Limits): Attempts {
    if ls == [] then a else Step(Run(a, ls[..|ls| - 1], limits), ls[|ls| - 1], limits)
  }

  /** Logins come one after the other and the clock never goes back. */
  ghost predicate Clocked(ls: seq<Login>) {
    && (forall i :: 0 <= i < |ls| ==> ls[i].gate <= ls[i].check <= ls[i].open)
    && (forall i, j :: 0 <= i < j < |ls| ==> ls[i].open <= ls[j].gate)
  }

  // ---------------------------------------------------------------- the stored count

  ghost predicate Bounded(a: Attempts, limits: Limits) {
    forall login :: login in a ==> 1 <= a[login].count <= limits.maxAttempts
  }

  /** A stored count is at least one and never exceeds the limit. */
  lemma {:induction false} CountStaysBounded(a: Attempts, ls: seq<Login>, limits: Limits)
    requires limits.maxAttempts >= 1 && Bounded(a, limits) && Clocked(ls)
    ensures Bounded(Run(a, ls, limits), limits)
  {
    if ls != [] {
      CountStaysBounded(a, ls[..|ls| - 1], limits);
    }
  }

  // ---------------------------------------------------------------- failures in a stretch of time

  /** The i-th login is on this account, passes the gate and fails. */
  predicate RefusedAt(a: Attempts, ls: seq<Login>, limits: Limits, login: LoginName, i: nat) {
    i < |ls| && ls[i].login == login && OutcomeOf(Run(a, ls[..i], limits), ls[i], limits) == Refused
  }

  predicate SucceedsAt(a: Attempts, ls: seq<Login>, limits: Limits, login: LoginName, i: nat) {
    i < |ls| && ls[i].login == login && OutcomeOf(Run(a, ls[..i], limits), ls[i], limits) == Succeeded
  }

  ghost predicate NoSuccess(a: Attempts, ls: seq<Login>, limits: Limits, login: LoginName) {
    forall i: nat :: i < |ls| ==> !SucceedsAt(a, ls, limits, login, i)
  }

  /** The ends of the windows on this account, in the order the windows were opened. */
  ghost function Ends(a: Attempts, ls: seq<Login>, limits: Limits, login: LoginName): seq<int> {
    if ls == [] then (if login in a then [a[login].windowEnd] else [])
    else
      var n := |ls| - 1;
      var before := Ends(a, ls[..n], limits, login);
      if RefusedAt(a, ls, limits, login, n) && Expired(Run(a, ls[..n], limits), login, ls[n].check)
      then before + [ls[n].open + limits.window]
      else before
  }

  /** The window in which the i-th login was counted. */
  ghost function WindowOf(a: Attempts, ls: seq<Login>, limits: Limits, login: LoginName, i: nat): int
    requires i < |ls|
  {
    |Ends(a, ls[..i + 1], limits, login)| - 1
  }

  ghost function RefusedIn(a: Attempts, ls: seq<Login>, limits: Limits, login: LoginName, w: int): set<nat> {
    set i: nat | i < |ls| && RefusedAt(a, ls, limits, login, i) && WindowOf(a, ls, limits, login, i) == w
  }

  lemma Prefixes(a: Attempts, ls: seq<Login>, limits: Limits, login: LoginName, i: nat)
    requires ls != [] && i < |ls| - 1
    ensures RefusedAt(a, ls[..|ls| - 1], limits, login, i) == RefusedAt(a, ls, limits, login, i)
    ensures WindowOf(a, ls[..|ls| - 1], limits, login, i) == WindowOf(a, ls, limits, login, i)
  {
    var before := ls[..|ls| - 1];
    assert before[..i] == ls[..i] && before[..i + 1] == ls[..i + 1];
  }

  lemma LastPrefix(ls: seq<Login>)
    requires ls != []
    ensures ls[..|ls| - 1 + 1] == ls
  {
  }

  /** Between windows lies more than the window's length, and a window holds what its entry counts. */
  ghost predicate Trail(a: Attempts, ls: seq<Login>, limits: Limits, login: LoginName) {
    var ends := Ends(a, ls, limits, login);
    && EndsApart(a, ls, limits, login)
    && (forall k: nat :: k < |ends| ==> CountsRefused(a, ls, limits, login, k))
  }

  ghost predicate EndsApart(a: Attempts, ls: seq<Login>, limits: Limits, login: LoginName) {
    var now := Run(a, ls, limits);
    var ends := Ends(a, ls, limits, login);
    && (login in a ==> ends != [])
    && (login in now <==> ends != [])
    && (login in now ==> now[login].windowEnd == ends[|ends| - 1])
    && (forall k :: 0 <= k < |ends| - 1 ==> ends[k + 1] > ends[k] + limits.window)
    && (|ends| >= 2 ==> ls != [] && ls[|ls| - 1].open > ends[|ends| - 2])
  }

  /** What the entry had counted when the stretch began. */
  ghost function CountedBefore(a: Attempts, login: LoginName, k: nat): int {
    if k == 0 && login in a then a[login].count else 0
  }

  ghost predicate CountsRefused(a: Attempts, ls: seq<Login>, limits: Limits, login: LoginName, k: nat) {
    var now := Run(a, ls, limits);
    var count := CountedBefore(a, login, k) + |RefusedIn(a, ls, limits, login, k)|;
    && count <= limits.maxAttempts
    && (login in now && k == |Ends(a, ls, limits, login)| - 1 ==> now[login].count == count)
  }

  /** A refusal falls before the end of its window and after the end of the one before. */
  ghost predicate PlacedAt(a: Attempts, ls: seq<Login>, limits: Limits, login: LoginName, i: nat)
    requires i < |ls|
  {
    var ends := Ends(a, ls, limits, login);
    var w := WindowOf(a, ls, limits, login, i);
    && 0 <= w < |ends|
    && ls[i].check <= ends[w]
    && (w > 0 ==> ls[i].check > ends[w - 1])
  }

  ghost predicate Placed(a: Attempts, ls: seq<Login>, limits: Limits, login: LoginName) {
    forall i: nat :: i < |ls| && RefusedAt(a, ls, limits, login, i) ==> PlacedAt(a, ls, limits, login, i)
  }

  lemma RefusedInStep(a: Attempts, ls: seq<Login>, limits: Limits, login: LoginName, w: int)
    requires ls != []
    ensures var n := |ls| - 1;
      RefusedIn(a, ls, limits, login, w) ==
      RefusedIn(a, ls[..n], limits, login, w) +
      if RefusedAt(a, ls, limits, login, n) && |Ends(a, ls, limits, login)| - 1 == w then {n} else {}
  {
    var n := |ls| - 1;
    LastPrefix(ls);
    assert WindowOf(a, ls, limits, login, n) == |Ends(a, ls, limits, login)| - 1;
    forall i: nat | i < n
      ensures RefusedAt(a, ls[..n], limits, login, i) == RefusedAt(a, ls, limits, login, i)
      ensures WindowOf(a, ls[..n], limits, login, i) == WindowOf(a, ls, limits, login, i)
    {
      Prefixes(a, ls, limits, login, i);
    }
  }

  lemma NoSuccessPrefix(a: Attempts, ls: seq<Login>, limits: Limits, login: LoginName)
    requires ls != [] && NoSuccess(a, ls, limits, login) && Clocked(ls)
    ensures NoSuccess(a, ls[..|ls| - 1], limits, login) && Clocked(ls[..|ls| - 1])
  {
    var before := ls[..|ls| - 1];
    forall i: nat | i < |before| ensures !SucceedsAt(a, before, limits, login, i) {
      assert before[..i] == ls[..i];
      assert !SucceedsAt(a, ls, limits, login, i);
    }
  }

  lemma WindowsBelow(a: Attempts, ls: seq<Login>, limits: Limits, login: LoginName, w: int)
    requires Placed(a, ls, limits, login) && w >= |Ends(a, ls, limits, login)|
    ensures RefusedIn(a, ls, limits, login, w) == {}
  {
  }

  lemma {:induction false} KeepsTrail(a: Attempts, ls: seq<Login>, limits: Limits, login: LoginName)
    requires limits.maxAttempts >= 1 && limits.window >= 0 && Bounded(a, limits)
    requires Clocked(ls) && NoSuccess(a, ls, limits, login)
    ensures Trail(a, ls, limits, login) && Placed(a, ls, limits, login)
  {
    if ls == [] {
      assert forall k :: RefusedIn(a, ls, limits, login, k) == {};
    } else {
      NoSuccessPrefix(a, ls, limits, login);
      KeepsTrail(a, ls[..|ls| - 1], limits, login);
      TrailStep(a, ls, limits, login);
      PlacedStep(a, ls, limits, login);
    }
  }

  /** What the last login does to this account's entry and to its windows. */
  lemma LastLogin(a: Attempts, ls: seq<Login>, limits: Limits, login: LoginName)
    requires ls != [] && NoSuccess(a, ls, limits, login)
    ensures var n := |ls| - 1;
      var was, now := Run(a, ls[..n], limits), Run(a, ls, limits);
      var ends, ends' := Ends(a, ls[..n], limits, login), Ends(a, ls, limits, login);
      if !RefusedAt(a, ls, limits, login, n) then
        ends' == ends && (login in now <==> login in was) && (login in was ==> now[login] == was[login])
      else if Expired(was, login, ls[n].check) then
        && ends' == ends + [ls[n].open + limits.window]
        && login in now && now[login] == AttemptEntry(1, ls[n].open + limits.window)
      else
        && ends' == ends && login in was && login in now
        && now[login] == was[login].(count := was[login].count + 1)
        && ls[n].check <= was[login].windowEnd
        && (ls[n].gate <= ls[n].check ==> was[login].count < limits.maxAttempts)
  {
    assert !SucceedsAt(a, ls, limits, login, |ls| - 1);
  }

  /** How many refusals each window holds after the last login. */
  lemma LastCount(a: Attempts, ls: seq<Login>, limits: Limits, login: LoginName, k: int)
    requires ls != [] && Placed(a, ls[..|ls| - 1], limits, login)
    ensures var n := |ls| - 1;
      var before := RefusedIn(a, ls[..n], limits, login, k);
      |RefusedIn(a, ls, limits, login, k)| ==
      |before| + if RefusedAt(a, ls, limits, login, n) && |Ends(a, ls, limits, login)| - 1 == k then 1 else 0
    ensures k >= |Ends(a, ls[..|ls| - 1], limits, login)| ==> |RefusedIn(a, ls[..|ls| - 1], limits, login, k)| == 0
  {
    RefusedInStep(a, ls, limits, login, k);
    assert |ls| - 1 !in RefusedIn(a, ls[..|ls| - 1], limits, login, k);
    if k >= |Ends(a, ls[..|ls| - 1], limits, login)| {
      WindowsBelow(a, ls[..|ls| - 1], limits, login, k);
    }
  }

  lemma EndsStep(a: Attempts, ls: seq<Login>, limits: Limits, login: LoginName)
    requires limits.window >= 0 && ls != [] && NoSuccess(a, ls, limits, login)
    requires ls[|ls| - 1].check <= ls[|ls| - 1].open
    requires |ls| > 1 ==> ls[|ls| - 2].open <= ls[|ls| - 1].check
    requires EndsApart(a, ls[..|ls| - 1], limits, login)
    ensures EndsApart(a, ls, limits, login)
  {
    LastLogin(a, ls, limits, login);
    var n := |ls| - 1;
    var ends, ends' := Ends(a, ls[..n], limits, login), Ends(a, ls, limits, login);
    forall k | 0 <= k < |ends'| - 1 ensures ends'[k + 1] > ends'[k] + limits.window {
      if k < |ends| - 1 { assert ends'[k + 1] == ends[k + 1] && ends'[k] == ends[k]; }
    }
  }

  lemma CountStep(a: Attempts, ls: seq<Login>, limits: Limits, login: LoginName, k: nat)
    requires limits.maxAttempts >= 1 && ls != [] && NoSuccess(a, ls, limits, login)
    requires ls[|ls| - 1].gate <= ls[|ls| - 1].check
    requires Trail(a, ls[..|ls| - 1], limits, login) && Placed(a, ls[..|ls| - 1], limits, login)
    ensures CountsRefused(a, ls, limits, login, k)
  {
    LastLogin(a, ls, limits, login);
    LastCount(a, ls, limits, login, k);
    if k < |Ends(a, ls[..|ls| - 1], limits, login)| {
      assert CountsRefused(a, ls[..|ls| - 1], limits, login, k);
    }
  }

  lemma TrailStep(a: Attempts, ls: seq<Login>, limits: Limits, login: LoginName)
    requires limits.maxAttempts >= 1 && limits.window >= 0 && ls != []
    requires Clocked(ls) && NoSuccess(a, ls, limits, login)
    requires Trail(a, ls[..|ls| - 1], limits, login) && Placed(a, ls[..|ls| - 1], limits, login)
    ensures Trail(a, ls, limits, login)
  {
    EndsStep(a, ls, limits, login);
    forall k: nat | k < |Ends(a, ls, limits, login)|
      ensures CountsRefused(a, ls, limits, login, k)
    {
      CountStep(a, ls, limits, login, k);
    }
  }

  lemma EarlierStaysPlaced(a: Attempts, ls: seq<Login>, limits: Limits, login: LoginName, i: nat)
    requires ls != [] && i < |ls| - 1
    requires RefusedAt(a, ls[..|ls| - 1], limits, login, i) && PlacedAt(a, ls[..|ls| - 1], limits, login, i)
    ensures PlacedAt(a, ls, limits, login, i)
  {
    Prefixes(a, ls, limits, login, i);
    assert Ends(a, ls[..|ls| - 1], limits, login) <= Ends(a, ls, limits, login);
  }

  lemma LastIsPlaced(a: Attempts, ls: seq<Login>, limits: Limits, login: LoginName)
    requires limits.window >= 0 && ls != [] && NoSuccess(a, ls, limits, login)
    requires ls[|ls| - 1].check <= ls[|ls| - 1].open
    requires |ls| > 1 ==> ls[|ls| - 2].open <= ls[|ls| - 1].check
    requires Trail(a, ls[..|ls| - 1], limits, login) && RefusedAt(a, ls, limits, login, |ls| - 1)
    ensures PlacedAt(a, ls, limits, login, |ls| - 1)
  {
    LastLogin(a, ls, limits, login);
    LastPrefix(ls);
  }

  lemma PlacedStep(a: Attempts, ls: seq<Login>, limits: Limits, login: LoginName)
    requires limits.window >= 0 && ls != [] && Clocked(ls) && NoSuccess(a, ls, limits, login)
    requires Trail(a, ls[..|ls| - 1], limits, login) && Placed(a, ls[..|ls| - 1], limits, login)
    ensures Placed(a, ls, limits, login)
  {
    var n := |ls| - 1;
    forall i: nat | i < |ls| && RefusedAt(a, ls, limits, login, i)
      ensures PlacedAt(a, ls, limits, login, i)
    {
      if i < n {
        Prefixes(a, ls, limits, login, i);
        EarlierStaysPlaced(a, ls, limits, login, i);
      } else {
        LastIsPlaced(a, ls, limits, login);
      }
    }
  }

  lemma {:induction false} EndsGrow(ends: seq<int>, window: int, k: nat, m: nat)
    requires window >= 0 && k <= m < |ends|
    requires forall i :: 0 <= i < |ends| - 1 ==> ends[i + 1] > ends[i] + window
    ensures ends[k] <= ends[m]
  {
    if k < m {
      EndsGrow(ends, window, k, m - 1);
    }
  }

  ghost function RefusedDuring(
    a: Attempts, ls: seq<Login>, limits: Limits, login: LoginName, from: int, to: int): set<nat> {
    set i: nat | i < |ls| && RefusedAt(a, ls, limits, login, i) && from <= ls[i].check <= to
  }

  lemma WindowsAreApart(a: Attempts, ls: seq<Login>, limits: Limits, login: LoginName, v: nat, w: nat)
    requires limits.window >= 0 && Trail(a, ls, limits, login)
    requires v + 2 <= w < |Ends(a, ls, limits, login)|
    ensures Ends(a, ls, limits, login)[w - 1] > Ends(a, ls, limits, login)[v] + limits.window
  {
    EndsGrow(Ends(a, ls, limits, login), limits.window, v + 1, w - 1);
  }

  /** Two refusals within one window's length of each other lie in the same window or in neighbours. */
  lemma CloseInTimeCloseInWindow(a: Attempts, ls: seq<Login>, limits: Limits, login: LoginName, i: nat, j: nat)
    requires limits.window >= 0 && Trail(a, ls, limits, login)
    requires i < |ls| && j < |ls| && PlacedAt(a, ls, limits, login, i) && PlacedAt(a, ls, limits, login, j)
    requires ls[j].check <= ls[i].check + limits.window
    ensures WindowOf(a, ls, limits, login, j) <= WindowOf(a, ls, limits, login, i) + 1
  {
    var v, w := WindowOf(a, ls, limits, login, i), WindowOf(a, ls, limits, login, j);
    if w >= v + 2 {
      WindowsAreApart(a, ls, limits, login, v, w);
    }
  }

  lemma LeastWindow(a: Attempts, ls: seq<Login>, limits: Limits, login: LoginName, s: set<nat>) returns (least: nat)
    requires s != {} && forall i :: i in s ==> i < |ls|
    ensures least in s
    ensures forall i :: i in s ==> WindowOf(a, ls, limits, login, least) <= WindowOf(a, ls, limits, login, i)
    decreases s
  {
    var x :| x in s;
    if s == {x} {
      return x;
    }
    var y := LeastWindow(a, ls, limits, login, s - {x});
    least := if WindowOf(a, ls, limits, login, x) <= WindowOf(a, ls, limits, login, y) then x else y;
  }

  /** No refusal of the interval was counted in an earlier window. */
  ghost predicate IsFirst(a: Attempts, ls: seq<Login>, limits: Limits, login: LoginName, s: set<nat>, first: nat) {
    && first in s && first < |ls|
    && forall i :: i in s ==> i < |ls| && WindowOf(a, ls, limits, login, first) <= WindowOf(a, ls, limits, login, i)
  }

  lemma HasFirst(a: Attempts, ls: seq<Login>, limits: Limits, login: LoginName, from: int) returns (first: nat)
    requires RefusedDuring(a, ls, limits, login, from, from + limits.window) != {}
    ensures IsFirst(a, ls, limits, login, RefusedDuring(a, ls, limits, login, from, from + limits.window), first)
  {
    first := LeastWindow(a, ls, limits, login, RefusedDuring(a, ls, limits, login, from, from + limits.window));
  }

  lemma FirstWindowAndNext(a: Attempts, ls: seq<Login>, limits: Limits, login: LoginName, from: int, first: nat)
    requires limits.window >= 0 && Trail(a, ls, limits, login) && Placed(a, ls, limits, login)
    requires IsFirst(a, ls, limits, login, RefusedDuring(a, ls, limits, login, from, from + limits.window), first)
    ensures first < |ls|
    ensures var w := WindowOf(a, ls, limits, login, first);
      && w >= 0
      && RefusedDuring(a, ls, limits, login, from, from + limits.window) <=
         RefusedIn(a, ls, limits, login, w) + RefusedIn(a, ls, limits, login, w + 1)
  {
    var s := RefusedDuring(a, ls, limits, login, from, from + limits.window);
    var w := WindowOf(a, ls, limits, login, first);
    forall i | i in s ensures i in RefusedIn(a, ls, limits, login, w) + RefusedIn(a, ls, limits, login, w + 1) {
      InWindowOrNext(a, ls, limits, login, first, i);
    }
    InWindowOrNext(a, ls, limits, login, first, first);
  }

  /** The window was opened by the i-th login. */
  ghost predicate OpenedBy(a: Attempts, ls: seq<Login>, limits: Limits, login: LoginName, k: nat, i: nat) {
    && i in RefusedIn(a, ls, limits, login, k)
    && k < |Ends(a, ls, limits, login)|
    && Ends(a, ls, limits, login)[k] == ls[i].open + limits.window
  }

  lemma {:induction false} Opener(
    a: Attempts, ls: seq<Login>, limits: Limits, login: LoginName, k: nat) returns (i: nat)
    requires k < |Ends(a, ls, limits, login)| && !(k == 0 && login in a)
    ensures OpenedBy(a, ls, limits, login, k, i)
  {
    assert ls != [];
    var n := |ls| - 1;
    if k < |Ends(a, ls[..n], limits, login)| {
      i := Opener(a, ls[..n], limits, login, k);
      Prefixes(a, ls, limits, login, i);
    } else {
      i := n;
      LastPrefix(ls);
    }
  }

  /** An interval that has the refusal which opened a window has none of the next window. */
  lemma OpenerShutsOutNext(a: Attempts, ls: seq<Login>, limits: Limits, login: LoginName, w: nat, opener: nat, i: nat)
    requires OpenedBy(a, ls, limits, login, w, opener) && ls[opener].check <= ls[opener].open
    requires i < |ls| && PlacedAt(a, ls, limits, login, i) && WindowOf(a, ls, limits, login, i) == w + 1
    ensures ls[i].check > ls[opener].check + limits.window
  {
  }

  /**
   * In any stretch of logins without a success on the account, every closed interval of the window's
   * length holds fewer than twice maxAttempts logins that passed the gate and failed.
   */
  lemma FailuresAreBounded(a: Attempts, ls: seq<Login>, limits: Limits, login: LoginName, from: int)
    requires limits.maxAttempts >= 1 && limits.window >= 0
    requires Bounded(a, limits) && Clocked(ls) && NoSuccess(a, ls, limits, login)
    ensures |RefusedDuring(a, ls, limits, login, from, from + limits.window)| <= 2 * limits.maxAttempts - 1
  {
    KeepsTrail(a, ls, limits, login);
    if RefusedDuring(a, ls, limits, login, from, from + limits.window) != {} {
      var w := TwoWindowsCover(a, ls, limits, login, from);
      TwoWindowsHoldFew(a, ls, limits, login, from, w);
    }
  }

  /** The interval's refusals lie in the window w and the next. */
  ghost predicate Covers(a: Attempts, ls: seq<Login>, limits: Limits, login: LoginName, from: int, w: nat) {
    && w < |Ends(a, ls, limits, login)|
    && RefusedDuring(a, ls, limits, login, from, from + limits.window) <=
       RefusedIn(a, ls, limits, login, w) + RefusedIn(a, ls, limits, login, w + 1)
  }

  lemma TwoWindowsCover(a: Attempts, ls: seq<Login>, limits: Limits, login: LoginName, from: int) returns (w: nat)
    requires limits.window >= 0 && Trail(a, ls, limits, login) && Placed(a, ls, limits, login)
    requires RefusedDuring(a, ls, limits, login, from, from + limits.window) != {}
    ensures Covers(a, ls, limits, login, from, w)
  {
    var first := HasFirst(a, ls, limits, login, from);
    FirstWindowAndNext(a, ls, limits, login, from, first);
    WindowIsOpen(a, ls, limits, login, first);
    w := WindowOf(a, ls, limits, login, first);
  }

  lemma TwoWindowsHoldFew(a: Attempts, ls: seq<Login>, limits: Limits, login: LoginName, from: int, w: nat)
    requires limits.maxAttempts >= 1 && Clocked(ls) && (login in a ==> a[login].count >= 1)
    requires Trail(a, ls, limits, login) && Placed(a, ls, limits, login)
    requires Covers(a, ls, limits, login, from, w)
    ensures |RefusedDuring(a, ls, limits, login, from, from + limits.window)| <= 2 * limits.maxAttempts - 1
  {
    BothHoldFew(a, ls, limits, login, w);
    if w == 0 && login in a {
      UnionIsNoLarger(RefusedDuring(a, ls, limits, login, from, from + limits.window),
                      RefusedIn(a, ls, limits, login, w), RefusedIn(a, ls, limits, login, w + 1));
    } else {
      var opener := Opener(a, ls, limits, login, w);
      LessOneOfTwo(a, ls, limits, login, from, w, opener);
    }
  }

  lemma WindowIsOpen(a: Attempts, ls: seq<Login>, limits: Limits, login: LoginName, i: nat)
    requires Placed(a, ls, limits, login) && i < |ls| && RefusedAt(a, ls, limits, login, i)
    ensures 0 <= WindowOf(a, ls, limits, login, i) < |Ends(a, ls, limits, login)|
  {
  }

  lemma LessOneOfTwo(a: Attempts, ls: seq<Login>, limits: Limits, login: LoginName, from: int, w: nat, opener: nat)
    requires limits.maxAttempts >= 1 && Placed(a, ls, limits, login) && Clocked(ls)
    requires OpenedBy(a, ls, limits, login, w, opener) && Covers(a, ls, limits, login, from, w)
    requires |RefusedIn(a, ls, limits, login, w)| <= limits.maxAttempts
    requires |RefusedIn(a, ls, limits, login, w + 1)| <= limits.maxAttempts
    ensures |RefusedDuring(a, ls, limits, login, from, from + limits.window)| <= 2 * limits.maxAttempts - 1
  {
    var s := RefusedDuring(a, ls, limits, login, from, from + limits.window);
    var here, next := RefusedIn(a, ls, limits, login, w), RefusedIn(a, ls, limits, login, w + 1);
    if opener in s {
      forall i | i in s ensures i in here {
        if i in next {
          assert PlacedAt(a, ls, limits, login, i);
          OpenerShutsOutNext(a, ls, limits, login, w, opener, i);
        }
      }
      SubsetIsNoLarger(s, here);
    } else {
      UnionIsNoLarger(s, here - {opener}, next);
    }
  }

  lemma InWindowOrNext(a: Attempts, ls: seq<Login>, limits: Limits, login: LoginName, least: nat, i: nat)
    requires limits.window >= 0 && Trail(a, ls, limits, login) && Placed(a, ls, limits, login)
    requires least < |ls| && RefusedAt(a, ls, limits, login, least)
    requires i < |ls| && RefusedAt(a, ls, limits, login, i)
    requires WindowOf(a, ls, limits, login, least) <= WindowOf(a, ls, limits, login, i)
    requires ls[i].check <= ls[least].check + limits.window
    ensures var w := WindowOf(a, ls, limits, login, least);
      w >= 0 && i in RefusedIn(a, ls, limits, login, w) + RefusedIn(a, ls, limits, login, w + 1)
  {
    assert PlacedAt(a, ls, limits, login, least) && PlacedAt(a, ls, limits, login, i);
    CloseInTimeCloseInWindow(a, ls, limits, login, least, i);
  }

  lemma WindowHoldsFew(a: Attempts, ls: seq<Login>, limits: Limits, login: LoginName, w: nat)
    requires limits.maxAttempts >= 1 && (login in a ==> a[login].count >= 1)
    requires Trail(a, ls, limits, login) && Placed(a, ls, limits, login)
    ensures |RefusedIn(a, ls, limits, login, w)| <= limits.maxAttempts - if w == 0 && login in a then 1 else 0
  {
    if w >= |Ends(a, ls, limits, login)| {
      WindowsBelow(a, ls, limits, login, w);
    } else {
      assert CountsRefused(a, ls, limits, login, w);
    }
  }

  lemma BothHoldFew(a: Attempts, ls: seq<Login>, limits: Limits, login: LoginName, w: nat)
    requires limits.maxAttempts >= 1 && (login in a ==> a[login].count >= 1)
    requires Trail(a, ls, limits, login) && Placed(a, ls, limits, login)
    ensures |RefusedIn(a, ls, limits, login, w)| <= limits.maxAttempts - if w == 0 && login in a then 1 else 0
    ensures |RefusedIn(a, ls, limits, login, w + 1)| <= limits.maxAttempts
  {
    WindowHoldsFew(a, ls, limits, login, w);
    WindowHoldsFew(a, ls, limits, login, w + 1);
  }

  // ---------------------------------------------------------------- the bound is exact

  /**
   * Failures on one account that use up a window, all but the first at its very end, and then use up the
   * next one right after it.
   */
  function BurstLogin(limits: Limits, j: nat): Login {
    var at := if j == 0 then 0 else if j < limits.maxAttempts then limits.window else limits.window + 1;
    Login(0, at, at, at, false)
  }

  function Burst(limits: Limits, n: nat): seq<Login> {
    seq(n, j requires 0 <= j < n => BurstLogin(limits, j))
  }

  lemma {:induction false} BurstIsCounted(limits: Limits, n: nat)
    requires limits.maxAttempts >= 1 && limits.window >= 0 && n <= 2 * limits.maxAttempts
    ensures Run(map[], Burst(limits, n), limits) == BurstCount(limits, n)
  {
    if n > 0 {
      BurstIsCounted(limits, n - 1);
      assert Burst(limits, n)[..n - 1] == Burst(limits, n - 1);
      assert Run(map[], Burst(limits, n), limits) == Step(BurstCount(limits, n - 1), BurstLogin(limits, n - 1), limits);
      BurstStep(limits, n - 1);
    }
  }

  function BurstCount(limits: Limits, n: nat): Attempts {
    if n == 0 then map[]
    else if n <= limits.maxAttempts then map[0 := AttemptEntry(n, limits.window)]
    else map[0 := AttemptEntry(n - limits.maxAttempts, 2 * limits.window + 1)]
  }

  lemma BurstStep(limits: Limits, n: nat)
    requires limits.maxAttempts >= 1 && limits.window >= 0 && n < 2 * limits.maxAttempts
    ensures Step(BurstCount(limits, n), BurstLogin(limits, n), limits) == BurstCount(limits, n + 1)
  {
  }

  lemma BurstIsRefused(limits: Limits, n: nat, i: nat)
    requires limits.maxAttempts >= 1 && limits.window >= 0 && i < n <= 2 * limits.maxAttempts
    ensures RefusedAt(map[], Burst(limits, n), limits, 0, i)
  {
    assert Burst(limits, n)[..i] == Burst(limits, i);
    BurstIsCounted(limits, i);
  }

  /** For every limit and every window there is a stretch that reaches the bound of FailuresAreBounded. */
  lemma BoundIsReached(limits: Limits)
    requires limits.maxAttempts >= 1 && limits.window >= 1
    ensures exists ls: seq<Login> ::
              && Clocked(ls) && NoSuccess(map[], ls, limits, 0)
              && |RefusedDuring(map[], ls, limits, 0, 1, 1 + limits.window)| == 2 * limits.maxAttempts - 1
  {
    var n := 2 * limits.maxAttempts;
    var ls := Burst(limits, n);
    forall i: nat | i < n ensures RefusedAt(map[], ls, limits, 0, i) {
      BurstIsRefused(limits, n, i);
    }
    assert RefusedDuring(map[], ls, limits, 0, 1, 1 + limits.window) == Below(n) - {0};
    assert 0 in Below(n);
    assert Clocked(ls) && NoSuccess(map[], ls, limits, 0);
  }

  // ---------------------------------------------------------------- when the limit is kept

  /** No closed interval of the window's length holds more than maxAttempts failures. */
  ghost predicate LimitIsKept(limits: Limits) {
    forall a, ls, login, from: int :: Bounded(a, limits) && Clocked(ls) && NoSuccess(a, ls, limits, login) ==>
      KeptFrom(a, ls, limits, login, from)
  }

  ghost predicate KeptFrom(a: Attempts, ls: seq<Login>, limits: Limits, login: LoginName, from: int) {
    |RefusedDuring(a, ls, limits, login, from, from + limits.window)| <= limits.maxAttempts
  }

  /** Refusals that are checked at the same moment are counted in the same window. */
  lemma SameMomentSameWindow(a: Attempts, ls: seq<Login>, limits: Limits, login: LoginName, i: nat, j: nat)
    requires limits.window >= 0 && Trail(a, ls, limits, login)
    requires i < |ls| && j < |ls| && PlacedAt(a, ls, limits, login, i) && PlacedAt(a, ls, limits, login, j)
    requires ls[i].check == ls[j].check
    ensures WindowOf(a, ls, limits, login, i) >= WindowOf(a, ls, limits, login, j)
  {
    var v, w := WindowOf(a, ls, limits, login, i), WindowOf(a, ls, limits, login, j);
    if v < w {
      EndsGrow(Ends(a, ls, limits, login), limits.window, v, w - 1);
    }
  }

  lemma {:induction false} MomentIsBounded(a: Attempts, ls: seq<Login>, limits: Limits, login: LoginName, from: int)
    requires limits.maxAttempts >= 1 && limits.window == 0
    requires Bounded(a, limits) && Clocked(ls) && NoSuccess(a, ls, limits, login)
    ensures |RefusedDuring(a, ls, limits, login, from, from)| <= limits.maxAttempts
  {
    KeepsTrail(a, ls, limits, login);
    var s := RefusedDuring(a, ls, limits, login, from, from);
    if i :| i in s {
      var w := WindowOf(a, ls, limits, login, i);
      assert PlacedAt(a, ls, limits, login, i);
      forall j | j in s ensures j in RefusedIn(a, ls, limits, login, w) {
        assert PlacedAt(a, ls, limits, login, j);
        SameMomentSameWindow(a, ls, limits, login, i, j);
        SameMomentSameWindow(a, ls, limits, login, j, i);
      }
      WindowHoldsFew(a, ls, limits, login, w);
      SubsetIsNoLarger(s, RefusedIn(a, ls, limits, login, w));
    }
  }

  /** The limit is kept in every stretch of time exactly when it is one attempt or there is no window. */
  lemma {:induction false} LimitIsKeptExactlyWhen(limits: Limits)
    requires limits.maxAttempts >= 1 && limits.window >= 0
    ensures LimitIsKept(limits) <==> limits.maxAttempts == 1 || limits.window == 0
  {
    if limits.maxAttempts == 1 || limits.window == 0 {
      forall a, ls, login, from: int | Bounded(a, limits) && Clocked(ls) && NoSuccess(a, ls, limits, login)
        ensures KeptFrom(a, ls, limits, login, from)
      {
        if limits.window == 0 {
          MomentIsBounded(a, ls, limits, login, from);
        } else {
          FailuresAreBounded(a, ls, limits, login, from);
        }
      }
    } else {
      BoundIsReached(limits);
      var ls: seq<Login> :| Clocked(ls) && NoSuccess(map[], ls, limits, 0)
                            && |RefusedDuring(map[], ls, limits, 0, 1, 1 + limits.window)| ==
                                 2 * limits.maxAttempts - 1;
      assert Bounded(map[], limits) && !KeptFrom(map[], ls, limits, 0, 1);
    }
  }

  // ---------------------------------------------------------------- when a login is turned away

  ghost function OutcomeAt(ls: seq<Login>, limits: Limits, i: nat): Outcome
    requires i < |ls|
  {
    OutcomeOf(Run(map[], ls[..i], limits), ls[i], limits)
  }

  /**
   * The refused login that opened the window which is the account's last one: the first since its last
   * success, or the first that came after the end of the window before.
   */
  ghost function OpenerOf(ls: seq<Login>, limits: Limits, login: LoginName): (opener: Option<nat>)
    ensures opener.Some? ==> opener.value < |ls|
  {
    if ls == [] then None
    else
      var n := |ls| - 1;
      var before := OpenerOf(ls[..n], limits, login);
      if ls[n].login != login then before
      else
        match OutcomeAt(ls, limits, n)
        case RateLimited => before
        case Succeeded => None
        case Refused =>
          if before.Some? && ls[n].check <= ls[before.value].open + limits.window then before else Some(n)
  }

  /** The logins on the account that were refused from then on. */
  ghost function RefusedFrom(ls: seq<Login>, limits: Limits, login: LoginName, opener: nat): set<nat> {
    set i: nat | opener <= i < |ls| && IsRefusal(ls, limits, login, i)
  }

  ghost predicate IsRefusal(ls: seq<Login>, limits: Limits, login: LoginName, i: nat)
    requires i < |ls|
  {
    ls[i].login == login && OutcomeAt(ls, limits, i) == Refused
  }

  /**
   * Since the last success on the account it has seen maxAttempts refusals or more in a window that is still
   * open by then.
   */
  ghost predicate SeenTooMany(ls: seq<Login>, limits: Limits, login: LoginName, now: int) {
    var opener := OpenerOf(ls, limits, login);
    && opener.Some? && now <= ls[opener.value].open + limits.window
    && |RefusedFrom(ls, limits, login, opener.value)| >= limits.maxAttempts
  }

  /** The stored entry is an account of that history. */
  ghost predicate EntryTellsHistory(ls: seq<Login>, limits: Limits, login: LoginName) {
    var a := Run(map[], ls, limits);
    var opener := OpenerOf(ls, limits, login);
    && (login in a <==> opener.Some?)
    && (opener.Some? ==>
          && a[login].windowEnd == ls[opener.value].open + limits.window
          && a[login].count == |RefusedFrom(ls, limits, login, opener.value)|)
  }

  lemma {:induction false} PrefixRefusals(ls: seq<Login>, limits: Limits, login: LoginName, n: nat, i: nat)
    requires i < n <= |ls|
    ensures IsRefusal(ls[..n], limits, login, i) == IsRefusal(ls, limits, login, i)
  {
    assert ls[..n][..i] == ls[..i];
  }

  lemma {:induction false} RefusedGrows(ls: seq<Login>, limits: Limits, login: LoginName, opener: nat)
    requires ls != []
    ensures var n := |ls| - 1;
      |RefusedFrom(ls, limits, login, opener)| ==
      |RefusedFrom(ls[..n], limits, login, opener)| +
      if opener <= n && IsRefusal(ls, limits, login, n) then 1 else 0
  {
    var n := |ls| - 1;
    forall i: nat | i < n ensures IsRefusal(ls[..n], limits, login, i) == IsRefusal(ls, limits, login, i) {
      PrefixRefusals(ls, limits, login, n, i);
    }
    var before := RefusedFrom(ls[..n], limits, login, opener);
    var added: set<nat> := if opener <= n && IsRefusal(ls, limits, login, n) then {n} else {};
    assert RefusedFrom(ls, limits, login, opener) == before + added;
    assert before !! added;
  }

  lemma {:induction false} HistoryIsTold(ls: seq<Login>, limits: Limits, login: LoginName)
    ensures EntryTellsHistory(ls, limits, login)
  {
    if ls != [] {
      var n := |ls| - 1;
      HistoryIsTold(ls[..n], limits, login);
      var opener := OpenerOf(ls[..n], limits, login);
      if opener.Some? {
        RefusedGrows(ls, limits, login, opener.value);
      }
      RefusedGrows(ls, limits, login, n);
      assert RefusedFrom(ls[..n], limits, login, n) == {};
    }
  }

  /**
   * In any run from the start, with successes and with logins on other accounts in between: a login is
   * turned away if and only if the account has seen maxAttempts refusals, since its last success, in a window
   * that is still open when the gate reads the clock. Any other login is decided by its credentials.
   */
  lemma {:induction false} IsLimitedExactlyWhen(ls: seq<Login>, limits: Limits, i: nat)
    requires i < |ls|
    ensures OutcomeAt(ls, limits, i) == RateLimited <==> SeenTooMany(ls[..i], limits, ls[i].login, ls[i].gate)
    ensures OutcomeAt(ls, limits, i) != RateLimited ==>
              OutcomeAt(ls, limits, i) == if ls[i].passes then Succeeded else Refused
  {
    HistoryIsTold(ls[..i], limits, ls[i].login);
  }

  /** The logins on one account. */
  ghost function Only(ls: seq<Login>, login: LoginName): seq<Login> {
    if ls == [] then []
    else Only(ls[..|ls| - 1], login) + if ls[|ls| - 1].login == login then [ls[|ls| - 1]] else []
  }

  predicate Alike(a: Attempts, b: Attempts, login: LoginName) {
    (login in a <==> login in b) && (login in a ==> a[login] == b[login])
  }

  lemma StepAlike(a: Attempts, b: Attempts, l: Login, limits: Limits, login: LoginName)
    requires Alike(a, b, login)
    ensures l.login == login ==> OutcomeOf(a, l, limits) == OutcomeOf(b, l, limits)
    ensures l.login == login ==> Alike(Step(a, l, limits), Step(b, l, limits), login)
    ensures l.login != login ==> Alike(Step(a, l, limits), b, login)
  {
  }

  /** Logins on other accounts make no difference to an account. */
  lemma {:induction false} OthersMakeNoDifference(ls: seq<Login>, limits: Limits, l: Login)
    ensures Alike(Run(map[], ls, limits), Run(map[], Only(ls, l.login), limits), l.login)
    ensures OutcomeOf(Run(map[], ls, limits), l, limits) == OutcomeOf(Run(map[], Only(ls, l.login), limits), l, limits)
  {
    if ls != [] {
      var n := |ls| - 1;
      var only := Only(ls[..n], l.login);
      OthersMakeNoDifference(ls[..n], limits, l);
      StepAlike(Run(map[], ls[..n], limits), Run(map[], only, limits), ls[n], limits, l.login);
      if ls[n].login == l.login {
        assert (only + [ls[n]])[..|only|] == only;
      } else {
        assert Only(ls, l.login) == only;
      }
    }
    StepAlike(Run(map[], ls, limits), Run(map[], Only(ls, l.login), limits), l, limits, l.login);
  }

  // ---------------------------------------------------------------- the tracker and the service

  class Clock {
    var now: int

    constructor (now: int)
      ensures this.now == now
    {
      this.now := now;
    }

    method Now() returns (t: int)
      modifies this
      ensures t == now >= old(now)
    {
      var elapsed: int := *;
      if elapsed > 0 {
        now := now + elapsed;
      }
      t := now;
    }
  }

  class LoginAttemptTracker {
    const limits: Limits
    const clock: Clock
    var attempts: Attempts

    constructor (limits: Limits, clock: Clock)
      ensures this.limits == limits && this.clock == clock && attempts == map[]
    {
      this.limits, this.clock := limits, clock;
      attempts := map[];
    }

    method Allowed(login: LoginName) returns (allowed: bool)
      modifies clock
      ensures clock.now >= old(clock.now)
      ensures allowed == IsAllowed(attempts, login, clock.now, limits)
      ensures allowed <==>
                || login !in attempts || clock.now > attempts[login].windowEnd
                || attempts[login].count < limits.maxAttempts
    {
      var now := clock.Now();
      if login !in attempts || now > attempts[login].windowEnd {
        return true;
      }
      allowed := attempts[login].count < limits.maxAttempts;
    }

    method Inc(login: LoginName) returns (ghost check: int)
      modifies this, clock
      ensures old(clock.now) <= check <= clock.now
      ensures attempts == Counted(old(attempts), login, check, clock.now, limits)
      ensures login in attempts && attempts == old(attempts)[login := attempts[login]]
      ensures attempts[login] ==
              if login in old(attempts) && check <= old(attempts)[login].windowEnd
              then AttemptEntry(old(attempts)[login].count + 1, old(attempts)[login].windowEnd)
              else AttemptEntry(1, clock.now + limits.window)
    {
      var now := clock.Now();
      check := now;
      var e;
      if login !in attempts || now > attempts[login].windowEnd {
        var start := clock.Now();
        e := AttemptEntry(0, start + limits.window);
      } else {
        e := attempts[login];
      }
      e := e.(count := e.count + 1);
      attempts := attempts[login := e];
    }

    method Reset(login: LoginName)
      modifies this
      ensures attempts == old(attempts) - {login}
    {
      attempts := attempts - {login};
    }
  }

  class AuthService {
    const tracker: LoginAttemptTracker

    constructor (tracker: LoginAttemptTracker)
      ensures this.tracker == tracker
    {
      this.tracker := tracker;
    }

    /**
     * nonceLives, known and verified are what the challenge store, the user repository and the check of
     * the message say. The login is one step of the gate, with clock readings that do not go back.
     */
    method LogIn(login: LoginName, nonceLives: bool, known: bool, verified: bool)
      returns (outcome: Outcome, ghost step: Login)
      modifies tracker, tracker.clock
      ensures step.login == login && step.passes == (nonceLives && known && verified)
      ensures old(tracker.clock.now) <= step.gate <= step.check <= step.open <= tracker.clock.now
      ensures outcome == OutcomeOf(old(tracker.attempts), step, tracker.limits)
      ensures tracker.attempts == Step(old(tracker.attempts), step, tracker.limits)
      ensures outcome == RateLimited <==>
                && login in old(tracker.attempts) && step.gate <= old(tracker.attempts)[login].windowEnd
                && old(tracker.attempts)[login].count >= tracker.limits.maxAttempts
      ensures outcome != RateLimited ==> (outcome == Succeeded <==> nonceLives && known && verified)
      ensures outcome == RateLimited ==> tracker.attempts == old(tracker.attempts)
      ensures outcome == Succeeded ==> tracker.attempts == old(tracker.attempts) - {login}
      ensures outcome == Refused ==>
                && login in tracker.attempts
                && tracker.attempts == old(tracker.attempts)[login := tracker.attempts[login]]
                && tracker.attempts[login] ==
                   if login in old(tracker.attempts) && step.check <= old(tracker.attempts)[login].windowEnd
                   then old(tracker.attempts)[login].(count := old(tracker.attempts)[login].count + 1)
                   else AttemptEntry(1, step.open + tracker.limits.window)
    {
      var allowed := tracker.Allowed(login);
      ghost var gate := tracker.clock.now;
      step := Login(login, gate, gate, gate, nonceLives && known && verified);
      if !allowed {
        return RateLimited, step;
      }
      if !nonceLives || !known || !verified {
        ghost var check := tracker.Inc(login);
        step := Login(login, gate, check, tracker.clock.now, false);
        return Refused, step;
      }
      tracker.Reset(login);
      outcome := Succeeded;
    }
  }
}
