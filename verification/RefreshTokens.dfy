/** Refresh tokens: issue, rotation, and the detection of a token that is used twice. */
module RefreshTokens {
  import opened Domain

  type Token = nat

  type User = nat

  // Hashing is taken to be injective, which a constructor is.
  datatype TokenHash = Sha256(token: Token)

  datatype TokenEntry = TokenEntry(user: User, expiresAt: int, revoked: bool)

  type Tokens = map<TokenHash, TokenEntry>

  datatype Outcome = Rotated(token: Token, user: User) | Unauthorized | NotFound | NoRandomness

  datatype Rotation = Rotation(tokens: Tokens, outcome: Outcome)

  function RevokeUser(tokens: Tokens, user: User): Tokens {
    map h | h in tokens :: if tokens[h].user == user then tokens[h].(revoked := true) else tokens[h]
  }

  /** drawn is what the random source yields, None when the random source fails. */
  function IssueToken(tokens: Tokens, user: User, drawn: Option<Token>, expiresAt: int): Tokens {
    if drawn.None? then tokens
    else tokens[Sha256(drawn.value) := TokenEntry(user, expiresAt, false)]
  }

  function RotateToken(tokens: Tokens, used: Token, drawn: Option<Token>, now: int, expiresAt: int): Rotation {
    var hash := Sha256(used);
    if hash !in tokens then Rotation(tokens, NotFound)
    else if tokens[hash].revoked then Rotation(RevokeUser(tokens, tokens[hash].user), Unauthorized)
    else if now > tokens[hash].expiresAt then Rotation(tokens, Unauthorized)
    else if drawn.None? then Rotation(tokens, NoRandomness)
    else
      var user := tokens[hash].user;
      Rotation(tokens[hash := tokens[hash].(revoked := true)]
                 [Sha256(drawn.value) := TokenEntry(user, expiresAt, false)],
               Rotated(drawn.value, user))
  }

  // ---------------------------------------------------------------- runs

  datatype Op =
    | Issue(user: User, drawn: Option<Token>, expiresAt: int)
    | Rotate(used: Token, drawn: Option<Token>, now: int, expiresAt: int)
    | Revoke(user: User)

  function Step(tokens: Tokens, op: Op): Tokens {
    match op
    case Issue(user, drawn, expiresAt) => IssueToken(tokens, user, drawn, expiresAt)
    case Rotate(used, drawn, now, expiresAt) => RotateToken(tokens, used, drawn, now, expiresAt).tokens
    case Revoke(user) => RevokeUser(tokens, user)
  }

  function Run(tokens: Tokens, ops: seq<Op>): Tokens {
    if ops == [] then tokens else Step(Run(tokens, ops[..|ops| - 1]), ops[|ops| - 1])
  }

  /** A token that is drawn was never drawn before. */
  ghost predicate DrawsFresh(tokens: Tokens, op: Op) {
    match op
    case Issue(_, Some(t), _) => Sha256(t) !in tokens
    case Rotate(_, Some(t), _, _) => Sha256(t) !in tokens
    case _ => true
  }

  ghost predicate FreshRun(tokens: Tokens, ops: seq<Op>) {
    ops != [] ==>
      var n := |ops| - 1;
      FreshRun(tokens, ops[..n]) && DrawsFresh(Run(tokens, ops[..n]), ops[n])
  }

  function LiveTokens(tokens: Tokens, user: User): set<TokenHash> {
    set h | h in tokens && tokens[h].user == user && !tokens[h].revoked
  }

  predicate Known(tokens: Tokens, t: Token) {
    Sha256(t) in tokens
  }

  predicate IsRevoked(tokens: Tokens, t: Token) {
    Sha256(t) in tokens && tokens[Sha256(t)].revoked
  }

  /** How many live tokens the user has after the operation, from how many there were. */
  function Balance(tokens: Tokens, op: Op, user: User, before: nat): nat {
    match op
    case Issue(u, drawn, _) => if u == user && drawn.Some? then before + 1 else before
    case Rotate(used, _, _, _) => if IsRevoked(tokens, used) && tokens[Sha256(used)].user == user then 0 else before
    case Revoke(u) => if u == user then 0 else before
  }

  lemma LiveAfterRevoke(tokens: Tokens, revoked: User, user: User)
    ensures LiveTokens(RevokeUser(tokens, revoked), user) == if revoked == user then {} else LiveTokens(tokens, user)
  {
  }

  lemma LiveAfterIssue(tokens: Tokens, u: User, drawn: Option<Token>, expiresAt: int, user: User)
    requires DrawsFresh(tokens, Issue(u, drawn, expiresAt))
    ensures LiveTokens(IssueToken(tokens, u, drawn, expiresAt), user) ==
            LiveTokens(tokens, user) + if drawn.Some? && u == user then {Sha256(drawn.value)} else {}
  {
  }

  /** A successful rotation takes the old token out and puts the new one in. */
  lemma LiveAfterRotation(tokens: Tokens, used: Token, drawn: Token, user: User, expiresAt: int)
    requires Known(tokens, used) && !IsRevoked(tokens, used) && !Known(tokens, drawn)
    ensures var owner := tokens[Sha256(used)].user;
      var tokens' := tokens[Sha256(used) := tokens[Sha256(used)].(revoked := true)]
                     [Sha256(drawn) := TokenEntry(owner, expiresAt, false)];
      && |LiveTokens(tokens', user)| == |LiveTokens(tokens, user)|
      && LiveTokens(tokens', user) ==
         if owner == user then LiveTokens(tokens, user) - {Sha256(used)} + {Sha256(drawn)} else LiveTokens(tokens, user)
  {
    var owner := tokens[Sha256(used)].user;
    var tokens' := tokens[Sha256(used) := tokens[Sha256(used)].(revoked := true)]
                   [Sha256(drawn) := TokenEntry(owner, expiresAt, false)];
    var live := LiveTokens(tokens, user);
    if owner == user {
      assert LiveTokens(tokens', user) == live - {Sha256(used)} + {Sha256(drawn)};
      assert Sha256(used) in live && Sha256(drawn) !in live;
    } else {
      assert LiveTokens(tokens', user) == live;
    }
  }

  /**
   * One more on a successful issue, none on reuse of a revoked token or on revocation, and no change on
   * any other rotation; nobody else's tokens count.
   */
  lemma StepBalance(tokens: Tokens, op: Op, user: User)
    requires DrawsFresh(tokens, op)
    ensures |LiveTokens(Step(tokens, op), user)| == Balance(tokens, op, user, |LiveTokens(tokens, user)|)
  {
    match op
    case Issue(u, drawn, expiresAt) =>
      LiveAfterIssue(tokens, u, drawn, expiresAt, user);
    case Rotate(used, drawn, now, expiresAt) =>
      if IsRevoked(tokens, used) {
        LiveAfterRevoke(tokens, tokens[Sha256(used)].user, user);
      } else if RotateToken(tokens, used, drawn, now, expiresAt).outcome.Rotated? {
        LiveAfterRotation(tokens, used, drawn.value, user, expiresAt);
      } else {
        assert Step(tokens, op) == tokens;
      }
    case Revoke(u) =>
      LiveAfterRevoke(tokens, u, user);
  }

  /** The balance kept along a run, starting from nothing. */
  function Account(tokens: Tokens, ops: seq<Op>, user: User): nat {
    if ops == [] then |LiveTokens(tokens, user)|
    else
      var n := |ops| - 1;
      Balance(Run(tokens, ops[..n]), ops[n], user, Account(tokens, ops[..n], user))
  }

  /** In every run the user's live tokens are as many as the account says. */
  lemma {:induction false} TokensAreConserved(tokens: Tokens, ops: seq<Op>, user: User)
    requires FreshRun(tokens, ops)
    ensures |LiveTokens(Run(tokens, ops), user)| == Account(tokens, ops, user)
  {
    if ops != [] {
      TokensAreConserved(tokens, ops[..|ops| - 1], user);
      StepBalance(Run(tokens, ops[..|ops| - 1]), ops[|ops| - 1], user);
    }
  }

  // ---------------------------------------------------------------- revocation is permanent

  lemma {:induction false} EntryStays(tokens: Tokens, ops: seq<Op>, t: Token)
    requires FreshRun(tokens, ops) && Known(tokens, t)
    ensures Known(Run(tokens, ops), t) && Run(tokens, ops)[Sha256(t)].user == tokens[Sha256(t)].user
    ensures IsRevoked(tokens, t) ==> IsRevoked(Run(tokens, ops), t)
  {
    if ops != [] {
      EntryStays(tokens, ops[..|ops| - 1], t);
    }
  }

  lemma {:induction false} SplitFreshRun(tokens: Tokens, ops: seq<Op>, k: nat)
    requires FreshRun(tokens, ops) && k <= |ops|
    ensures FreshRun(tokens, ops[..k]) && FreshRun(Run(tokens, ops[..k]), ops[k..])
    ensures Run(Run(tokens, ops[..k]), ops[k..]) == Run(tokens, ops)
  {
    if k == |ops| {
      assert ops[..k] == ops && ops[k..] == [];
    } else {
      var last := |ops| - 1;
      SplitFreshRun(tokens, ops[..last], k);
      assert ops[..last][..k] == ops[..k];
      assert ops[k..][..|ops[k..]| - 1] == ops[..last][k..];
    }
  }

  /** The k-th operation of the run is a rotation of t that succeeds. */
  ghost predicate RotatesAt(tokens: Tokens, ops: seq<Op>, k: nat, t: Token) {
    && k < |ops| && ops[k].Rotate? && ops[k].used == t
    && RotateToken(Run(tokens, ops[..k]), t, ops[k].drawn, ops[k].now, ops[k].expiresAt).outcome.Rotated?
  }

  lemma RunNext(tokens: Tokens, ops: seq<Op>, k: nat)
    requires k < |ops|
    ensures Run(tokens, ops[..k + 1]) == Step(Run(tokens, ops[..k]), ops[k])
  {
    assert ops[..k + 1][..k] == ops[..k];
  }

  /** What is revoked after k operations is revoked after any later number of them. */
  lemma RevokedFrom(tokens: Tokens, ops: seq<Op>, k: nat, m: nat, t: Token)
    requires FreshRun(tokens, ops) && k <= m <= |ops| && IsRevoked(Run(tokens, ops[..k]), t)
    ensures IsRevoked(Run(tokens, ops[..m]), t)
  {
    SplitFreshRun(tokens, ops, m);
    SplitFreshRun(tokens, ops[..m], k);
    assert ops[..m][..k] == ops[..k];
    EntryStays(Run(tokens, ops[..k]), ops[..m][k..], t);
  }

  /** No token is rotated successfully twice in a run. */
  lemma RotatesAtMostOnce(tokens: Tokens, ops: seq<Op>, k: nat, m: nat, t: Token)
    requires FreshRun(tokens, ops) && RotatesAt(tokens, ops, k, t) && RotatesAt(tokens, ops, m, t)
    ensures k == m
  {
    if k < m {
      RotationRevokes(tokens, ops, k, t);
      RevokedFrom(tokens, ops, k + 1, m, t);
    } else if m < k {
      RotationRevokes(tokens, ops, m, t);
      RevokedFrom(tokens, ops, m + 1, k, t);
    }
  }

  lemma RotationRevokes(tokens: Tokens, ops: seq<Op>, k: nat, t: Token)
    requires FreshRun(tokens, ops) && RotatesAt(tokens, ops, k, t)
    ensures IsRevoked(Run(tokens, ops[..k + 1]), t)
  {
    RunNext(tokens, ops, k);
    SplitFreshRun(tokens, ops, k + 1);
    assert ops[..k + 1][..k] == ops[..k];
  }

  /** After a revoked token was used, no token its user had by then rotates again, whatever follows. */
  lemma ReuseEndsTheFamily(tokens: Tokens, ops: seq<Op>, k: nat, m: nat, reused: Token, t: Token)
    requires FreshRun(tokens, ops) && k < m < |ops|
    requires ops[k].Rotate? && ops[k].used == reused && IsRevoked(Run(tokens, ops[..k]), reused)
    requires Known(Run(tokens, ops[..k]), t)
    requires Run(tokens, ops[..k])[Sha256(t)].user == Run(tokens, ops[..k])[Sha256(reused)].user
    ensures !RotatesAt(tokens, ops, m, t)
  {
    RunNext(tokens, ops, k);
    RevokedFrom(tokens, ops, k + 1, m, t);
  }

  // ---------------------------------------------------------------- when a token rotates

  /** The i-th operation of the run put the token t into the store, for the user and until the time. */
  ghost predicate IssuedAt(tokens: Tokens, ops: seq<Op>, i: nat, t: Token, user: User, until: int) {
    i < |ops| &&
    match ops[i]
    case Issue(u, drawn, expiresAt) => drawn == Some(t) && u == user && expiresAt == until
    case Rotate(used, drawn, now, expiresAt) =>
      RotateToken(Run(tokens, ops[..i]), used, drawn, now, expiresAt).outcome == Rotated(t, user) && expiresAt == until
    case Revoke(_) => false
  }

  /** The operation takes the token out of use: by rotating it, or with all tokens of its user. */
  ghost predicate TakesOut(tokens: Tokens, op: Op, t: Token, user: User) {
    match op
    case Issue(_, _, _) => false
    case Rotate(used, drawn, now, expiresAt) =>
      || (used == t && RotateToken(tokens, used, drawn, now, expiresAt).outcome.Rotated?)
      || (IsRevoked(tokens, used) && tokens[Sha256(used)].user == user)
    case Revoke(u) => u == user
  }

  lemma StepEntry(tokens: Tokens, op: Op, t: Token)
    requires DrawsFresh(tokens, op) && Known(tokens, t)
    ensures var before, next := tokens[Sha256(t)], Step(tokens, op);
      Known(next, t) &&
      next[Sha256(t)] == before.(revoked := before.revoked || TakesOut(tokens, op, t, before.user))
  {
  }

  /** An operation after the i-th and before the k-th took the token out of use. */
  ghost predicate TakenOut(tokens: Tokens, ops: seq<Op>, i: nat, k: nat, t: Token, user: User)
    requires k <= |ops|
  {
    exists m :: i < m < k && TakesOut(Run(tokens, ops[..m]), ops[m], t, user)
  }

  lemma TakenOutNext(tokens: Tokens, ops: seq<Op>, i: nat, k: nat, t: Token, user: User)
    requires i < k < |ops|
    ensures TakenOut(tokens, ops, i, k + 1, t, user) <==>
            TakenOut(tokens, ops, i, k, t, user) || TakesOut(Run(tokens, ops[..k]), ops[k], t, user)
  {
  }

  lemma JustIssued(tokens: Tokens, ops: seq<Op>, i: nat, t: Token, user: User, until: int)
    requires IssuedAt(tokens, ops, i, t, user, until)
    ensures Known(Run(tokens, ops[..i + 1]), t)
    ensures Run(tokens, ops[..i + 1])[Sha256(t)] == TokenEntry(user, until, false)
  {
    RunNext(tokens, ops, i);
  }

  /** The entry of a token since its issue: unchanged, but revoked once an operation took it out of use. */
  lemma {:induction false} EntrySinceIssue(
    tokens: Tokens, ops: seq<Op>, i: nat, k: nat, t: Token, user: User, until: int)
    requires FreshRun(tokens, ops) && IssuedAt(tokens, ops, i, t, user, until) && i < k <= |ops|
    ensures Known(Run(tokens, ops[..k]), t)
    ensures Run(tokens, ops[..k])[Sha256(t)] == TokenEntry(user, until, TakenOut(tokens, ops, i, k, t, user))
    decreases k
  {
    if k == i + 1 {
      JustIssued(tokens, ops, i, t, user, until);
    } else {
      EntrySinceIssue(tokens, ops, i, k - 1, t, user, until);
      DrawsFreshAt(tokens, ops, k - 1);
      StepEntry(Run(tokens, ops[..k - 1]), ops[k - 1], t);
      RunNext(tokens, ops, k - 1);
      TakenOutNext(tokens, ops, i, k - 1, t, user);
    }
  }

  lemma DrawsFreshAt(tokens: Tokens, ops: seq<Op>, k: nat)
    requires FreshRun(tokens, ops) && k < |ops|
    ensures DrawsFresh(Run(tokens, ops[..k]), ops[k])
  {
    SplitFreshRun(tokens, ops, k + 1);
    assert ops[..k + 1][..k] == ops[..k];
  }

  /**
   * The whole life of a token: a rotation of it succeeds if and only if the time is not past its expiry,
   * the random source yields, and nothing since its issue rotated it, revoked its user or was a reuse of
   * a revoked token of its user.
   */
  lemma RotatesExactlyWhen(tokens: Tokens, ops: seq<Op>, i: nat, k: nat, t: Token, user: User, until: int)
    requires FreshRun(tokens, ops) && IssuedAt(tokens, ops, i, t, user, until)
    requires i < k < |ops| && ops[k].Rotate? && ops[k].used == t
    ensures RotatesAt(tokens, ops, k, t) <==>
            ops[k].now <= until && ops[k].drawn.Some? && !TakenOut(tokens, ops, i, k, t, user)
  {
    EntrySinceIssue(tokens, ops, i, k, t, user, until);
  }

  // ---------------------------------------------------------------- the store and the service

  /** The user's tokens are revoked, and nothing else has changed. */
  ghost predicate AllRevoked(before: Tokens, after: Tokens, user: User) {
    && after.Keys == before.Keys
    && (forall h :: h in before && before[h].user == user ==>
          after[h].revoked && after[h].user == user && after[h].expiresAt == before[h].expiresAt)
    && (forall h :: h in before && before[h].user != user ==> after[h] == before[h])
  }

  class RefreshTokenStore {
    var tokens: Tokens

    constructor ()
      ensures tokens == map[]
    {
      tokens := map[];
    }

    method Save(user: User, hash: TokenHash, expiresAt: int)
      modifies this
      ensures tokens == old(tokens)[hash := TokenEntry(user, expiresAt, false)]
    {
      tokens := tokens[hash := TokenEntry(user, expiresAt, false)];
    }

    method Get(hash: TokenHash) returns (entry: Option<TokenEntry>)
      ensures entry == if hash in tokens then Some(tokens[hash]) else None
    {
      entry := if hash in tokens then Some(tokens[hash]) else None;
    }

    method Rotate(oldHash: TokenHash, newHash: TokenHash, user: User, expiresAt: int) returns (found: bool)
      modifies this
      ensures found <==> oldHash in old(tokens)
      ensures tokens ==
              if found
              then old(tokens)[oldHash := old(tokens)[oldHash].(revoked := true)]
                   [newHash := TokenEntry(user, expiresAt, false)]
              else old(tokens)
    {
      if oldHash !in tokens {
        return false;
      }
      tokens := tokens[oldHash := tokens[oldHash].(revoked := true)];
      tokens := tokens[newHash := TokenEntry(user, expiresAt, false)];
      found := true;
    }

    method RevokeAll(user: User)
      modifies this
      ensures tokens == RevokeUser(old(tokens), user)
      ensures AllRevoked(old(tokens), tokens, user)
    {
      var rest := tokens.Keys;
      while rest != {}
        invariant rest <= tokens.Keys == old(tokens).Keys
        invariant forall h :: h in tokens ==>
                    tokens[h] == if h in rest then old(tokens)[h] else RevokeUser(old(tokens), user)[h]
        decreases rest
      {
        var h :| h in rest;
        rest := rest - {h};
        if tokens[h].user == user {
          tokens := tokens[h := tokens[h].(revoked := true)];
        }
      }
    }
  }

  class RefreshTokenService {
    const store: RefreshTokenStore
    const ttl: int

    constructor (store: RefreshTokenStore, ttl: int)
      ensures this.store == store && this.ttl == ttl
    {
      this.store, this.ttl := store, ttl;
    }

    /** raw is what the random source yields, None when it fails; now is the clock at the save. */
    method Issue(user: User, raw: Option<Token>, now: int) returns (token: Option<Token>)
      modifies store
      ensures token == raw
      ensures store.tokens == IssueToken(old(store.tokens), user, raw, now + ttl)
      ensures raw.None? ==> store.tokens == old(store.tokens)
      ensures raw.Some? ==> store.tokens == old(store.tokens)[Sha256(raw.value) := TokenEntry(user, now + ttl, false)]
    {
      if raw.None? {
        return None;
      }
      store.Save(user, Sha256(raw.value), now + ttl);
      token := raw;
    }

    method Rotate(used: Token, raw: Option<Token>, now: int, later: int) returns (outcome: Outcome)
      modifies store
      ensures var r := RotateToken(old(store.tokens), used, raw, now, later + ttl);
        store.tokens == r.tokens && outcome == r.outcome
      ensures outcome == NotFound <==> Sha256(used) !in old(store.tokens)
      ensures outcome == Unauthorized <==>
                Sha256(used) in old(store.tokens) &&
                (old(store.tokens)[Sha256(used)].revoked || now > old(store.tokens)[Sha256(used)].expiresAt)
      ensures outcome.NoRandomness? ==> raw.None?
      ensures outcome.Rotated? ==>
                && raw.Some? && outcome.token == raw.value && outcome.user == old(store.tokens)[Sha256(used)].user
                && Sha256(outcome.token) in store.tokens
                && store.tokens[Sha256(outcome.token)] == TokenEntry(outcome.user, later + ttl, false)
                && (outcome.token != used ==> store.tokens[Sha256(used)].revoked)
      ensures Sha256(used) in old(store.tokens) && old(store.tokens)[Sha256(used)].revoked ==>
                AllRevoked(old(store.tokens), store.tokens, old(store.tokens)[Sha256(used)].user)
      ensures !outcome.Rotated? && !(Sha256(used) in old(store.tokens) && old(store.tokens)[Sha256(used)].revoked) ==>
                store.tokens == old(store.tokens)
    {
      var hash := Sha256(used);
      var entry := store.Get(hash);
      if entry.None? {
        return NotFound;
      }
      if entry.value.revoked {
        store.RevokeAll(entry.value.user);
        return Unauthorized;
      }
      if now > entry.value.expiresAt {
        return Unauthorized;
      }
      if raw.None? {
        return NoRandomness;
      }
      var _ := store.Rotate(hash, Sha256(raw.value), entry.value.user, later + ttl);
      outcome := Rotated(raw.value, entry.value.user);
    }

    method Revoke(user: User)
      modifies store
      ensures store.tokens == RevokeUser(old(store.tokens), user)
      ensures AllRevoked(old(store.tokens), store.tokens, user)
    {
      store.RevokeAll(user);
    }
  }
}
