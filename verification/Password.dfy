/**
 * The password generator: a random permutation of the positions, filled class by class. The random stream
 * is a list of draws; each bounded random number takes the next one.
 */
module Password {
  import opened Domain
  import opened Sets

  const LOWER := "abcdefghijklmnopqrstuvwxyz"
  const UPPER := "ABCDEFGHIJKLMNOPQRSTUVWXYZ"
  const DIGITS := "0123456789"
  const SYMBOLS := "!@#$%^&*()-_=+[]{}|;:,.<>?"

  datatype GenerateOptions = GenerateOptions(length: int, noSymbols: bool, noDigits: bool, noUpper: bool)

  function EffectiveLength(opts: GenerateOptions): nat {
    if opts.length < 8 then 8 else opts.length
  }

  function Classes(opts: GenerateOptions): (classes: seq<string>)
    ensures 1 <= |classes| <= 4 && forall i :: 0 <= i < |classes| ==> |classes[i]| > 0
  {
    [LOWER]
    + (if opts.noUpper then [] else [UPPER])
    + (if opts.noDigits then [] else [DIGITS])
    + (if opts.noSymbols then [] else [SYMBOLS])
  }

  function Alphabet(classes: seq<string>): string {
    if classes == [] then "" else Alphabet(classes[..|classes| - 1]) + classes[|classes| - 1]
  }

  lemma {:induction false} ClassInAlphabet(classes: seq<string>, i: nat, c: char)
    requires i < |classes| && c in classes[i]
    ensures c in Alphabet(classes)
  {
    if i < |classes| - 1 {
      ClassInAlphabet(classes[..|classes| - 1], i, c);
    }
  }

  /** Each of 0, ..., |p| - 1 occurs in p exactly once. */
  ghost predicate IsPermutation(p: seq<nat>) {
    && (forall i :: 0 <= i < |p| ==> p[i] < |p|)
    && (forall i, j :: 0 <= i < j < |p| ==> p[i] != p[j])
  }

  ghost function ValuesOf(p: seq<nat>): (s: set<nat>)
    requires forall i, j :: 0 <= i < j < |p| ==> p[i] != p[j]
    ensures |s| == |p| && forall v :: v in s <==> v in p
  {
    if p == [] then {}
    else
      var n := |p| - 1;
      assert p == p[..n] + [p[n]];
      assert p[n] !in p[..n];
      ValuesOf(p[..n]) + {p[n]}
  }

  /** Distinct values below n, n of them: every value occurs. */
  lemma PermutationHits(p: seq<nat>, v: nat)
    requires IsPermutation(p) && v < |p|
    ensures v in p
  {
    if v !in p {
      SubsetIsNoLarger(ValuesOf(p), Below(|p|) - {v});
    }
  }

  // ---------------------------------------------------------------- the shuffle

  function Identity(n: nat): seq<nat> {
    seq(n, i => i)
  }

  function Swap(p: seq<nat>, i: nat, j: nat): (q: seq<nat>)
    requires i < |p| && j < |p|
    ensures |q| == |p| && q[i] == p[j] && q[j] == p[i]
    ensures forall k :: 0 <= k < |p| && k != i && k != j ==> q[k] == p[k]
  {
    p[i := p[j]][j := p[i]]
  }

  /** Fisher and Yates' shuffle of the positions 0, ..., i, with one draw for each but the first. */
  function Shuffle(p: seq<nat>, i: nat, draws: seq<nat>): (q: seq<nat>)
    requires (i < |p| || i == 0) && |draws| >= i
    ensures |q| == |p|
    ensures forall k :: i < k < |p| ==> q[k] == p[k]
    decreases i
  {
    if i == 0 then p else Shuffle(Swap(p, i, draws[0] % (i + 1)), i - 1, draws[1..])
  }

  lemma {:induction false} ShuffleKeepsPermutation(p: seq<nat>, i: nat, draws: seq<nat>)
    requires (i < |p| || i == 0) && |draws| >= i && IsPermutation(p)
    ensures IsPermutation(Shuffle(p, i, draws))
    decreases i
  {
    if i > 0 {
      ShuffleKeepsPermutation(Swap(p, i, draws[0] % (i + 1)), i - 1, draws[1..]);
    }
  }

  ghost predicate Distinct(p: seq<nat>) {
    forall i, j :: 0 <= i < j < |p| ==> p[i] != p[j]
  }

  /** Draws that are used as they are: the k-th is one of i + 1 - k. */
  ghost predicate InRange(draws: seq<nat>, i: nat) {
    |draws| == i && forall k :: 0 <= k < i ==> draws[k] < i + 1 - k
  }

  lemma SmallRemainder(j: nat, n: nat)
    requires j < n
    ensures j % n == j
  {
  }

  /** A shuffle with a draw in range begins by swapping the drawn position to the end. */
  lemma ShuffleInRange(p: seq<nat>, i: nat, draws: seq<nat>)
    requires 0 < i < |p| && InRange(draws, i)
    ensures Shuffle(p, i, draws) == Shuffle(Swap(p, i, draws[0]), i - 1, draws[1..])
    ensures InRange(draws[1..], i - 1)
    ensures Shuffle(p, i, draws)[i] == p[draws[0]]
  {
    SmallRemainder(draws[0], i + 1);
  }

  ghost predicate Among(p: seq<nat>, i: nat, v: nat)
    requires i < |p|
  {
    exists m :: 0 <= m <= i && p[m] == v
  }

  lemma AmongAfterSwap(p: seq<nat>, i: nat, j: nat, v: nat)
    requires 0 < i < |p| && j <= i && Among(p, i, v) && v != p[j]
    ensures Among(Swap(p, i, j), i - 1, v)
  {
  }

  lemma OneMoreInRange(j: nat, rest: seq<nat>, i: nat)
    requires i > 0 && j <= i && InRange(rest, i - 1)
    ensures InRange([j] + rest, i) && ([j] + rest)[1..] == rest
  {
    forall k | 0 <= k < i ensures ([j] + rest)[k] < i + 1 - k {
      if k > 0 { assert ([j] + rest)[k] == rest[k - 1]; }
    }
  }

  /** Every arrangement of the first positions comes from some draws. */
  lemma {:induction false} EveryOrderArises(p: seq<nat>, q: seq<nat>, i: nat) returns (draws: seq<nat>)
    requires i < |p| == |q| && Distinct(q)
    requires forall k :: i < k < |p| ==> q[k] == p[k]
    requires forall k :: 0 <= k <= i ==> Among(p, i, q[k])
    ensures InRange(draws, i) && Shuffle(p, i, draws) == q
    decreases i
  {
    if i == 0 {
      assert Among(p, 0, q[0]);
      draws := [];
      assert p == q;
    } else {
      assert Among(p, i, q[i]);
      var j: nat :| j <= i && p[j] == q[i];
      forall k | 0 <= k <= i - 1 ensures Among(Swap(p, i, j), i - 1, q[k]) {
        AmongAfterSwap(p, i, j, q[k]);
      }
      var rest := EveryOrderArises(Swap(p, i, j), q, i - 1);
      draws := [j] + rest;
      OneMoreInRange(j, rest, i);
      ShuffleInRange(p, i, draws);
    }
  }

  /** And from no others. */
  lemma {:induction false} NoOrderArisesTwice(p: seq<nat>, i: nat, draws: seq<nat>, draws': seq<nat>)
    requires i < |p| && Distinct(p) && InRange(draws, i) && InRange(draws', i)
    requires Shuffle(p, i, draws) == Shuffle(p, i, draws')
    ensures draws == draws'
    decreases i
  {
    if i > 0 {
      ShuffleInRange(p, i, draws);
      ShuffleInRange(p, i, draws');
      SwapKeepsDistinct(p, i, draws[0]);
      NoOrderArisesTwice(Swap(p, i, draws[0]), i - 1, draws[1..], draws'[1..]);
      assert draws == [draws[0]] + draws[1..] && draws' == [draws'[0]] + draws'[1..];
    }
  }

  lemma SwapKeepsDistinct(p: seq<nat>, i: nat, j: nat)
    requires i < |p| && j < |p| && Distinct(p)
    ensures Distinct(Swap(p, i, j))
  {
  }

  /** The draws are in range, and shuffle 0, ..., n - 1 into q. */
  ghost predicate Yields(n: nat, draws: seq<nat>, q: seq<nat>)
    requires n > 0
  {
    InRange(draws, n - 1) && Shuffle(Identity(n), n - 1, draws) == q
  }

  /**
   * The shuffle is fair: each permutation of 0, ..., n - 1 comes from exactly one sequence of draws in range,
   * so that equally likely draws make all permutations equally likely.
   */
  lemma {:induction false} EachPermutationOnce(n: nat, q: seq<nat>)
    requires n > 0 && |q| == n && IsPermutation(q)
    ensures exists draws :: Yields(n, draws, q)
    ensures forall draws, draws' :: Yields(n, draws, q) && Yields(n, draws', q) ==> draws == draws'
  {
    var draws := SomeDrawsYield(n, q);
    forall draws, draws' | Yields(n, draws, q) && Yields(n, draws', q) ensures draws == draws' {
      NoOrderArisesTwice(Identity(n), n - 1, draws, draws');
    }
  }

  lemma {:induction false} SomeDrawsYield(n: nat, q: seq<nat>) returns (draws: seq<nat>)
    requires n > 0 && |q| == n && IsPermutation(q)
    ensures Yields(n, draws, q)
  {
    var p := Identity(n);
    forall k | 0 <= k <= n - 1 ensures Among(p, n - 1, q[k]) {
      assert p[q[k]] == q[k];
    }
    draws := EveryOrderArises(p, q, n - 1);
  }

  // ---------------------------------------------------------------- the generator

  /** The random stream, as the list of what is still to be drawn; it fails at its end. */
  class RandomSource {
    var draws: seq<nat>

    constructor (draws: seq<nat>)
      ensures this.draws == draws
    {
      this.draws := draws;
    }

    /** rand.Int: a number below n. */
    method Int(n: nat) returns (r: Option<nat>)
      requires n > 0
      modifies this
      ensures old(draws) == [] ==> r == None && draws == []
      ensures old(draws) != [] ==> r == Some(old(draws)[0] % n) && draws == old(draws)[1..]
    {
      if draws == [] {
        return None;
      }
      r := Some(draws[0] % n);
      draws := draws[1..];
    }
  }

  method RandomChar(source: RandomSource, chars: string) returns (c: Option<char>)
    requires |chars| > 0
    modifies source
    ensures old(source.draws) == [] ==> c == None && source.draws == []
    ensures old(source.draws) != [] ==>
              c == Some(chars[old(source.draws)[0] % |chars|]) && source.draws == old(source.draws)[1..]
  {
    var idx := source.Int(|chars|);
    c := if idx.None? then None else Some(chars[idx.value]);
  }

  /** The number of draws that a permutation of n positions takes. */
  function ShuffleDraws(n: nat): nat {
    if n == 0 then 0 else n - 1
  }

  /** One step of the shuffle: what is left to shuffle, with what is left of the draws, gives the same. */
  lemma ShuffleStep(p: seq<nat>, i: nat, draws: seq<nat>, target: seq<nat>)
    requires 0 < i < |p| && draws != []
    requires |draws| >= i ==> Shuffle(p, i, draws) == target
    ensures |draws[1..]| >= i - 1 ==> Shuffle(Swap(p, i, draws[0] % (i + 1)), i - 1, draws[1..]) == target
  {
  }

  lemma DrawsLeft(all: seq<nat>, k: nat)
    requires k < |all|
    ensures all[k..][1..] == all[k + 1..]
  {
  }

  method ShuffleInPlace(source: RandomSource, a: array<nat>) returns (ok: bool)
    requires a.Length > 0
    modifies source, a
    ensures ok <==> |old(source.draws)| >= a.Length - 1
    ensures ok ==> source.draws == old(source.draws)[a.Length - 1..]
    ensures ok ==> a[..] == Shuffle(old(a[..]), a.Length - 1, old(source.draws))
  {
    ghost var all, last := source.draws, a.Length - 1;
    ghost var target := if |all| >= last then Shuffle(a[..], last, all) else [];
    assert all[0..] == all;
    var i := a.Length - 1;
    while i > 0
      invariant 0 <= i <= last
      invariant |all| >= last - i && source.draws == all[last - i..]
      invariant |source.draws| >= i ==> Shuffle(a[..], i, source.draws) == target
    {
      ghost var before, stream := a[..], source.draws;
      var j := source.Int(i + 1);
      if j.None? {
        return false;
      }
      assert source.draws == all[last - (i - 1)..] by { DrawsLeft(all, last - i); }
      ShuffleStep(before, i, stream, target);
      a[i], a[j.value] := a[j.value], a[i];
      assert a[..] == Swap(before, i, j.value);
      i := i - 1;
    }
    ok := true;
  }

  method RandomPermutation(source: RandomSource, n: nat) returns (perm: Option<array<nat>>)
    modifies source
    ensures perm.Some? <==> |old(source.draws)| >= ShuffleDraws(n)
    ensures perm.Some? ==> fresh(perm.value) && source.draws == old(source.draws)[ShuffleDraws(n)..]
    ensures perm.Some? ==>
              && perm.value.Length == n && IsPermutation(perm.value[..])
              && perm.value[..] == Shuffle(Identity(n), ShuffleDraws(n), old(source.draws))
  {
    var a := new nat[n];
    for i := 0 to n
      invariant forall k :: 0 <= k < i ==> a[k] == k
      invariant source.draws == old(source.draws)
    {
      a[i] := i;
    }
    assert a[..] == Identity(n);
    if n > 0 {
      var ok := ShuffleInPlace(source, a);
      if !ok {
        return None;
      }
    }
    ShuffleKeepsPermutation(Identity(n), ShuffleDraws(n), old(source.draws));
    perm := Some(a);
  }

  /**
   * The characters of the password stand at the positions: one of each class in turn, then any of the
   * alphabet, each chosen by its own draw.
   */
  ghost predicate FilledUpTo(result: seq<char>, positions: seq<nat>, classes: seq<string>, draws: seq<nat>, n: nat)
    requires n <= |positions| == |result| && n <= |draws| && IsPermutation(positions)
    requires |Alphabet(classes)| > 0 && forall i :: 0 <= i < |classes| ==> |classes[i]| > 0
  {
    forall i :: 0 <= i < n ==>
      var pool := if i < |classes| then classes[i] else Alphabet(classes);
      result[positions[i]] == pool[draws[i] % |pool|]
  }

  /** All characters are from the alphabet, and every class occurs. */
  ghost predicate IsStrong(password: string, classes: seq<string>) {
    && (forall c :: c in password ==> c in Alphabet(classes))
    && (forall k :: 0 <= k < |classes| ==> exists c :: c in password && c in classes[k])
  }

  lemma {:induction false} FilledIsStrong(result: seq<char>, positions: seq<nat>, classes: seq<string>, draws: seq<nat>)
    requires |draws| >= |positions| == |result| >= |classes| && IsPermutation(positions)
    requires |Alphabet(classes)| > 0 && forall i :: 0 <= i < |classes| ==> |classes[i]| > 0
    requires FilledUpTo(result, positions, classes, draws, |result|)
    ensures IsStrong(result, classes)
  {
    forall c | c in result ensures c in Alphabet(classes) {
      var v :| 0 <= v < |result| && result[v] == c;
      PermutationHits(positions, v);
      var i :| 0 <= i < |positions| && positions[i] == v;
      if i < |classes| {
        ClassInAlphabet(classes, i, c);
      }
    }
    forall k | 0 <= k < |classes| ensures exists c :: c in result && c in classes[k] {
      assert result[positions[k]] in result && result[positions[k]] in classes[k];
    }
  }

  method CollectClasses(opts: GenerateOptions) returns (required: seq<string>, pool: string)
    ensures required == Classes(opts) && pool == Alphabet(required) && |pool| > 0
  {
    required := [LOWER];
    pool := LOWER;
    if !opts.noUpper {
      pool := pool + UPPER;
      required := required + [UPPER];
    }
    if !opts.noDigits {
      pool := pool + DIGITS;
      required := required + [DIGITS];
    }
    if !opts.noSymbols {
      pool := pool + SYMBOLS;
      required := required + [SYMBOLS];
    }
    PoolIsAlphabet(opts, required, pool);
  }

  /** Writes each position once: one character of every class first, then any. It takes a draw for each. */
  method Fill(source: RandomSource, result: array<char>, perm: array<nat>, required: seq<string>, pool: string)
    returns (ok: bool)
    requires result.Length == perm.Length >= |required| && IsPermutation(perm[..])
    requires pool == Alphabet(required) && |pool| > 0 && forall i :: 0 <= i < |required| ==> |required[i]| > 0
    modifies source, result
    ensures ok <==> |old(source.draws)| >= perm.Length
    ensures ok ==> source.draws == old(source.draws)[perm.Length..]
    ensures ok ==> FilledUpTo(result[..], old(perm[..]), required, old(source.draws), perm.Length)
  {
    ghost var positions, stream := perm[..], source.draws;
    for i := 0 to |required|
      invariant i <= |stream| && source.draws == stream[i..]
      invariant FilledUpTo(result[..], positions, required, stream, i)
    {
      var c := RandomChar(source, required[i]);
      if c.None? {
        return false;
      }
      result[perm[i]] := c.value;
    }
    for i := |required| to perm.Length
      invariant i <= |stream| && source.draws == stream[i..]
      invariant FilledUpTo(result[..], positions, required, stream, i)
    {
      var idx := source.Int(|pool|);
      if idx.None? {
        return false;
      }
      result[perm[i]] := pool[idx.value];
    }
    ok := true;
  }

  /** The password that the draws make: the first shuffle the positions, the next fill one each. */
  ghost predicate IsMade(password: string, n: nat, classes: seq<string>, draws: seq<nat>)
    requires n > 0 && |Alphabet(classes)| > 0 && forall i :: 0 <= i < |classes| ==> |classes[i]| > 0
  {
    && |draws| >= 2 * n - 1 && |password| == n
    && var positions := Shuffle(Identity(n), n - 1, draws);
    && IsPermutation(positions)
    && FilledUpTo(password, positions, classes, draws[n - 1..], n)
  }

  ghost predicate HasOneOf(password: string, chars: string) {
    exists c :: c in password && c in chars
  }

  ghost predicate HasNoneOf(password: string, chars: string) {
    forall c :: c in password ==> c !in chars
  }

  lemma {:induction false} AlphabetIsOfClasses(classes: seq<string>, c: char)
    requires c in Alphabet(classes)
    ensures exists k :: 0 <= k < |classes| && c in classes[k]
  {
    var n := |classes| - 1;
    if c !in classes[n] {
      AlphabetIsOfClasses(classes[..n], c);
      var k :| 0 <= k < n && c in classes[..n][k];
      assert c in classes[k];
    }
  }

  lemma LowerIs(c: char)
    requires c in LOWER
    ensures 'a' <= c <= 'z'
  {
  }

  lemma UpperIs(c: char)
    requires c in UPPER
    ensures 'A' <= c <= 'Z'
  {
  }

  lemma DigitIs(c: char)
    requires c in DIGITS
    ensures '0' <= c <= '9'
  {
  }

  lemma SymbolIs(c: char)
    requires c in SYMBOLS
    ensures !('a' <= c <= 'z') && !('A' <= c <= 'Z') && !('0' <= c <= '9')
  {
  }

  /** No character is in two classes. */
  lemma ClassesAreApart(c: char)
    ensures c in LOWER ==> c !in UPPER && c !in DIGITS && c !in SYMBOLS
    ensures c in UPPER ==> c !in DIGITS && c !in SYMBOLS
    ensures c in DIGITS ==> c !in SYMBOLS
  {
    if c in LOWER { LowerIs(c); }
    if c in UPPER { UpperIs(c); }
    if c in DIGITS { DigitIs(c); }
    if c in SYMBOLS { SymbolIs(c); }
  }

  /** Which classes the options enable. */
  lemma EnabledClasses(opts: GenerateOptions)
    ensures var classes := Classes(opts);
      && LOWER in classes
      && (UPPER in classes <==> !opts.noUpper)
      && (DIGITS in classes <==> !opts.noDigits)
      && (SYMBOLS in classes <==> !opts.noSymbols)
      && forall chars :: chars in classes ==> chars in [LOWER, UPPER, DIGITS, SYMBOLS]
  {
  }

  lemma {:induction false} StrongHasOneOf(password: string, classes: seq<string>, chars: string)
    requires IsStrong(password, classes) && chars in classes
    ensures HasOneOf(password, chars)
  {
    var k :| 0 <= k < |classes| && classes[k] == chars;
  }

  /** Each character is of an enabled class. */
  lemma {:induction false} IsOfEnabledClass(password: string, opts: GenerateOptions, c: char)
    requires IsStrong(password, Classes(opts)) && c in password
    ensures exists chars :: chars in Classes(opts) && c in chars
  {
    AlphabetIsOfClasses(Classes(opts), c);
    var k :| 0 <= k < |Classes(opts)| && c in Classes(opts)[k];
    assert Classes(opts)[k] in Classes(opts);
  }

  lemma {:induction false} CharacterAsAsked(password: string, opts: GenerateOptions, c: char)
    requires IsStrong(password, Classes(opts)) && c in password
    ensures c in LOWER || c in UPPER || c in DIGITS || c in SYMBOLS
    ensures (opts.noUpper ==> c !in UPPER) && (opts.noDigits ==> c !in DIGITS) && (opts.noSymbols ==> c !in SYMBOLS)
  {
    IsOfEnabledClass(password, opts, c);
    EnabledClasses(opts);
    ClassesAreApart(c);
  }

  /** A password with the alphabet and the classes of the options has of each class what the options say. */
  lemma {:induction false} StrongAsAsked(password: string, opts: GenerateOptions)
    requires IsStrong(password, Classes(opts))
    ensures HasOneOf(password, LOWER)
    ensures if opts.noUpper then HasNoneOf(password, UPPER) else HasOneOf(password, UPPER)
    ensures if opts.noDigits then HasNoneOf(password, DIGITS) else HasOneOf(password, DIGITS)
    ensures if opts.noSymbols then HasNoneOf(password, SYMBOLS) else HasOneOf(password, SYMBOLS)
    ensures forall c :: c in password ==> c in LOWER || c in UPPER || c in DIGITS || c in SYMBOLS
  {
    forall c | c in password
      ensures c in LOWER || c in UPPER || c in DIGITS || c in SYMBOLS
      ensures (opts.noUpper ==> c !in UPPER) && (opts.noDigits ==> c !in DIGITS) && (opts.noSymbols ==> c !in SYMBOLS)
    {
      CharacterAsAsked(password, opts, c);
    }
    EnabledClasses(opts);
    StrongHasOneOf(password, Classes(opts), LOWER);
    if !opts.noUpper { StrongHasOneOf(password, Classes(opts), UPPER); }
    if !opts.noDigits { StrongHasOneOf(password, Classes(opts), DIGITS); }
    if !opts.noSymbols { StrongHasOneOf(password, Classes(opts), SYMBOLS); }
  }

  /** Shuffles the positions and fills them. */
  method FillShuffled(source: RandomSource, length: nat, required: seq<string>, pool: string)
    returns (password: Option<string>)
    requires length >= |required| && length > 0
    requires pool == Alphabet(required) && |pool| > 0 && forall i :: 0 <= i < |required| ==> |required[i]| > 0
    modifies source
    ensures password.Some? <==> |old(source.draws)| >= 2 * length - 1
    ensures password.Some? ==>
              IsMade(password.value, length, required, old(source.draws)) && IsStrong(password.value, required)
  {
    var result := new char[length];
    var drawn := RandomPermutation(source, length);
    if drawn.None? {
      return None;
    }
    ghost var positions, stream := drawn.value[..], source.draws;
    var ok := Fill(source, result, drawn.value, required, pool);
    if !ok {
      return None;
    }
    FilledIsStrong(result[..], positions, required, stream);
    password := Some(result[..]);
  }

  /**
   * A password is made exactly when the stream has a draw for each position but the first and then one for
   * each character. It has the asked length, at least 8; the positions are shuffled by the first draws and
   * each filled by a draw of its own; all characters are from the enabled alphabet, and every enabled class
   * occurs.
   */
  method GeneratePassword(source: RandomSource, opts: GenerateOptions) returns (password: Option<string>)
    modifies source
    ensures |Alphabet(Classes(opts))| > 0
    ensures password.Some? <==> |old(source.draws)| >= 2 * EffectiveLength(opts) - 1
    ensures password.Some? ==>
              && IsMade(password.value, EffectiveLength(opts), Classes(opts), old(source.draws))
              && IsStrong(password.value, Classes(opts))
    ensures password.Some? ==>
              && |password.value| == (if opts.length < 8 then 8 else opts.length)
              && HasOneOf(password.value, LOWER)
              && (if opts.noUpper then HasNoneOf(password.value, UPPER) else HasOneOf(password.value, UPPER))
              && (if opts.noDigits then HasNoneOf(password.value, DIGITS) else HasOneOf(password.value, DIGITS))
              && (if opts.noSymbols then HasNoneOf(password.value, SYMBOLS) else HasOneOf(password.value, SYMBOLS))
              && forall c :: c in password.value ==> c in LOWER || c in UPPER || c in DIGITS || c in SYMBOLS
  {
    var length := if opts.length < 8 then 8 else opts.length;
    var required, pool := CollectClasses(opts);
    password := FillShuffled(source, length, required, pool);
    if password.Some? {
      StrongAsAsked(password.value, opts);
    }
  }

  lemma {:induction false} PoolIsAlphabet(opts: GenerateOptions, required: seq<string>, pool: string)
    requires required == Classes(opts)
    requires pool == LOWER + (if opts.noUpper then "" else UPPER) + (if opts.noDigits then "" else DIGITS)
                     + (if opts.noSymbols then "" else SYMBOLS)
    ensures pool == Alphabet(required)
  {
    var a := [LOWER];
    var b := a + if opts.noUpper then [] else [UPPER];
    var c := b + if opts.noDigits then [] else [DIGITS];
    var d := c + if opts.noSymbols then [] else [SYMBOLS];
    assert Alphabet(a) == LOWER by { assert a[..0] == []; }
    AlphabetAppend(a, if opts.noUpper then [] else [UPPER]);
    AlphabetAppend(b, if opts.noDigits then [] else [DIGITS]);
    AlphabetAppend(c, if opts.noSymbols then [] else [SYMBOLS]);
    assert d == required;
  }

  lemma {:induction false} AlphabetAppend(classes: seq<string>, more: seq<string>)
    requires |more| <= 1
    ensures Alphabet(classes + more) == Alphabet(classes) + if more == [] then "" else more[0]
  {
    if more == [] {
      assert classes + more == classes;
    } else {
      assert (classes + more)[..|classes|] == classes;
    }
  }
}
