/** Sizes of finite sets of numbers. */
module Sets {

  ghost function Below(n: nat): (s: set<nat>)
    ensures |s| == n && forall i: nat :: i in s <==> i < n
  {
    if n == 0 then {} else Below(n - 1) + {n - 1}
  }

  lemma {:induction false} SubsetIsNoLarger(s: set<nat>, t: set<nat>)
    requires s <= t
    ensures |s| <= |t|
  {
    if s != {} {
      var x :| x in s;
      SubsetIsNoLarger(s - {x}, t - {x});
    }
  }

  lemma UnionIsNoLarger(s: set<nat>, first: set<nat>, second: set<nat>)
    requires s <= first + second
    ensures |s| <= |first| + |second|
  {
    SubsetIsNoLarger(s, first + second);
    assert first + second == first + (second - first);
  }
}
