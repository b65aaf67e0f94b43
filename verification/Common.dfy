/** Types and sequence facts shared by the other modules. */
module Common {
  type byte = x: int | 0 <= x < 256

  datatype Option<+T> = None | Some(value: T)

  datatype Result<+T> = Ok(value: T) | Err(reason: string)

  function Min(a: int, b: int): (r: int)
    ensures r <= a && r <= b && (r == a || r == b)
  {
    if a <= b then a else b
  }

  function Max(a: int, b: int): (r: int)
    ensures a <= r && b <= r && (r == a || r == b)
  {
    if a >= b then a else b
  }

  function Repeat<T>(x: T, n: nat): (s: seq<T>)
    ensures |s| == n && forall i :: 0 <= i < n ==> s[i] == x
  {
    seq(n, _ => x)
  }

  /** The least natural number above every member: one past the maximum, or 0. */
  ghost function Bound(ds: set<nat>): (m: nat)
    ensures forall d :: d in ds ==> d < m
    ensures m > 0 ==> m - 1 in ds
  {
    if ds == {} then 0
    else
      var x :| x in ds;
      var r := Bound(ds - {x});
      assert forall d :: d in ds ==> d == x || d in ds - {x};
      if r > x then r else x + 1
  }

  /** An injection between two finite sets that is onto keeps the size. */
  lemma {:induction false} SameSize<A, B>(xs: set<A>, ys: set<B>, f: A --> B)
    requires forall x :: x in xs ==> f.requires(x) && f(x) in ys
    requires forall x, x' :: x in xs && x' in xs && f(x) == f(x') ==> x == x'
    requires forall y :: y in ys ==> exists x :: x in xs && f(x) == y
    ensures |xs| == |ys|
  {
    if xs == {} {
      assert ys == {};
    } else {
      var x :| x in xs;
      var xs', ys' := xs - {x}, ys - {f(x)};
      forall y | y in ys' ensures exists z :: z in xs' && f(z) == y {
        var z :| z in xs && f(z) == y;
        assert z in xs';
      }
      SameSize(xs', ys', f);
      assert |xs| == |xs'| + 1 && |ys| == |ys'| + 1;
    }
  }

  lemma {:induction false} SubsetSize<T>(xs: set<T>, ys: set<T>)
    requires xs <= ys
    ensures |xs| <= |ys|
  {
    assert ys == xs + (ys - xs);
  }

  lemma SomeKey<K, V>(m: map<K, V>) returns (k: K)
    requires |m| > 0
    ensures k in m
  {
    k :| k in m.Keys;
  }
}
