/** How many elements of a sequence satisfy a predicate. */
module Counting {

  ghost function Count<T>(q: seq<T>, p: T -> bool): nat {
    if q == [] then 0
    else Count(q[..|q| - 1], p) + if p(q[|q| - 1]) then 1 else 0
  }

  lemma CountNext<T>(q: seq<T>, i: nat, p: T -> bool)
    requires i < |q|
    ensures Count(q[..i + 1], p) == Count(q[..i], p) + if p(q[i]) then 1 else 0
  {
    assert q[..i + 1][..i] == q[..i];
  }

  lemma {:induction false} CountUpdate<T>(q: seq<T>, i: nat, x: T, p: T -> bool)
    requires i < |q|
    ensures Count(q[i := x], p) + (if p(q[i]) then 1 else 0) == Count(q, p) + if p(x) then 1 else 0
  {
    var last := |q| - 1;
    if i == last {
      assert q[i := x][..last] == q[..last];
    } else {
      assert q[i := x][..last] == q[..last][i := x];
      CountUpdate(q[..last], i, x, p);
    }
  }

  lemma {:induction false} CountNone<T>(q: seq<T>, p: T -> bool)
    requires forall i :: 0 <= i < |q| ==> !p(q[i])
    ensures Count(q, p) == 0
  {
    if q != [] {
      CountNone(q[..|q| - 1], p);
    }
  }

  lemma {:induction false} CountSplit<T>(q: seq<T>, p: T -> bool, p1: T -> bool, p2: T -> bool)
    requires forall x :: x in q ==> p(x) == (p1(x) || p2(x)) && !(p1(x) && p2(x))
    ensures Count(q, p) == Count(q, p1) + Count(q, p2)
  {
    if q != [] {
      assert q[|q| - 1] in q;
      CountSplit(q[..|q| - 1], p, p1, p2);
    }
  }

  /** Two sequences whose elements agree place by place count alike. */
  lemma {:induction false} CountAlike<T, U>(q: seq<T>, r: seq<U>, p: T -> bool, p': U -> bool)
    requires |q| == |r| && forall i :: 0 <= i < |q| ==> p(q[i]) == p'(r[i])
    ensures Count(q, p) == Count(r, p')
  {
    if q != [] {
      CountAlike(q[..|q| - 1], r[..|r| - 1], p, p');
    }
  }
}
