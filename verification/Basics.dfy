/**
 Definitions shared by several components.
 */
module Basics {

  datatype Option<T> = None | Some(value: T)

  function Min(a: int, b: int): (m: int)
    ensures m <= a && m <= b && (m == a || m == b)
  {
    if a <= b then a else b
  }

  lemma Regroup<T>(a: seq<T>, b: seq<T>, c: seq<T>)
    ensures a + b + c == a + (b + c)
  {
  }

  /** Text `t` stands in `s` at position `i`. */
  ghost predicate At<T>(s: seq<T>, i: nat, t: seq<T>) {
    i + |t| <= |s| && forall k :: 0 <= k < |t| ==> s[i + k] == t[k]
  }

  lemma AtParts<T>(s: seq<T>, i: nat, a: seq<T>, b: seq<T>)
    requires At(s, i, a + b)
    ensures At(s, i, a) && At(s, i + |a|, b)
  {
    var t := a + b;
    assert forall k :: 0 <= k < |a| ==> t[k] == a[k];
    forall k | 0 <= k < |b| ensures s[i + |a| + k] == b[k] {
      assert t[|a| + k] == b[k];
    }
  }

  lemma AtCons<T>(s: seq<T>, i: nat, x: T, t: seq<T>)
    requires At(s, i, [x] + t)
    ensures i < |s| && s[i] == x && At(s, i + 1, t)
  {
    var u := [x] + t;
    assert s[i + 0] == u[0];
    forall k | 0 <= k < |t| ensures s[i + 1 + k] == t[k] {
      assert s[i + (k + 1)] == u[k + 1];
    }
  }
}
