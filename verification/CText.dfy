/**
 C strings as NUL-free sequences of characters, walked by a cursor: `strchr`, and a text standing at a
 position of a longer one.
 */
module CText {
  import opened Basics

  /** strchr from cursor `i`: the position of the first `c`, or the end of the string. */
  function FindFrom(s: string, i: nat, c: char): (k: nat)
    requires i <= |s|
    ensures i <= k <= |s|
    decreases |s| - i
  {
    if i == |s| || s[i] == c then i else FindFrom(s, i + 1, c)
  }

  lemma {:induction false} FindSpec(s: string, i: nat, c: char)
    requires i <= |s|
    ensures FindFrom(s, i, c) == |s| || s[FindFrom(s, i, c)] == c
    ensures forall j :: i <= j < FindFrom(s, i, c) ==> s[j] != c
    decreases |s| - i
  {
    if i != |s| && s[i] != c {
      FindSpec(s, i + 1, c);
    }
  }

  lemma {:induction false} FindUnique(s: string, i: nat, c: char, k: nat)
    requires i <= k <= |s| && (forall j :: i <= j < k ==> s[j] != c) && (k == |s| || s[k] == c)
    ensures FindFrom(s, i, c) == k
    decreases k - i
  {
    if i < k {
      FindUnique(s, i + 1, c, k);
    }
  }

  /** The characters at the cursor are the text's, in particular where it has no `c`. */
  lemma AtSlice(s: string, i: nat, t: string, c: char)
    requires At(s, i, t) && c !in t
    ensures s[i..i + |t|] == t
    ensures forall j :: i <= j < i + |t| ==> s[j] != c
  {
    forall j | i <= j < i + |t| ensures s[j] != c {
      assert s[j] == t[j - i];
    }
  }

  /** Byte order of strings, as strcmp gives it. */
  predicate Less(a: string, b: string) {
    b != "" && (a == "" || a[0] < b[0] || (a[0] == b[0] && Less(a[1..], b[1..])))
  }

  lemma {:induction false} LessTransitive(a: string, b: string, c: string)
    requires Less(a, b) && Less(b, c)
    ensures Less(a, c)
  {
    if a != "" && a[0] == b[0] == c[0] {
      LessTransitive(a[1..], b[1..], c[1..]);
    }
  }

  lemma {:induction false} LessTotal(a: string, b: string)
    ensures a != b ==> Less(a, b) || Less(b, a)
    ensures !(Less(a, b) && Less(b, a))
    ensures !Less(a, a)
  {
    if a != "" && b != "" && a[0] == b[0] {
      LessTotal(a[1..], b[1..]);
      assert a == [a[0]] + a[1..] && b == [b[0]] + b[1..];
    }
    if a != "" {
      LessTotal(a[1..], a[1..]);
    }
  }

  /** `a` and `b` first differ behind their first `k` characters, where `a` ends or has the smaller one. */
  ghost predicate SmallerAt(a: string, b: string, k: nat) {
    k <= |a| && k < |b| && a[..k] == b[..k] && (k == |a| || a[k] < b[k])
  }

  lemma SmallerTail(a: string, b: string, k: nat)
    requires a != "" && b != "" && a[0] == b[0]
    ensures SmallerAt(a[1..], b[1..], k) <==> SmallerAt(a, b, k + 1)
  {
    if k <= |a[1..]| && k < |b[1..]| {
      assert a[..k + 1] == [a[0]] + a[1..][..k] && b[..k + 1] == [b[0]] + b[1..][..k];
      if a[..k + 1] == b[..k + 1] {
        assert a[..k + 1][1..] == b[..k + 1][1..];
        assert a[..k + 1][1..] == a[1..][..k] && b[..k + 1][1..] == b[1..][..k];
      }
    }
  }

  /** strcmp compares at the first difference. */
  lemma {:induction false} LessIff(a: string, b: string)
    ensures Less(a, b) <==> exists k :: SmallerAt(a, b, k)
  {
    if a != "" && b != "" && a[0] == b[0] {
      LessIff(a[1..], b[1..]);
      if k: nat :| SmallerAt(a, b, k) {
        assert k != 0;
        SmallerTail(a, b, k - 1);
      }
      if k: nat :| SmallerAt(a[1..], b[1..], k) {
        SmallerTail(a, b, k);
      }
    } else if b != "" && (a == "" || a[0] < b[0]) {
      assert SmallerAt(a, b, 0);
    } else {
      forall k: nat ensures !SmallerAt(a, b, k) {
        if k > 0 && SmallerAt(a, b, k) {
          SmallerFirst(a, b, k);
        }
      }
    }
  }

  lemma SmallerFirst(a: string, b: string, k: nat)
    requires k > 0 && SmallerAt(a, b, k)
    ensures a != "" && b != "" && a[0] == b[0]
  {
    assert a[..k][0] == b[..k][0];
  }
}
