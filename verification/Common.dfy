/** Small vocabulary shared by every component of the model. */
module Common {

  datatype Option<+T> = None | Some(value: T)

  /** The first element satisfying `p`: what FirstOrDefault answers. */
  function First<T>(s: seq<T>, p: T -> bool): (r: Option<T>)
    ensures r.Some? ==> r.value in s && p(r.value)
    ensures r.None? ==> forall x | x in s :: !p(x)
  {
    if s == [] then None
    else if p(s[0]) then Some(s[0])
    else First(s[1..], p)
  }

  /** What First answers stands at the earliest place where `p` holds. */
  lemma {:induction false} FirstIsEarliest<T>(s: seq<T>, p: T -> bool) returns (i: nat)
    requires First(s, p).Some?
    ensures i < |s| && s[i] == First(s, p).value && p(s[i]) && forall j | 0 <= j < i :: !p(s[j])
  {
    if p(s[0]) {
      i := 0;
    } else {
      i := FirstIsEarliest(s[1..], p);
      i := i + 1;
    }
  }

  /** The first index satisfying `p`: what a first-wins dictionary over a list answers. */
  function FirstIndex<T>(s: seq<T>, p: T -> bool): (r: Option<nat>)
    ensures r.Some? ==> r.value < |s| && p(s[r.value]) && forall i | 0 <= i < r.value :: !p(s[i])
    ensures r.None? ==> forall i | 0 <= i < |s| :: !p(s[i])
  {
    if s == [] then None
    else if p(s[0]) then Some(0)
    else
      match FirstIndex(s[1..], p)
      case None => None
      case Some(i) => Some(i + 1)
  }

  /** A first index is determined by what it promises. */
  lemma FirstIndexUnique<T>(s: seq<T>, p: T -> bool, k: nat)
    requires k < |s| && p(s[k]) && forall i | 0 <= i < k :: !p(s[i])
    ensures FirstIndex(s, p) == Some(k)
  {
    var r := FirstIndex(s, p);
    assert r.Some?;
  }

  function Map<T, U>(f: T -> U, s: seq<T>): (r: seq<U>)
    ensures |r| == |s| && forall i | 0 <= i < |r| :: r[i] == f(s[i])
  {
    seq(|s|, i requires 0 <= i < |s| => f(s[i]))
  }

  lemma MapConcat<T, U>(f: T -> U, a: seq<T>, b: seq<T>)
    ensures Map(f, a + b) == Map(f, a) + Map(f, b)
  {
  }

  function Filter<T>(s: seq<T>, p: T -> bool): (r: seq<T>)
    ensures forall x | x in r :: p(x) && x in s
  {
    if s == [] then []
    else (if p(s[0]) then [s[0]] else []) + Filter(s[1..], p)
  }

  lemma {:induction false} FilterHasAll<T>(s: seq<T>, p: T -> bool)
    ensures forall x | x in s && p(x) :: x in Filter(s, p)
  {
    if s != [] {
      FilterHasAll(s[1..], p);
    }
  }

  lemma Associate<T>(a: seq<T>, b: seq<T>, c: seq<T>)
    ensures a + (b + c) == (a + b) + c
  {
  }

  function Head<T>(s: seq<T>, p: T -> bool): seq<T>
    requires s != []
  {
    if p(s[0]) then [s[0]] else []
  }

  lemma FilterUnfolds<T>(s: seq<T>, rest: seq<T>, p: T -> bool)
    requires s != [] && rest == s[1..]
    ensures Filter(s, p) == Head(s, p) + Filter(rest, p)
  {
  }

  lemma FilterConcatStep<T>(a: seq<T>, b: seq<T>, t: seq<T>, tb: seq<T>, p: T -> bool)
    requires a != [] && t == a[1..] && tb == t + b
    requires Filter(tb, p) == Filter(t, p) + Filter(b, p)
    ensures Filter(a + b, p) == Filter(a, p) + Filter(b, p)
  {
    assert tb == (a + b)[1..];
    FilterUnfolds(a + b, tb, p);
    FilterUnfolds(a, t, p);
    assert Head(a + b, p) == Head(a, p);
    Associate(Head(a, p), Filter(t, p), Filter(b, p));
  }

  lemma {:induction false} FilterConcat<T>(a: seq<T>, b: seq<T>, p: T -> bool)
    ensures Filter(a + b, p) == Filter(a, p) + Filter(b, p)
  {
    if a == [] {
      assert a + b == b;
    } else {
      FilterConcat(a[1..], b, p);
      FilterConcatStep(a, b, a[1..], a[1..] + b, p);
    }
  }

  /** Filtering one element more. */
  lemma FilterSnoc<T>(s: seq<T>, p: T -> bool, i: nat)
    requires i < |s|
    ensures Filter(s[..i + 1], p) == Filter(s[..i], p) + (if p(s[i]) then [s[i]] else [])
  {
    assert s[..i + 1] == s[..i] + [s[i]];
    FilterConcat(s[..i], [s[i]], p);
  }

  lemma {:induction false} FilterAll<T>(s: seq<T>, p: T -> bool)
    requires forall x | x in s :: p(x)
    ensures Filter(s, p) == s
  {
    if s != [] {
      FilterAll(s[1..], p);
    }
  }

  lemma {:induction false} FilterNone<T>(s: seq<T>, p: T -> bool)
    requires forall x | x in s :: !p(x)
    ensures Filter(s, p) == []
  {
    if s != [] {
      FilterNone(s[1..], p);
    }
  }
}
