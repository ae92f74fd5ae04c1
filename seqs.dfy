/** LINQ and `List<T>` operations the core uses, on sequences. */
module Seqs {
  import opened Wrappers

  /** `s.Where(p).ToList()` */
  function Filter<T>(p: T -> bool, s: seq<T>): (r: seq<T>)
    ensures |r| <= |s|
    ensures forall i | 0 <= i < |r| :: p(r[i])
  {
    if s == [] then [] else (if p(s[0]) then [s[0]] else []) + Filter(p, s[1..])
  }

  /** The filter keeps exactly the elements satisfying p. */
  lemma {:induction false} FilterMembership<T>(p: T -> bool, s: seq<T>, x: T)
    ensures x in Filter(p, s) <==> x in s && p(x)
  {
    if s != [] {
      FilterMembership(p, s[1..], x);
      assert s == [s[0]] + s[1..];
    }
  }

  /** FilterMembership for every element at once. */
  lemma FilterMembershipAll<T>(p: T -> bool, s: seq<T>)
    ensures forall x :: x in Filter(p, s) <==> x in s && p(x)
  {
    forall x ensures x in Filter(p, s) <==> x in s && p(x) {
      FilterMembership(p, s, x);
    }
  }

  /** Filtering commutes with concatenation: the kept elements stay in their original order. */
  lemma {:induction false} FilterAppend<T>(p: T -> bool, s: seq<T>, t: seq<T>)
    ensures Filter(p, s + t) == Filter(p, s) + Filter(p, t)
  {
    if s == [] {
      assert s + t == t;
    } else {
      assert (s + t)[1..] == s[1..] + t;
      FilterAppend(p, s[1..], t);
    }
  }

  /** A filter that every element passes changes nothing. */
  lemma {:induction false} FilterAll<T>(p: T -> bool, s: seq<T>)
    requires forall i | 0 <= i < |s| :: p(s[i])
    ensures Filter(p, s) == s
  {
    if s != [] {
      FilterAll(p, s[1..]);
    }
  }

  /** Replacing an element the filter drops by another it drops leaves the filtered view as it was. */
  lemma {:induction false} FilterUpdateSkipped<T>(p: T -> bool, s: seq<T>, i: nat, x: T)
    requires i < |s| && !p(s[i]) && !p(x)
    ensures Filter(p, s[i := x]) == Filter(p, s)
  {
    var pre, post := s[..i], s[i + 1..];
    assert s == pre + ([s[i]] + post);
    assert s[i := x] == pre + ([x] + post);
    assert Filter(p, [s[i]]) == [] by { assert [s[i]][1..] == []; }
    assert Filter(p, [x]) == [] by { assert [x][1..] == []; }
    FilterAppend(p, [s[i]], post);
    FilterAppend(p, [x], post);
    FilterAppend(p, pre, [s[i]] + post);
    FilterAppend(p, pre, [x] + post);
  }

  /** Removing an element the filter drops leaves the filtered view as it was. */
  lemma {:induction false} FilterRemoveSkipped<T>(p: T -> bool, s: seq<T>, i: nat)
    requires i < |s| && !p(s[i])
    ensures Filter(p, s[..i] + s[i + 1..]) == Filter(p, s)
  {
    var pre, post := s[..i], s[i + 1..];
    assert s == pre + ([s[i]] + post);
    assert Filter(p, [s[i]]) == [] by { assert [s[i]][1..] == []; }
    FilterAppend(p, [s[i]], post);
    FilterAppend(p, pre, [s[i]] + post);
    FilterAppend(p, pre, post);
  }

  /** `s.Select(f).ToList()` */
  function MapSeq<T, U>(f: T -> U, s: seq<T>): (r: seq<U>)
    ensures |r| == |s|
    ensures forall i | 0 <= i < |s| :: r[i] == f(s[i])
  {
    seq(|s|, i requires 0 <= i < |s| => f(s[i]))
  }

  /** The position `FirstOrDefault(p)` stops at, or None when no element matches. */
  function FirstIndex<T>(p: T -> bool, s: seq<T>): (r: Option<nat>)
    ensures r.Some? ==> r.value < |s| && p(s[r.value]) && forall j | 0 <= j < r.value :: !p(s[j])
    ensures r.None? ==> forall j | 0 <= j < |s| :: !p(s[j])
  {
    if s == [] then None
    else if p(s[0]) then Some(0)
    else match FirstIndex(p, s[1..])
      case None => None
      case Some(i) => Some(i + 1)
  }

  /** `s.FirstOrDefault(p)` */
  function FirstOrDefault<T>(p: T -> bool, s: seq<T>): (r: Option<T>)
    ensures r.Some? <==> exists i | 0 <= i < |s| :: p(s[i])
    ensures r.Some? ==> r.value in s && p(r.value)
    ensures forall i | 0 <= i < |s| && p(s[i]) && (forall j | 0 <= j < i :: !p(s[j])) :: r == Some(s[i])
  {
    match FirstIndex(p, s)
    case None => None
    case Some(i) => Some(s[i])
  }

  /** `list.RemoveAt(i)`, which is what `list.Remove(item)` does for the item found at i. */
  function RemoveAt<T>(s: seq<T>, i: nat): (r: seq<T>)
    requires i < |s|
    ensures |r| == |s| - 1
    ensures forall j | 0 <= j < i :: r[j] == s[j]
    ensures forall j | i <= j < |r| :: r[j] == s[j + 1]
  {
    s[..i] + s[i + 1..]
  }
}
