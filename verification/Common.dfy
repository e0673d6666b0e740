/** Small generic pieces the other modules share. */
module Common {
  datatype Option<+T> = None | Some(value: T)

  function Elements<T(==)>(s: seq<T>): set<T> {
    set x | x in s
  }

  ghost predicate Distinct<T>(s: seq<T>) {
    forall i, j :: 0 <= i < j < |s| ==> s[i] != s[j]
  }

  lemma SameLength<T>(a: seq<T>, b: seq<T>)
    requires multiset(a) == multiset(b)
    ensures |a| == |b|
  {
    assert |multiset(a)| == |a| && |multiset(b)| == |b|;
  }

  lemma TakeOut<T>(s: seq<T>, j: nat)
    requires j < |s|
    ensures s == s[..j] + [s[j]] + s[j + 1..]
    ensures multiset(s[..j] + s[j + 1..]) == multiset(s) - multiset{s[j]}
  {
    assert s == s[..j] + [s[j]] + s[j + 1..];
  }

  /** Two sequences with the same elements: b with one occurrence of a's last element taken out
      has the elements of a without it. */
  lemma SplitAtLast<T>(a: seq<T>, b: seq<T>) returns (j: nat)
    requires a != [] && multiset(a) == multiset(b)
    ensures j < |b| && b[j] == a[|a| - 1]
    ensures b == b[..j] + [b[j]] + b[j + 1..]
    ensures multiset(a[..|a| - 1]) == multiset(b[..j] + b[j + 1..])
  {
    var n := |a| - 1;
    assert a[n] in multiset(a);
    j :| 0 <= j < |b| && b[j] == a[n];
    TakeOut(a, n);
    TakeOut(b, j);
    assert a[..n] + a[n + 1..] == a[..n];
  }

  lemma LastOfPart<T>(part: seq<T>, whole: seq<T>) returns (j: nat)
    requires part != [] && multiset(part) <= multiset(whole)
    ensures j < |whole| && whole[j] == part[|part| - 1]
    ensures multiset(part[..|part| - 1]) <= multiset(whole[..j] + whole[j + 1..])
  {
    var n := |part| - 1;
    assert part[n] in multiset(part);
    assert part[n] in multiset(whole);
    j :| 0 <= j < |whole| && whole[j] == part[n];
    TakeOut(part, n);
    TakeOut(whole, j);
    assert part[..n] + part[n + 1..] == part[..n];
  }

  lemma PutBack<T>(part: seq<T>, rest: seq<T>, whole: seq<T>, j: nat)
    requires part != [] && j < |whole| && whole[j] == part[|part| - 1]
    requires multiset(part[..|part| - 1] + rest) == multiset(whole[..j] + whole[j + 1..])
    ensures multiset(part + rest) == multiset(whole)
  {
    var n := |part| - 1;
    TakeOut(whole, j);
    assert part + rest == part[..n] + [part[n]] + rest;
    assert multiset(part + rest) == multiset(part[..n] + rest) + multiset{part[n]};
  }

  /** A part of a sequence, whatever its order, leaves a rest. */
  lemma {:induction false} Remainder<T>(part: seq<T>, whole: seq<T>) returns (rest: seq<T>)
    requires multiset(part) <= multiset(whole)
    ensures multiset(part + rest) == multiset(whole)
  {
    if part == [] {
      rest := whole;
      assert part + rest == whole;
    } else {
      var j := LastOfPart(part, whole);
      rest := Remainder(part[..|part| - 1], whole[..j] + whole[j + 1..]);
      PutBack(part, rest, whole, j);
    }
  }

  lemma PartNotLonger<T>(part: seq<T>, whole: seq<T>)
    requires multiset(part) <= multiset(whole)
    ensures |part| <= |whole|
  {
    var rest := Remainder(part, whole);
    assert |multiset(part + rest)| == |part| + |rest| && |multiset(whole)| == |whole|;
  }
}
