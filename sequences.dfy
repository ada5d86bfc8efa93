/** Facts about slicing and concatenating sequences, for any element type. */
module Sequences {

  lemma AppendEmpty<T>(a: seq<T>)
    ensures a + [] == a
  {
  }

  lemma TakeAll<T>(s: seq<T>)
    ensures s[..|s|] == s
  {
  }

  lemma TakeNone<T>(a: seq<T>, s: seq<T>)
    ensures a + s[..0] == a
  {
    assert s[..0] == [];
  }

  /** Dropping the last element of `a + b` drops the last element of `b`. */
  lemma InitOfAppend<T>(a: seq<T>, b: seq<T>)
    requires b != []
    ensures (a + b)[..|a + b| - 1] == a + b[..|b| - 1]
  {
  }

  lemma InitOfSnoc<T>(a: seq<T>, x: T)
    ensures (a + [x])[..|a|] == a
  {
  }

  lemma TakeSnoc<T>(s: seq<T>, k: nat)
    requires k < |s|
    ensures s[..k] + [s[k]] == s[..k + 1]
  {
  }

  /** A prefix one longer is the prefix and the next element. */
  lemma SnocSlice<T>(a: seq<T>, b: seq<T>, j: nat)
    requires j < |b|
    ensures a + b[..j] + [b[j]] == a + b[..j + 1]
  {
    assert b[..j + 1] == b[..j] + [b[j]];
  }

  /** A prefix of a prefix. */
  lemma TakeTake<T>(s: seq<T>, m: nat, k: nat)
    requires k < m <= |s|
    ensures s[..m][..k] == s[..k] && s[..m][k] == s[k]
  {
  }

  lemma SplitAt<T>(s: seq<T>, j: nat)
    requires j <= |s|
    ensures s == s[..j] + s[j..]
  {
  }

  /** Around a middle part: what lies before it and what lies after it. */
  lemma CutMiddle<T>(p: seq<T>, mid: seq<T>, q: seq<T>)
    ensures (p + mid + q)[..|p|] + (p + mid + q)[|p| + |mid|..] == p + q
  {
    assert (p + mid + q)[..|p|] == p;
    assert (p + mid + q)[|p| + |mid|..] == q;
  }

  /** Updating the tail of a sequence updates the sequence one place further on. */
  lemma ConsUpdate<T>(d: seq<T>, k: nat, x: T)
    requires k + 1 < |d|
    ensures [d[0]] + d[1..][k := x] == d[k + 1 := x]
  {
  }

  lemma Assoc<T>(a: seq<T>, b: seq<T>, c: seq<T>)
    ensures a + b + c == a + (b + c)
  {
  }

  /** `f` applied to each element, in order. */
  function Map<A, B>(f: A -> B, s: seq<A>): (r: seq<B>)
    ensures |r| == |s|
  {
    if s == [] then [] else Map(f, s[..|s| - 1]) + [f(s[|s| - 1])]
  }

  lemma {:induction false} MapAt<A, B>(f: A -> B, s: seq<A>, k: nat)
    requires k < |s|
    ensures Map(f, s)[k] == f(s[k])
  {
    var init := s[..|s| - 1];
    if k < |init| {
      MapAt(f, init, k);
      assert (Map(f, init) + [f(s[|s| - 1])])[k] == Map(f, init)[k];
    }
  }

  lemma MapSnoc<A, B>(f: A -> B, s: seq<A>, x: A)
    ensures Map(f, s + [x]) == Map(f, s) + [f(x)]
  {
    InitOfSnoc(s, x);
  }

  lemma {:induction false} MapAppend<A, B>(f: A -> B, a: seq<A>, b: seq<A>)
    ensures Map(f, a + b) == Map(f, a) + Map(f, b)
    decreases |b|
  {
    if b == [] {
      AppendEmpty(a);
      AppendEmpty(Map(f, a));
    } else {
      var init := b[..|b| - 1];
      InitOfAppend(a, b);
      assert (a + b)[|a + b| - 1] == b[|b| - 1];
      MapAppend(f, a, init);
      Assoc(Map(f, a), Map(f, init), [f(b[|b| - 1])]);
    }
  }
}
