/** Facts about sequences and multisets that several proofs share. */
module Sequences {

  /** Taking one occurrence out of both sides of a rearrangement leaves a rearrangement. */
  lemma RemoveFromBoth<T>(a: seq<T>, b: seq<T>, k: nat)
    requires multiset(a) == multiset(b) && a != [] && k < |b| && b[k] == a[0]
    ensures multiset(a[1..]) == multiset(b[..k] + b[k + 1..])
  {
    assert a == [a[0]] + a[1..];
    assert b == b[..k] + [b[k]] + b[k + 1..];
    assert multiset(a[1..]) == multiset(a) - multiset{a[0]};
    assert multiset(b[..k] + b[k + 1..]) == multiset(b) - multiset{b[k]};
  }

  lemma FindInRearrangement<T>(a: seq<T>, b: seq<T>) returns (k: nat)
    requires multiset(a) == multiset(b) && a != []
    ensures k < |b| && b[k] == a[0]
  {
    assert a[0] in multiset(b);
    k :| k < |b| && b[k] == a[0];
  }

  lemma EmptyRearrangement<T>(b: seq<T>)
    requires multiset(b) == multiset{}
    ensures b == []
  {
    assert |multiset(b)| == |b|;
  }

  function Map<T, U>(xs: seq<T>, f: T -> U): seq<U> {
    seq(|xs|, i requires 0 <= i < |xs| => f(xs[i]))
  }

  /** What is done to each element alone does not notice a rearrangement. */
  lemma {:induction false} MapRearranged<T, U>(a: seq<T>, b: seq<T>, f: T -> U)
    requires multiset(a) == multiset(b)
    ensures multiset(Map(a, f)) == multiset(Map(b, f))
    decreases |a|
  {
    if a == [] {
      EmptyRearrangement(b);
    } else {
      var k := FindInRearrangement(a, b);
      RemoveFromBoth(a, b, k);
      var front, back := b[..k], b[k + 1..];
      MapRearranged(a[1..], front + back, f);
      assert Map(a, f) == [f(a[0])] + Map(a[1..], f);
      assert Map(front + back, f) == Map(front, f) + Map(back, f);
      assert Map(b, f) == Map(front, f) + [f(b[k])] + Map(back, f);
    }
  }

  /** Where a mark first comes up is where the text was put together. */
  lemma SplitsAtFirst<T>(mark: T, a: seq<T>, b: seq<T>, c: seq<T>, d: seq<T>)
    requires mark !in a && mark !in c && a + [mark] + b == c + [mark] + d
    ensures a == c && b == d
  {
    var whole := a + [mark] + b;
    assert whole[|a|] == mark && whole[|c|] == mark;
    assert forall i | 0 <= i < |a| :: whole[i] == a[i] && a[i] in a;
    assert forall i | 0 <= i < |c| :: whole[i] == c[i] && c[i] in c;
    assert a == whole[..|a|] && b == whole[|a| + 1..];
  }

  /** The parts of a text between its marks. */
  function Parts<T(==)>(text: seq<T>, mark: T): (parts: seq<seq<T>>)
    ensures parts != []
  {
    if text == [] then [[]]
    else
      var rest := Parts(text[1..], mark);
      if text[0] == mark then [[]] + rest else [[text[0]] + rest[0]] + rest[1..]
  }

  lemma {:induction false} PartsOne<T>(text: seq<T>, mark: T)
    requires mark !in text
    ensures Parts(text, mark) == [text]
  {
    if text != [] {
      PartsOne(text[1..], mark);
      assert [text[0]] + text[1..] == text;
    }
  }

  /** A text put together around a mark has the parts of both sides. */
  lemma {:induction false} PartsJoin<T>(a: seq<T>, mark: T, b: seq<T>)
    ensures Parts(a + [mark] + b, mark) == Parts(a, mark) + Parts(b, mark)
  {
    var whole := a + [mark] + b;
    if a == [] {
      assert whole[1..] == b;
    } else {
      assert whole[1..] == a[1..] + [mark] + b;
      PartsJoin(a[1..], mark, b);
    }
  }
}
