/** The order of names: character by character, a proper prefix first. */
module TextOrder {

  predicate Leq(a: string, b: string) {
    a == "" || (b != "" && (a[0] < b[0] || (a[0] == b[0] && Leq(a[1..], b[1..]))))
  }

  predicate Less(a: string, b: string) {
    Leq(a, b) && a != b
  }

  lemma {:induction false} Antisymmetric(a: string, b: string)
    requires Leq(a, b) && Leq(b, a)
    ensures a == b
  {
    if a != "" {
      Antisymmetric(a[1..], b[1..]);
      assert a == [a[0]] + a[1..] && b == [b[0]] + b[1..];
    }
  }

  lemma {:induction false} Total(a: string, b: string)
    ensures Leq(a, b) || Less(b, a)
  {
    if a != "" && b != "" && a[0] == b[0] {
      Total(a[1..], b[1..]);
    }
  }

  lemma {:induction false} Transitive(a: string, b: string, c: string)
    requires Leq(a, b) && Leq(b, c)
    ensures Leq(a, c)
  {
    if a != "" && a[0] == b[0] == c[0] {
      Transitive(a[1..], b[1..], c[1..]);
    }
  }

  lemma LessTransitive(a: string, b: string, c: string)
    requires Leq(a, b) && Leq(b, c) && (a != b || b != c)
    ensures Less(a, c)
  {
    Transitive(a, b, c);
    if a == c {
      Antisymmetric(a, b);
    }
  }
}
