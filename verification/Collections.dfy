/** Facts about sets and sequences that the solver does not use unasked. */
module Collections {

  lemma {:induction false} OneLess<T>(a: set<T>, t: T)
    requires t in a
    ensures |a - {t}| == |a| - 1
  {
  }

  lemma {:induction false} OneMore<T>(a: set<T>, t: T)
    requires t !in a
    ensures |a + {t}| == |a| + 1
  {
  }

  lemma {:induction false} Associative<T>(a: seq<T>, b: seq<T>, c: seq<T>)
    ensures a + (b + c) == a + b + c
  {
  }
}
