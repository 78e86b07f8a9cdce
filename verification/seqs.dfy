/** Sequence helpers shared by the trace projections of the model. */
module Seqs {

  /** Concatenates the pieces `f` maps each element of `s` to, in order. */
  function Flatten<T, U>(s: seq<T>, f: T -> seq<U>): seq<U>
  {
    if |s| == 0 then [] else f(s[0]) + Flatten(s[1..], f)
  }

  /** Flattening distributes over concatenation. */
  lemma {:induction false} FlattenConcat<T, U>(a: seq<T>, b: seq<T>, f: T -> seq<U>)
    ensures Flatten(a + b, f) == Flatten(a, f) + Flatten(b, f)
  {
    if |a| == 0 {
      assert a + b == b;
    } else {
      assert (a + b)[1..] == a[1..] + b;
      FlattenConcat(a[1..], b, f);
    }
  }

  /** Flattening a sequence of at most two elements, spelled out. */
  lemma FlattenSmall<T, U>(s: seq<T>, f: T -> seq<U>)
    requires |s| <= 2
    ensures |s| == 0 ==> Flatten(s, f) == []
    ensures |s| == 1 ==> Flatten(s, f) == f(s[0])
    ensures |s| == 2 ==> Flatten(s, f) == f(s[0]) + f(s[1])
  {
    if |s| == 2 {
      assert Flatten(s[1..], f) == f(s[1]) + Flatten(s[2..], f);
    }
  }
}
