/** Facts about sequences that the other modules' proofs name one at a time. */
module Seqs {
  lemma {:induction false} Associative<T>(a: seq<T>, b: seq<T>, c: seq<T>)
    ensures a + b + c == a + (b + c)
  {
  }

  /** The first element and the rest of a concatenation. */
  lemma {:induction false} ConsConcat<T>(a: seq<T>, b: seq<T>)
    requires a != []
    ensures (a + b)[0] == a[0] && (a + b)[1..] == a[1..] + b
  {
  }

  /** All but the last element of a concatenation. */
  lemma {:induction false} SnocConcat<T>(a: seq<T>, b: seq<T>)
    requires b != []
    ensures (a + b)[|a| + |b| - 1] == b[|b| - 1] && (a + b)[..|a| + |b| - 1] == a + b[..|b| - 1]
  {
  }

  lemma {:induction false} NilConcat<T>(a: seq<T>)
    ensures [] + a == a && a + [] == a
  {
  }

  lemma {:induction false} SplitAt<T>(s: seq<T>, n: nat)
    requires n <= |s|
    ensures s == s[..n] + s[n..]
  {
  }

  /** A slice of what is left after dropping. */
  lemma {:induction false} SliceOfDrop<T>(s: seq<T>, n: nat, i: nat, j: nat)
    requires i <= j && n + j <= |s|
    ensures s[n..][i..j] == s[n + i..n + j]
  {
  }

  lemma {:induction false} DropDrop<T>(s: seq<T>, n: nat, i: nat)
    requires n + i <= |s|
    ensures s[n..][i..] == s[n + i..]
  {
  }
}
