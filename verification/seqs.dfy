/**
 * Generic facts about sequence concatenation, stated once so that proofs
 * about strings and lists can cite them instead of re-deriving them.
 */
module Seqs {

  lemma Assoc<T>(a: seq<T>, b: seq<T>, c: seq<T>)
    ensures a + b + c == a + (b + c)
  {
  }

  lemma Regroup<T>(a: seq<T>, b: seq<T>, c: seq<T>, d: seq<T>)
    ensures a + b + c + d == a + (b + c + d)
  {
  }

  /** A concatenation starts with its non-empty left part. */
  lemma HeadTail<T>(a: seq<T>, b: seq<T>)
    requires a != []
    ensures (a + b)[0] == a[0] && (a + b)[1..] == a[1..] + b
  {
  }

  /** A sequence is the concatenation of the three slices two cut points make. */
  lemma Slices<T>(s: seq<T>, a: nat, b: nat)
    requires a <= b <= |s|
    ensures s == s[..a] + s[a..b] + s[b..]
  {
  }

  /** A non-empty left part splits into its first element and the rest. */
  lemma Cons<T>(a: seq<T>, b: seq<T>)
    requires a != []
    ensures a + b == [a[0]] + (a[1..] + b)
  {
  }

  /** A value absent from both parts is absent from their concatenation. */
  lemma AbsentConcat<T>(a: seq<T>, b: seq<T>, x: T)
    requires forall i :: 0 <= i < |a| ==> a[i] != x
    requires forall i :: 0 <= i < |b| ==> b[i] != x
    ensures forall i :: 0 <= i < |a + b| ==> (a + b)[i] != x
  {
  }

  /** A value absent from a sequence is absent from every suffix of it. */
  lemma AbsentSuffix<T>(s: seq<T>, k: nat, x: T)
    requires k <= |s|
    requires forall i :: 0 <= i < |s| ==> s[i] != x
    ensures forall i :: 0 <= i < |s[k..]| ==> s[k..][i] != x
  {
  }

  /** `f` applied to each element, in order. */
  function Map<T, U>(f: T -> U, s: seq<T>): (r: seq<U>)
    ensures |r| == |s|
    ensures forall i :: 0 <= i < |s| ==> r[i] == f(s[i])
  {
    seq(|s|, i requires 0 <= i < |s| => f(s[i]))
  }

  /** Mapping distributes over concatenation. */
  lemma MapConcat<T, U>(f: T -> U, a: seq<T>, b: seq<T>)
    ensures Map(f, a + b) == Map(f, a) + Map(f, b)
  {
    forall i | 0 <= i < |a + b| ensures Map(f, a + b)[i] == (Map(f, a) + Map(f, b))[i] {
      if i < |a| {
        assert (a + b)[i] == a[i];
      } else {
        assert (a + b)[i] == b[i - |a|];
      }
    }
  }
}
