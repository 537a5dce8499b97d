/** Two sequence operations the pool's drain is described with: keeping the
    elements that satisfy a predicate, and reversing. Both peel elements off
    the back of the sequence, the end the pool drains from. */
module Sequences {

  /** The elements of `s` that satisfy `p`, in their original order. */
  function Kept<T>(p: T -> bool, s: seq<T>): (r: seq<T>)
    ensures |r| <= |s|
  {
    if s == [] then []
    else Kept(p, s[..|s| - 1]) + (if p(s[|s| - 1]) then [s[|s| - 1]] else [])
  }

  /** `s` read from its last element to its first. */
  function Reversed<T>(s: seq<T>): (r: seq<T>)
    ensures |r| == |s|
  {
    if s == [] then [] else [s[|s| - 1]] + Reversed(s[..|s| - 1])
  }

  /** Position `k` of the reversal holds the element `k` places from the end. */
  lemma {:induction false} ReversedAt<T>(s: seq<T>, k: nat)
    requires k < |s|
    ensures Reversed(s)[k] == s[|s| - 1 - k]
  {
    if k > 0 {
      ReversedAt(s[..|s| - 1], k - 1);
    }
  }

  /** Appending one element appends it to the kept part exactly when it is kept. */
  lemma KeptSnoc<T>(p: T -> bool, s: seq<T>, x: T)
    ensures Kept(p, s + [x]) == Kept(p, s) + (if p(x) then [x] else [])
  {
  }

  /** An element is kept exactly when it occurs in `s` and satisfies `p`. */
  lemma {:induction false} KeptMembers<T>(p: T -> bool, s: seq<T>)
    ensures forall x :: x in Kept(p, s) <==> x in s && p(x)
  {
    if s != [] {
      var init, last := s[..|s| - 1], s[|s| - 1];
      assert s == init + [last];
      KeptMembers(p, init);
      KeptSnoc(p, init, last);
    }
  }

  /** Appending one element puts it at the front of the reversal. */
  lemma ReversedSnoc<T>(s: seq<T>, x: T)
    ensures Reversed(s + [x]) == [x] + Reversed(s)
  {
  }

  /** Extending a slice by the next element puts that element, when kept, at
      the front of the reversed kept part. */
  lemma ReversedKeptExtend<T>(p: T -> bool, s: seq<T>, i: nat, j: nat)
    requires i < j <= |s|
    ensures Reversed(Kept(p, s[i..j])) ==
      (if p(s[j - 1]) then [s[j - 1]] else []) + Reversed(Kept(p, s[i..j - 1]))
  {
    var x := s[j - 1];
    assert s[i..j] == s[i..j - 1] + [x];
    KeptSnoc(p, s[i..j - 1], x);
    if p(x) {
      ReversedSnoc(Kept(p, s[i..j - 1]), x);
    } else {
      var k := Kept(p, s[i..j - 1]);
      assert Kept(p, s[i..j]) == k + [] == k;
      assert [] + Reversed(k) == Reversed(k);
    }
  }
}
