/** Sequence operations the simulator's vectors need.

    RemoveAt erases one element.  Kept and Taken are the two halves of a loop that walks a
    vector downwards and moves some of its elements out: what stays behind keeps its order, and
    what is moved out is pushed in the order in which the walk meets it, the last element
    first. */
module Seqs {

  function RemoveAt<T>(q: seq<T>, i: nat): (r: seq<T>)
    requires i < |q|
    ensures |r| == |q| - 1
  {
    q[..i] + q[i + 1..]
  }

  /** What stays behind, in order. */
  function Kept<T>(f: T -> bool, q: seq<T>): (r: seq<T>)
    ensures |r| <= |q|
  {
    if q == [] then [] else if f(q[0]) then Kept(f, q[1..]) else [q[0]] + Kept(f, q[1..])
  }

  /** What is moved out: a downward walk meets the last element first. */
  function Taken<T>(f: T -> bool, q: seq<T>): (r: seq<T>)
    ensures |r| <= |q|
  {
    if q == [] then [] else if f(q[0]) then Taken(f, q[1..]) + [q[0]] else Taken(f, q[1..])
  }

  lemma {:induction false} KeptMembers<T(!new)>(f: T -> bool, q: seq<T>)
    ensures forall x :: x in Kept(f, q) <==> x in q && !f(x)
    ensures forall x :: x in Taken(f, q) <==> x in q && f(x)
  {
    if q != [] {
      KeptMembers(f, q[1..]);
      assert q == [q[0]] + q[1..];
    }
  }

  lemma {:induction false} NothingTaken<T(!new)>(f: T -> bool, q: seq<T>)
    requires forall x :: x in q ==> !f(x)
    ensures Taken(f, q) == [] && Kept(f, q) == q
  {
    if q != [] {
      assert q[0] in q && forall x :: x in q[1..] ==> x in q;
      NothingTaken(f, q[1..]);
    }
  }

  lemma {:induction false} TakenKeptCount<T>(f: T -> bool, q: seq<T>)
    ensures |Taken(f, q)| + |Kept(f, q)| == |q|
  {
    if q != [] {
      TakenKeptCount(f, q[1..]);
    }
  }

  function Reversed<T>(q: seq<T>): seq<T> {
    if q == [] then [] else Reversed(q[1..]) + [q[0]]
  }

  /** What is moved out is what would otherwise stay, in reverse order. */
  lemma {:induction false} TakenIsReversed<T>(f: T -> bool, g: T -> bool, q: seq<T>)
    requires forall x :: x in q ==> g(x) == !f(x)
    ensures Taken(f, q) == Reversed(Kept(g, q))
  {
    if q != [] {
      assert q[0] in q && forall x :: x in q[1..] ==> x in q;
      TakenIsReversed(f, g, q[1..]);
    }
  }

  /** Editing and erasing at the meeting point of the two parts. */
  lemma DownEdit<T>(q: seq<T>, rest: seq<T>, i: nat, x: T)
    requires i < |q|
    ensures (q[..i + 1] + rest)[i := x] == q[..i] + ([x] + rest)
    ensures RemoveAt((q[..i + 1] + rest)[i := x], i) == q[..i] + rest
  {
  }

  lemma RemoveAtMultiset<T>(q: seq<T>, i: nat)
    requires i < |q|
    ensures multiset(RemoveAt(q, i)) + multiset{q[i]} == multiset(q)
  {
    assert q == q[..i] + [q[i]] + q[i + 1..];
  }
}
