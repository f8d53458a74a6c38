/** A selection from a list, said by places: what is taken comes from the places that qualify, each
    once, in their order. */
module Selections {
  import opened JsText

  predicate Increasing(ks: seq<nat>) {
    forall i, j :: 0 <= i < j < |ks| ==> ks[i] < ks[j]
  }

  predicate IsPlace<T>(s: seq<T>, p: T -> bool, k: nat) {
    k < |s| && p(s[k])
  }

  /** `ks` are the places at which `p` holds. */
  ghost predicate Places<T>(s: seq<T>, p: T -> bool, ks: seq<nat>) {
    Increasing(ks) && forall k: nat :: k in ks <==> IsPlace(s, p, k)
  }

  predicate TakenAt<T, U(==)>(s: seq<T>, f: T -> U, ks: seq<nat>, r: seq<U>) {
    |r| == |ks| && forall i :: 0 <= i < |ks| ==> ks[i] < |s| && r[i] == f(s[ks[i]])
  }

  /** `r` is `f` of the elements of `s` for which `p` holds, in order. */
  ghost predicate Selects<T, U>(s: seq<T>, p: T -> bool, f: T -> U, r: seq<U>) {
    exists ks :: Places(s, p, ks) && TakenAt(s, f, ks, r)
  }

  /** The same by recursion. */
  function Picked<T, U>(s: seq<T>, p: T -> bool, f: T -> U): seq<U> {
    if s == [] then []
    else
      var n := |s| - 1;
      Picked(s[..n], p, f) + if p(s[n]) then [f(s[n])] else []
  }

  lemma SelectsExactly<T, U>(s: seq<T>, p: T -> bool, f: T -> U, r: seq<U>)
    ensures Selects(s, p, f, r) <==> r == Picked(s, p, f)
  {
    var ks := PickedPlaces(s, p, f);
    if Selects(s, p, f, r) {
      var other :| Places(s, p, other) && TakenAt(s, f, other, r);
      forall k: nat ensures k in ks <==> k in other {
        assert IsPlace(s, p, k) <==> k in other;
      }
      SamePlaces(ks, other);
      assert r == Picked(s, p, f);
    }
  }

  lemma {:induction false} PickedPlaces<T, U>(s: seq<T>, p: T -> bool, f: T -> U)
    returns (ks: seq<nat>)
    ensures Places(s, p, ks) && TakenAt(s, f, ks, Picked(s, p, f))
  {
    if s == [] {
      ks := [];
    } else {
      var n := |s| - 1;
      ks := PickedPlaces(s[..n], p, f);
      OneMorePlace(s, p, ks);
      OneMoreTaken(s, f, ks, Picked(s[..n], p, f));
      if p(s[n]) {
        ks := ks + [n];
      } else {
        WithEmpty(Picked(s[..n], p, f));
      }
    }
  }

  lemma OneMoreTaken<T, U>(s: seq<T>, f: T -> U, ks: seq<nat>, r: seq<U>)
    requires s != [] && TakenAt(s[..|s| - 1], f, ks, r)
    ensures TakenAt(s, f, ks, r) && TakenAt(s, f, ks + [|s| - 1], r + [f(s[|s| - 1])])
  {
  }

  lemma OneMorePlace<T>(s: seq<T>, p: T -> bool, ks: seq<nat>)
    requires s != [] && Places(s[..|s| - 1], p, ks)
    ensures Places(s, p, if p(s[|s| - 1]) then ks + [|s| - 1] else ks)
    ensures forall i :: 0 <= i < |ks| ==> ks[i] < |s| - 1
  {
    var n := |s| - 1;
    forall k: nat ensures k in ks <==> k != n && IsPlace(s, p, k) {
      assert k in ks <==> IsPlace(s[..n], p, k);
    }
    assert forall i :: 0 <= i < |ks| ==> ks[i] in ks;
  }

  function Shifted(ks: seq<nat>, from: nat): seq<nat> {
    seq(|ks|, i requires 0 <= i < |ks| => from + ks[i])
  }

  lemma InShifted(ks: seq<nat>, from: nat, k: nat)
    ensures k in Shifted(ks, from) <==> from <= k && k - from in ks
  {
    if k >= from && k - from in ks {
      var i :| 0 <= i < |ks| && ks[i] == k - from;
      assert Shifted(ks, from)[i] == k;
    }
  }

  /** The places in the end of a list, counted from its beginning. */
  lemma ShiftedPlaces<T>(s: seq<T>, from: nat, p: T -> bool, ks: seq<nat>)
    requires from <= |s| && Places(s[from..], p, ks)
    ensures Increasing(Shifted(ks, from))
    ensures forall k: nat :: k in Shifted(ks, from) <==> from <= k && IsPlace(s, p, k)
  {
    forall k: nat ensures k in Shifted(ks, from) <==> from <= k && IsPlace(s, p, k) {
      InShifted(ks, from, k);
      if from <= k { assert k - from in ks <==> IsPlace(s[from..], p, k - from); }
    }
  }

  lemma ShiftedTaken<T, U>(s: seq<T>, from: nat, f: T -> U, ks: seq<nat>, r: seq<U>)
    requires from <= |s| && TakenAt(s[from..], f, ks, r)
    ensures TakenAt(s, f, Shifted(ks, from), r)
  {
  }

  /** Increasing lists of the same places are the same. */
  lemma {:induction false} SamePlaces(a: seq<nat>, b: seq<nat>)
    requires Increasing(a) && Increasing(b)
    requires forall k: nat :: k in a <==> k in b
    ensures a == b
  {
    HasSome(a);
    HasSome(b);
    if a != [] {
      assert a[|a| - 1] in b;
      assert b[|b| - 1] in a;
      BeforeLast(a);
      BeforeLast(b);
      FrontAndLast(a);
      FrontAndLast(b);
      assert a[|a| - 1] == b[|b| - 1];
      var x, y := a[..|a| - 1], b[..|b| - 1];
      forall k: nat ensures k in x <==> k in y {
        assert k in a <==> k in b;
      }
      SamePlaces(x, y);
    }
  }

  lemma HasSome(a: seq<nat>)
    ensures a != [] <==> exists k: nat :: k in a
  {
    assert a != [] ==> a[0] in a;
  }

  lemma BeforeLast(a: seq<nat>)
    requires a != [] && Increasing(a)
    ensures forall k: nat :: k in a[..|a| - 1] <==> k in a && k != a[|a| - 1]
    ensures forall k: nat :: k in a ==> k <= a[|a| - 1]
  {
    FrontAndLast(a);
  }
}
