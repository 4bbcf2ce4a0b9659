/** Frames submitted for queueing, by number, and those a full queue dropped. */
module Submissions {
  const QUEUE_MAX: nat := 50

  function ToSet(q: seq<nat>): set<nat>
  {
    set n | n in q
  }

  /** The first `n` submissions in order, without the dropped ones. */
  function Undropped(n: nat, dropped: set<nat>): seq<nat>
  {
    if n == 0 then [] else Undropped(n - 1, dropped) + (if n - 1 in dropped then [] else [n - 1])
  }

  lemma {:induction false} UndroppedElements(n: nat, dropped: set<nat>)
    ensures forall i :: 0 <= i < |Undropped(n, dropped)| ==>
              Undropped(n, dropped)[i] < n && Undropped(n, dropped)[i] !in dropped
    ensures forall i, j :: 0 <= i < j < |Undropped(n, dropped)| ==> Undropped(n, dropped)[i] < Undropped(n, dropped)[j]
  {
    if n > 0 {
      UndroppedElements(n - 1, dropped);
    }
  }

  lemma {:induction false} UndroppedBeyond(n: nat, dropped: set<nat>, more: set<nat>)
    requires forall d :: d in more ==> d >= n
    ensures Undropped(n, dropped + more) == Undropped(n, dropped)
  {
    if n > 0 {
      UndroppedBeyond(n - 1, dropped, more);
    }
  }

  /** Dropping one more submission takes exactly it out of the ledger. */
  lemma {:induction false} DropOne(n: nat, dropped: set<nat>, a: seq<nat>, d: nat, b: seq<nat>)
    requires Undropped(n, dropped) == a + [d] + b
    ensures Undropped(n, dropped + {d}) == a + b
  {
    var u := Undropped(n, dropped);
    UndroppedElements(n, dropped);
    assert u[|a|] == d && d < n;
    if n - 1 in dropped {
      DropOne(n - 1, dropped, a, d, b);
    } else {
      assert u == Undropped(n - 1, dropped) + [n - 1];
      if b == [] {
        assert u[|u| - 1] == d == n - 1;
        assert Undropped(n - 1, dropped) == u[..|u| - 1] == a;
        UndroppedBeyond(n - 1, dropped, {d});
        assert a + b == a;
      } else {
        var b1 := b[..|b| - 1];
        assert u[|u| - 1] == b[|b| - 1] == n - 1;
        assert Undropped(n - 1, dropped) == u[..|u| - 1] == a + [d] + b1;
        DropOne(n - 1, dropped, a, d, b1);
        assert d != n - 1;
        assert a + b == a + b1 + [n - 1];
      }
    }
  }

  lemma {:induction false} DropPrefix(n: nat, dropped: set<nat>, a: seq<nat>, p: seq<nat>, b: seq<nat>)
    requires Undropped(n, dropped) == a + p + b
    ensures Undropped(n, dropped + ToSet(p)) == a + b
    decreases |p|
  {
    if p == [] {
      assert dropped + ToSet(p) == dropped && a + p + b == a + b;
    } else {
      assert a + p + b == a + [p[0]] + (p[1..] + b);
      DropOne(n, dropped, a, p[0], p[1..] + b);
      assert a + (p[1..] + b) == a + p[1..] + b;
      DropPrefix(n, dropped + {p[0]}, a, p[1..], b);
      assert dropped + {p[0]} + ToSet(p[1..]) == dropped + ToSet(p);
    }
  }
}
