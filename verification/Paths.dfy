/** What a strip can do to a text, as a graph: a configuration is a strip state and a place in
    the text. This is the standard the state-set simulation is held to. */
module Paths {
  import opened Strip
  import opened Text
  import opened Regex

  datatype Conf = Conf(s: nat, at: At)

  /** One move from `c` to `d`: an empty one, or one that consults the text. */
  ghost predicate Go(x: Subject, strip: Ops, c: Conf, d: Conf)
    requires c.s < |strip|
  {
    In(x, c.at)
    && ((EpsEdge(strip, c.s, d.s) && d.at == c.at)
        || (d.s == c.s + 1 && x.Consume(strip[c.s], c.at) == Some(d.at)))
  }

  /** One move by an operator of the range [lo, hi). */
  ghost predicate Edge(x: Subject, strip: Ops, lo: nat, hi: nat, c: Conf, d: Conf)
    requires lo <= hi <= |strip|
  {
    lo <= c.s < hi && Go(x, strip, c, d)
  }

  ghost predicate Closed(x: Subject, strip: Ops, lo: nat, hi: nat, X: iset<Conf>)
    requires lo <= hi <= |strip|
  {
    forall c, d :: c in X && Edge(x, strip, lo, hi, c, d) ==> d in X
  }

  /** Attempts begin in the first state of the range, at each position from i1 to i2. */
  ghost predicate Starts(lo: nat, i1: nat, i2: nat, X: iset<Conf>) {
    forall i: nat :: i1 <= i <= i2 ==> Conf(lo, At(i, false)) in X
  }

  /** `c` can be reached by an attempt begun at some position from i1 to i2: it is in every set
      that holds those beginnings and is closed under moves. */
  ghost predicate Reach(x: Subject, strip: Ops, lo: nat, hi: nat, i1: nat, i2: nat, c: Conf)
    requires lo <= hi <= |strip|
  {
    forall X: iset<Conf> :: Closed(x, strip, lo, hi, X) && Starts(lo, i1, i2, X) ==> c in X
  }

  /** State `s` is reached at position `p`, with or without a word boundary just passed. */
  ghost predicate ReachedAt(x: Subject, strip: Ops, lo: nat, hi: nat, j1: nat, i2: nat, s: nat, p: nat)
    requires lo <= hi <= |strip|
  {
    Reach(x, strip, lo, hi, j1, i2, Conf(s, At(p, false))) || Reach(x, strip, lo, hi, j1, i2, Conf(s, At(p, true)))
  }

  /** A path from the first state at `i` to the last state at `j`. */
  ghost predicate Path(x: Subject, strip: Ops, lo: nat, hi: nat, i: nat, j: nat)
    requires lo <= hi <= |strip|
  {
    ReachedAt(x, strip, lo, hi, i, i, hi, j)
  }

  lemma {:induction false} ReachStep(x: Subject, strip: Ops, lo: nat, hi: nat, i1: nat, i2: nat, c: Conf, d: Conf)
    requires lo <= hi <= |strip|
    requires Reach(x, strip, lo, hi, i1, i2, c) && Edge(x, strip, lo, hi, c, d)
    ensures Reach(x, strip, lo, hi, i1, i2, d)
  {
    forall X: iset<Conf> | Closed(x, strip, lo, hi, X) && Starts(lo, i1, i2, X)
      ensures d in X
    {
      assert c in X;
    }
  }

  lemma {:induction false} ReachWider(x: Subject, strip: Ops, lo: nat, hi: nat, i1: nat, i2: nat, k1: nat, k2: nat,
        c: Conf)
    requires lo <= hi <= |strip| && k1 <= i1 && i2 <= k2
    requires Reach(x, strip, lo, hi, i1, i2, c)
    ensures Reach(x, strip, lo, hi, k1, k2, c)
  {
    forall X: iset<Conf> | Closed(x, strip, lo, hi, X) && Starts(lo, k1, k2, X)
      ensures c in X
    {
      assert Starts(lo, i1, i2, X);
    }
  }

  /** What several attempts reach together, one of them reaches alone, and never to its left. */
  lemma {:induction false} ReachFromOne(x: Subject, strip: Ops, lo: nat, hi: nat, i1: nat, i2: nat, c: Conf)
    returns (i: nat)
    requires lo <= hi <= |strip|
    requires Reach(x, strip, lo, hi, i1, i2, c)
    ensures i1 <= i <= i2 && i <= c.at.p
    ensures Reach(x, strip, lo, hi, i, i, c)
  {
    var X := iset d: Conf | exists i: nat :: i1 <= i <= i2 && i <= d.at.p && Reach(x, strip, lo, hi, i, i, d);
    forall d, e | d in X && Edge(x, strip, lo, hi, d, e)
      ensures e in X
    {
      var i: nat :| i1 <= i <= i2 && i <= d.at.p && Reach(x, strip, lo, hi, i, i, d);
      ReachStep(x, strip, lo, hi, i, i, d, e);
    }
    forall i: nat | i1 <= i <= i2
      ensures Conf(lo, At(i, false)) in X
    {
      assert Reach(x, strip, lo, hi, i, i, Conf(lo, At(i, false)));
    }
    assert Closed(x, strip, lo, hi, X) && Starts(lo, i1, i2, X);
    i :| i1 <= i <= i2 && i <= c.at.p && Reach(x, strip, lo, hi, i, i, c);
  }
}
