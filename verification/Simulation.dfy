/** What the state sets mean: at each position they are exactly the states some path has reached.
    Shared by `slow` and `fast`, which differ in where attempts may begin. */
module Simulation {
  import opened Strip
  import opened Text
  import opened Regex
  import opened Paths
  import opened Stepper

  // ----- anchors at one position -----

  ghost predicate Live(x: Subject, op: Sop, p: nat)
    requires In(x, At(p, false))
  {
    (op.OBol? && x.BolAt(p)) || (op.OEol? && x.EolAt(p))
  }

  ghost predicate LiveWord(x: Subject, op: Sop, p: nat)
    requires In(x, At(p, false))
  {
    (op.OBow? && x.BowAt(p)) || (op.OEow? && x.EowAt(p))
  }

  /** Closed under empty moves and every line anchor that holds at `p`. */
  ghost predicate LineClosed(x: Subject, strip: Ops, lo: nat, hi: nat, p: nat, X: set<nat>)
    requires lo <= hi <= |strip| && In(x, At(p, false))
  {
    EpsClosed(strip, lo, hi, X) && forall s :: lo <= s < hi && s in X && Live(x, strip[s], p) ==> s + 1 in X
  }

  ghost predicate LineClosure(x: Subject, strip: Ops, lo: nat, hi: nat, p: nat, st0: set<nat>, st: set<nat>)
    requires lo <= hi <= |strip| && In(x, At(p, false))
  {
    st0 <= st && LineClosed(x, strip, lo, hi, p, st)
    && forall X :: st0 <= X && LineClosed(x, strip, lo, hi, p, X) ==> st <= X
  }

  /** Closed under empty moves, and past every word boundary of `st0` that holds at `p`. */
  ghost predicate WordClosed(x: Subject, strip: Ops, lo: nat, hi: nat, p: nat, st0: set<nat>, X: set<nat>)
    requires lo <= hi <= |strip| && In(x, At(p, false))
  {
    EpsClosed(strip, lo, hi, X) && st0 <= X
    && forall s :: lo <= s < hi && s in st0 && LiveWord(x, strip[s], p) ==> s + 1 in X
  }

  ghost predicate WordClosure(x: Subject, strip: Ops, lo: nat, hi: nat, p: nat, st0: set<nat>, st: set<nat>)
    requires lo <= hi <= |strip| && In(x, At(p, false))
  {
    WordClosed(x, strip, lo, hi, p, st0, st)
    && forall X :: WordClosed(x, strip, lo, hi, p, st0, X) ==> st <= X
  }

  // ----- what a state set says about paths -----

  /** Before the anchors of position `p`. Attempts from [i1, i2] are all accounted for; what is in
      the set comes from attempts of [j1, i2]. */
  ghost predicate Entered(x: Subject, strip: Ops, lo: nat, hi: nat, i1: nat, j1: nat, i2: nat, p: nat, st: set<nat>)
    requires lo <= hi <= |strip|
  {
    EpsClosed(strip, lo, hi, st)
    && (i1 <= p <= i2 ==> lo in st)
    && (forall c, d :: Reach(x, strip, lo, hi, i1, i2, c) && Edge(x, strip, lo, hi, c, d) && c.at.p < p && d.at.p == p
          ==> d.s in st)
    && (forall s :: s in st ==> Reach(x, strip, lo, hi, j1, i2, Conf(s, At(p, false))))
  }

  /** After the anchors of position `p`: the set holds the states paths have reached here. */
  ghost predicate Settled(x: Subject, strip: Ops, lo: nat, hi: nat, i1: nat, j1: nat, i2: nat, p: nat, st: set<nat>)
    requires lo <= hi <= |strip|
  {
    (forall s, w :: Reach(x, strip, lo, hi, i1, i2, Conf(s, At(p, w))) ==> s in st)
    && forall s :: s in st ==> ReachedAt(x, strip, lo, hi, j1, i2, s, p)
  }

  lemma {:induction false} SettledFromClosures(x: Subject, strip: Ops, lo: nat, hi: nat, i1: nat, j1: nat, i2: nat,
        p: nat, st0: set<nat>, st1: set<nat>, st2: set<nat>)
    requires lo <= hi <= |strip| && In(x, At(p, false))
    requires Entered(x, strip, lo, hi, i1, j1, i2, p, st0)
    requires LineClosure(x, strip, lo, hi, p, st0, st1) && WordClosure(x, strip, lo, hi, p, st1, st2)
    ensures Settled(x, strip, lo, hi, i1, j1, i2, p, st2)
  {
    NothingMissed(x, strip, lo, hi, i1, j1, i2, p, st0, st1, st2);
    LineSound(x, strip, lo, hi, j1, i2, p, st0, st1);
    WordSound(x, strip, lo, hi, j1, i2, p, st1, st2);
  }

  lemma {:induction false} NothingMissed(x: Subject, strip: Ops, lo: nat, hi: nat, i1: nat, j1: nat, i2: nat, p: nat,
        st0: set<nat>, st1: set<nat>, st2: set<nat>)
    requires lo <= hi <= |strip| && In(x, At(p, false))
    requires Entered(x, strip, lo, hi, i1, j1, i2, p, st0)
    requires LineClosure(x, strip, lo, hi, p, st0, st1) && WordClosure(x, strip, lo, hi, p, st1, st2)
    ensures forall s, w :: Reach(x, strip, lo, hi, i1, i2, Conf(s, At(p, w))) ==> s in st2
  {
    var Y := iset c: Conf | Reach(x, strip, lo, hi, i1, i2, c) && (c.at.p == p ==> c.s in if c.at.w then st2 else st1);
    forall c, d | c in Y && Edge(x, strip, lo, hi, c, d)
      ensures d in Y
    {
      ReachStep(x, strip, lo, hi, i1, i2, c, d);
      if d.at.p == p && c.at.p == p {
        SamePosition(x, strip, lo, hi, p, st1, st2, c, d);
      }
    }
    forall i: nat | i1 <= i <= i2
      ensures Conf(lo, At(i, false)) in Y
    {
      assert Reach(x, strip, lo, hi, i1, i2, Conf(lo, At(i, false)));
    }
    assert Closed(x, strip, lo, hi, Y) && Starts(lo, i1, i2, Y);
    forall s, w | Reach(x, strip, lo, hi, i1, i2, Conf(s, At(p, w)))
      ensures s in st2
    {
      assert Conf(s, At(p, w)) in Y;
    }
  }

  /** A move within one position stays within the closures. */
  lemma {:induction false} SamePosition(x: Subject, strip: Ops, lo: nat, hi: nat, p: nat, st1: set<nat>,
        st2: set<nat>, c: Conf, d: Conf)
    requires lo <= hi <= |strip| && In(x, At(p, false)) && c.at.p == p && d.at.p == p
    requires LineClosed(x, strip, lo, hi, p, st1) && WordClosed(x, strip, lo, hi, p, st1, st2)
    requires c.s in (if c.at.w then st2 else st1) && Edge(x, strip, lo, hi, c, d)
    ensures d.s in (if d.at.w then st2 else st1)
  {
    if EpsEdge(strip, c.s, d.s) && d.at == c.at {
    } else if c.at == d.at {
      assert Live(x, strip[c.s], p);
    } else {
      assert LiveWord(x, strip[c.s], p);
    }
  }

  lemma {:induction false} LineSound(x: Subject, strip: Ops, lo: nat, hi: nat, j1: nat, i2: nat, p: nat,
        st0: set<nat>, st1: set<nat>)
    requires lo <= hi <= |strip| && In(x, At(p, false))
    requires LineClosure(x, strip, lo, hi, p, st0, st1)
    requires forall s :: s in st0 ==> Reach(x, strip, lo, hi, j1, i2, Conf(s, At(p, false)))
    ensures forall s :: s in st1 ==> Reach(x, strip, lo, hi, j1, i2, Conf(s, At(p, false)))
  {
    var a := At(p, false);
    var X := set s | s in st1 && Reach(x, strip, lo, hi, j1, i2, Conf(s, a));
    forall s, t | lo <= s < hi && s in X && EpsEdge(strip, s, t)
      ensures t in X
    {
      ReachStep(x, strip, lo, hi, j1, i2, Conf(s, a), Conf(t, a));
    }
    forall s | lo <= s < hi && s in X && Live(x, strip[s], p)
      ensures s + 1 in X
    {
      ReachStep(x, strip, lo, hi, j1, i2, Conf(s, a), Conf(s + 1, a));
    }
    assert st0 <= X && LineClosed(x, strip, lo, hi, p, X);
  }

  lemma {:induction false} WordSound(x: Subject, strip: Ops, lo: nat, hi: nat, j1: nat, i2: nat, p: nat,
        st1: set<nat>, st2: set<nat>)
    requires lo <= hi <= |strip| && In(x, At(p, false))
    requires WordClosure(x, strip, lo, hi, p, st1, st2)
    requires forall s :: s in st1 ==> Reach(x, strip, lo, hi, j1, i2, Conf(s, At(p, false)))
    ensures forall s :: s in st2 ==> ReachedAt(x, strip, lo, hi, j1, i2, s, p)
  {
    var a, b := At(p, false), At(p, true);
    var X := set s | s in st2 && ReachedAt(x, strip, lo, hi, j1, i2, s, p);
    forall s, t | lo <= s < hi && s in X && EpsEdge(strip, s, t)
      ensures t in X
    {
      if Reach(x, strip, lo, hi, j1, i2, Conf(s, a)) {
        ReachStep(x, strip, lo, hi, j1, i2, Conf(s, a), Conf(t, a));
      } else {
        ReachStep(x, strip, lo, hi, j1, i2, Conf(s, b), Conf(t, b));
      }
    }
    forall s | lo <= s < hi && s in st1 && LiveWord(x, strip[s], p)
      ensures s + 1 in X
    {
      ReachStep(x, strip, lo, hi, j1, i2, Conf(s, a), Conf(s + 1, b));
    }
    assert WordClosed(x, strip, lo, hi, p, st1, X);
  }

  // ----- moving on to the next position -----

  /** `begun`: what an attempt that begins here is in before any anchor. */
  ghost predicate IsFresh(strip: Ops, lo: nat, hi: nat, begun: set<nat>)
    requires lo <= hi <= |strip|
  {
    EpsClosed(strip, lo, hi, begun) && lo in begun
    && forall X :: EpsClosed(strip, lo, hi, X) && lo in X ==> begun <= X
  }

  /** The operators that take a character. */
  predicate Taking(op: Sop) { op.OChar? || op.OAny? || op.OAnyOf? }

  /** No operator that takes a character leads straight into a state a fresh attempt begins in. */
  ghost predicate NoReentry(strip: Ops, lo: nat, hi: nat)
    requires lo <= hi <= |strip|
  {
    forall F: set<nat>, s :: IsFresh(strip, lo, hi, F) && lo <= s < hi && Taking(strip[s])
      ==> s + 1 !in F
  }

  /** Nothing but fresh attempts is under way at `p`: whatever takes the character before it lands
      in a state a fresh attempt begins in. */
  ghost predicate Cold(x: Subject, strip: Ops, lo: nat, hi: nat, i1: nat, i2: nat, p: nat)
    requires lo <= hi <= |strip|
  {
    forall c, d, F :: Reach(x, strip, lo, hi, i1, i2, c) && Edge(x, strip, lo, hi, c, d) && IsFresh(strip, lo, hi, F)
      ==> c.at.p < p && d.at.p == p ==> d.s in F
  }

  lemma {:induction false} FirstIsCold(x: Subject, strip: Ops, lo: nat, hi: nat, i1: nat, i2: nat)
    requires lo <= hi <= |strip|
    ensures Cold(x, strip, lo, hi, i1, i2, i1)
  {
    forall c | Reach(x, strip, lo, hi, i1, i2, c)
      ensures c.at.p >= i1
    {
      var i := ReachFromOne(x, strip, lo, hi, i1, i2, c);
    }
  }

  /** The set after a step is the fresh set just when the new position is cold. */
  lemma {:induction false} ColdIffFresh(x: Subject, strip: Ops, lo: nat, hi: nat, i1: nat, j1: nat, i2: nat, p: nat,
        tmp: set<nat>, begun: set<nat>, st: set<nat>)
    requires lo <= hi <= |strip| && x.Valid() && x.begin <= p < x.end && i1 <= j1
    requires Settled(x, strip, lo, hi, i1, j1, i2, p, tmp) && IsFresh(strip, lo, hi, begun)
    requires IsStep(strip, x.sets, lo, hi, tmp, Ch(x.text[p]), begun, st)
    requires Entered(x, strip, lo, hi, i1, j1, i2, p + 1, st)
    ensures st == begun <==> Cold(x, strip, lo, hi, i1, i2, p + 1)
  {
    if Cold(x, strip, lo, hi, i1, i2, p + 1) {
      forall s | lo <= s < hi && s in tmp && Fires(x.sets, strip[s], Ch(x.text[p]))
        ensures s + 1 in begun
      {
        assert ReachedAt(x, strip, lo, hi, j1, i2, s, p);
        var w := !Reach(x, strip, lo, hi, j1, i2, Conf(s, At(p, false)));
        CharEdge(x, strip, lo, hi, s, p, w);
        ReachWider(x, strip, lo, hi, j1, i2, i1, i2, Conf(s, At(p, w)));
      }
      assert Admits(strip, x.sets, lo, hi, tmp, Ch(x.text[p]), begun, begun);
    }
    if st == begun {
      forall F | IsFresh(strip, lo, hi, F)
        ensures F == begun
      {
      }
    }
  }

  lemma {:induction false} FreshSound(x: Subject, strip: Ops, lo: nat, hi: nat, j1: nat, i2: nat, p: nat,
        begun: set<nat>)
    requires lo <= hi <= |strip| && In(x, At(p, false)) && j1 <= p <= i2 && IsFresh(strip, lo, hi, begun)
    ensures forall s :: s in begun ==> Reach(x, strip, lo, hi, j1, i2, Conf(s, At(p, false)))
  {
    var a := At(p, false);
    var X := set s | s in begun && Reach(x, strip, lo, hi, j1, i2, Conf(s, a));
    forall s, t | lo <= s < hi && s in X && EpsEdge(strip, s, t)
      ensures t in X
    {
      ReachStep(x, strip, lo, hi, j1, i2, Conf(s, a), Conf(t, a));
    }
    assert Reach(x, strip, lo, hi, j1, i2, Conf(lo, a));
    assert EpsClosed(strip, lo, hi, X) && lo in X;
  }

  /** A move that changes position is by an operator that takes the character there. */
  lemma {:induction false} CharMove(x: Subject, strip: Ops, lo: nat, hi: nat, c: Conf, d: Conf)
    requires lo <= hi <= |strip| && Edge(x, strip, lo, hi, c, d) && c.at.p != d.at.p
    ensures c.at.p < x.end && d == Conf(c.s + 1, At(c.at.p + 1, false)) && Fires(x.sets, strip[c.s], Ch(x.text[c.at.p]))
  {
  }

  lemma {:induction false} CharEdge(x: Subject, strip: Ops, lo: nat, hi: nat, s: nat, p: nat, w: bool)
    requires lo <= s < hi <= |strip| && x.Valid() && x.begin <= p < x.end && Fires(x.sets, strip[s], Ch(x.text[p]))
    ensures Edge(x, strip, lo, hi, Conf(s, At(p, w)), Conf(s + 1, At(p + 1, false)))
  {
  }

  /** The step over the character at `p`, from the settled set there, enters position p + 1.
      `base` is what the step starts from: nothing, or the fresh states if attempts may begin there. */
  lemma {:induction false} EnterNext(x: Subject, strip: Ops, lo: nat, hi: nat, i1: nat, j1: nat, i2: nat, p: nat,
        tmp: set<nat>, base: set<nat>, st: set<nat>)
    requires lo <= hi <= |strip| && x.Valid() && x.begin <= p < x.end
    requires Settled(x, strip, lo, hi, i1, j1, i2, p, tmp)
    requires IsStep(strip, x.sets, lo, hi, tmp, Ch(x.text[p]), base, st)
    requires i1 <= p + 1 <= i2 ==> lo in base
    requires forall s :: s in base ==> Reach(x, strip, lo, hi, j1, i2, Conf(s, At(p + 1, false)))
    ensures Entered(x, strip, lo, hi, i1, j1, i2, p + 1, st)
  {
    forall c, d | Reach(x, strip, lo, hi, i1, i2, c) && Edge(x, strip, lo, hi, c, d) && c.at.p < p + 1
      && d.at.p == p + 1
      ensures d.s in st
    {
      CharMove(x, strip, lo, hi, c, d);
      assert c == Conf(c.s, At(p, c.at.w));
    }
    EnterSound(x, strip, lo, hi, j1, i2, p, tmp, base, st);
  }

  lemma {:induction false} EnterSound(x: Subject, strip: Ops, lo: nat, hi: nat, j1: nat, i2: nat, p: nat,
        tmp: set<nat>, base: set<nat>, st: set<nat>)
    requires lo <= hi <= |strip| && x.Valid() && x.begin <= p < x.end
    requires forall s :: s in tmp ==> ReachedAt(x, strip, lo, hi, j1, i2, s, p)
    requires IsStep(strip, x.sets, lo, hi, tmp, Ch(x.text[p]), base, st)
    requires forall s :: s in base ==> Reach(x, strip, lo, hi, j1, i2, Conf(s, At(p + 1, false)))
    ensures forall s :: s in st ==> Reach(x, strip, lo, hi, j1, i2, Conf(s, At(p + 1, false)))
  {
    var a := At(p + 1, false);
    var X := set s | s in st && Reach(x, strip, lo, hi, j1, i2, Conf(s, a));
    forall s, t | lo <= s < hi && s in X && EpsEdge(strip, s, t)
      ensures t in X
    {
      ReachStep(x, strip, lo, hi, j1, i2, Conf(s, a), Conf(t, a));
    }
    forall s | lo <= s < hi && s in tmp && Fires(x.sets, strip[s], Ch(x.text[p]))
      ensures s + 1 in X
    {
      assert ReachedAt(x, strip, lo, hi, j1, i2, s, p);
      var w := !Reach(x, strip, lo, hi, j1, i2, Conf(s, At(p, false)));
      CharEdge(x, strip, lo, hi, s, p, w);
      ReachStep(x, strip, lo, hi, j1, i2, Conf(s, At(p, w)), Conf(s + 1, a));
    }
    assert Admits(strip, x.sets, lo, hi, tmp, Ch(x.text[p]), base, X);
  }

  /** The first position: nothing has moved yet. */
  lemma {:induction false} EnterFirst(x: Subject, strip: Ops, lo: nat, hi: nat, i1: nat, i2: nat, begun: set<nat>)
    requires lo <= hi <= |strip| && In(x, At(i1, false)) && i1 <= i2 && IsFresh(strip, lo, hi, begun)
    ensures Entered(x, strip, lo, hi, i1, i1, i2, i1, begun)
  {
    FreshSound(x, strip, lo, hi, i1, i2, i1, begun);
    forall c | Reach(x, strip, lo, hi, i1, i2, c)
      ensures c.at.p >= i1
    {
      var i := ReachFromOne(x, strip, lo, hi, i1, i2, c);
    }
  }

  /** Once no attempt has a state left, none will. */
  lemma {:induction false} AllDead(x: Subject, strip: Ops, lo: nat, hi: nat, i1: nat, i2: nat, p: nat, q: nat,
        st: set<nat>, s: nat)
    requires lo <= hi <= |strip| && i2 <= p < q
    requires Settled(x, strip, lo, hi, i1, i1, i2, p, st) && st == {}
    ensures !ReachedAt(x, strip, lo, hi, i1, i2, s, q)
  {
    var X := iset c: Conf | Reach(x, strip, lo, hi, i1, i2, c) && c.at.p < p;
    forall c, d | c in X && Edge(x, strip, lo, hi, c, d)
      ensures d in X
    {
      ReachStep(x, strip, lo, hi, i1, i2, c, d);
      if d.at.p != c.at.p {
        CharMove(x, strip, lo, hi, c, d);
        assert d == Conf(d.s, At(d.at.p, d.at.w));
        assert d.s !in st;
      }
    }
    forall i: nat | i1 <= i <= i2
      ensures Conf(lo, At(i, false)) in X
    {
      assert Reach(x, strip, lo, hi, i1, i2, Conf(lo, At(i, false)));
      assert lo !in st && !Reach(x, strip, lo, hi, i1, i2, Conf(lo, At(p, false)));
    }
    assert Closed(x, strip, lo, hi, X) && Starts(lo, i1, i2, X);
  }

  // ----- the code that settles a position (engine.c, lines 731-761 and 820-851) -----

  ghost function Active(strip: Ops, sets: seq<set<char>>, lo: nat, hi: nat, flag: Symbol): set<nat>
    requires lo <= hi <= |strip|
  {
    set s | lo <= s < hi && Fires(sets, strip[s], flag)
  }

  /** Anchors already passed: both sides of them are in the set. */
  ghost function Passed(strip: Ops, sets: seq<set<char>>, lo: nat, hi: nat, flag: Symbol, st: set<nat>): set<nat>
    requires lo <= hi <= |strip|
  {
    set s | s in Active(strip, sets, lo, hi, flag) && s in st && s + 1 in st
  }

  ghost predicate FlagClosed(strip: Ops, sets: seq<set<char>>, lo: nat, hi: nat, flag: Symbol, X: set<nat>)
    requires lo <= hi <= |strip|
  {
    EpsClosed(strip, lo, hi, X) && forall s :: lo <= s < hi && s in X && Fires(sets, strip[s], flag) ==> s + 1 in X
  }

  /** `n` steps with a code, one after the other. */
  ghost predicate Rounded(strip: Ops, sets: seq<set<char>>, lo: nat, hi: nat, flag: Symbol, n: nat, st0: set<nat>,
        st: set<nat>)
    requires lo <= hi <= |strip|
  {
    if n == 0 then st == st0
    else exists m :: Rounded(strip, sets, lo, hi, flag, n - 1, st0, m) && IsStep(strip, sets, lo, hi, m, flag, m, st)
  }

  /** Enough rounds reach the fixed point, because each round that changes anything passes an
      anchor not passed before. */
  method Rounds(strip: Ops, sets: seq<set<char>>, lo: nat, hi: nat, st0: set<nat>, flag: Symbol, n: nat)
    returns (st: set<nat>)
    requires RangeOk(strip, lo, hi) && EpsClosed(strip, lo, hi, st0)
    ensures st0 <= st && EpsClosed(strip, lo, hi, st) && Rounded(strip, sets, lo, hi, flag, n, st0, st)
    ensures |Active(strip, sets, lo, hi, flag)| <= n ==> FlagClosed(strip, sets, lo, hi, flag, st)
    ensures forall X :: st0 <= X && FlagClosed(strip, sets, lo, hi, flag, X) ==> st <= X
  {
    st := st0;
    var i := n;
    while i > 0
      invariant 0 <= i <= n
      invariant st0 <= st && EpsClosed(strip, lo, hi, st) && Rounded(strip, sets, lo, hi, flag, n - i, st0, st)
      invariant forall X :: st0 <= X && FlagClosed(strip, sets, lo, hi, flag, X) ==> st <= X
      invariant FlagClosed(strip, sets, lo, hi, flag, st) || |Passed(strip, sets, lo, hi, flag, st)| >= n - i
    {
      ghost var before := st;
      st := Step(strip, sets, lo, hi, st, flag, st);
      RoundStep(strip, sets, lo, hi, flag, before, st);
      i := i - 1;
    }
    if !FlagClosed(strip, sets, lo, hi, flag, st) && |Active(strip, sets, lo, hi, flag)| <= n {
      AllPassed(strip, sets, lo, hi, flag, st);
    }
  }

  lemma {:induction false} RoundStep(strip: Ops, sets: seq<set<char>>, lo: nat, hi: nat, flag: Symbol,
        before: set<nat>, st: set<nat>)
    requires lo <= hi <= |strip| && EpsClosed(strip, lo, hi, before)
    requires IsStep(strip, sets, lo, hi, before, flag, before, st)
    ensures forall X :: before <= X && FlagClosed(strip, sets, lo, hi, flag, X) ==> st <= X
    ensures FlagClosed(strip, sets, lo, hi, flag, before) ==> st == before
    ensures !FlagClosed(strip, sets, lo, hi, flag, before) ==>
      |Passed(strip, sets, lo, hi, flag, st)| > |Passed(strip, sets, lo, hi, flag, before)|
  {
    forall X | before <= X && FlagClosed(strip, sets, lo, hi, flag, X)
      ensures st <= X
    {
      assert Admits(strip, sets, lo, hi, before, flag, before, X);
    }
    if !FlagClosed(strip, sets, lo, hi, flag, before) {
      var s :| lo <= s < hi && s in before && Fires(sets, strip[s], flag) && s + 1 !in before;
      var P, Q := Passed(strip, sets, lo, hi, flag, before), Passed(strip, sets, lo, hi, flag, st);
      assert s in Q && s !in P && P <= Q;
      Subset(P, Q);
    }
  }

  lemma {:induction false} AllPassed(strip: Ops, sets: seq<set<char>>, lo: nat, hi: nat, flag: Symbol, st: set<nat>)
    requires lo <= hi <= |strip| && EpsClosed(strip, lo, hi, st)
    requires |Passed(strip, sets, lo, hi, flag, st)| >= |Active(strip, sets, lo, hi, flag)|
    ensures FlagClosed(strip, sets, lo, hi, flag, st)
  {
    var P, A := Passed(strip, sets, lo, hi, flag, st), Active(strip, sets, lo, hi, flag);
    Subset(P, A);
    forall s | lo <= s < hi && s in st && Fires(sets, strip[s], flag)
      ensures s + 1 in st
    {
      assert s in A && s in P;
    }
  }

  /** Where an operator stands in a range. */
  ghost function Where(strip: Ops, lo: nat, hi: nat, op: Sop): set<nat>
    requires lo <= hi <= |strip|
  {
    set s | lo <= s < hi && strip[s] == op
  }

  /** nbol and neol are at least the numbers of ^ and $ in the range. */
  ghost predicate Counted(strip: Ops, lo: nat, hi: nat, nbol: nat, neol: nat)
    requires lo <= hi <= |strip|
  {
    |Where(strip, lo, hi, OBol)| <= nbol && |Where(strip, lo, hi, OEol)| <= neol
  }

  lemma {:induction false} CountedWithin(strip: Ops, lo: nat, hi: nat, l: nat, h: nat, nbol: nat, neol: nat)
    requires lo <= l <= h <= hi <= |strip| && Counted(strip, lo, hi, nbol, neol)
    ensures Counted(strip, l, h, nbol, neol)
  {
    Subset(Where(strip, l, h, OBol), Where(strip, lo, hi, OBol));
    Subset(Where(strip, l, h, OEol), Where(strip, lo, hi, OEol));
  }

  /** The code for a line flag stands for the anchors that hold here. */
  ghost predicate Signals(x: Subject, p: nat, flag: Symbol)
    requires In(x, At(p, false))
  {
    (flag.Bol? || flag.Eol? || flag.BolEol?)
    && (x.BolAt(p) <==> flag.Bol? || flag.BolEol?) && (x.EolAt(p) <==> flag.Eol? || flag.BolEol?)
  }

  lemma {:induction false} RoundsAreLineClosure(x: Subject, strip: Ops, lo: nat, hi: nat, p: nat, flag: Symbol,
        st0: set<nat>, st: set<nat>)
    requires lo <= hi <= |strip| && In(x, At(p, false)) && Signals(x, p, flag)
    requires st0 <= st && FlagClosed(strip, x.sets, lo, hi, flag, st)
    requires forall X :: st0 <= X && FlagClosed(strip, x.sets, lo, hi, flag, X) ==> st <= X
    ensures LineClosure(x, strip, lo, hi, p, st0, st)
  {
    forall X
      ensures LineClosed(x, strip, lo, hi, p, X) <==> FlagClosed(strip, x.sets, lo, hi, flag, X)
    {
      assert forall s :: lo <= s < hi ==> (Live(x, strip[s], p) <==> Fires(x.sets, strip[s], flag));
    }
  }

  lemma {:induction false} ActiveCount(x: Subject, strip: Ops, lo: nat, hi: nat, flag: Symbol, nbol: nat, neol: nat)
    requires lo <= hi <= |strip| && Counted(strip, lo, hi, nbol, neol)
    ensures flag.Bol? ==> |Active(strip, x.sets, lo, hi, flag)| <= nbol
    ensures flag.Eol? ==> |Active(strip, x.sets, lo, hi, flag)| <= neol
    ensures flag.BolEol? ==> |Active(strip, x.sets, lo, hi, flag)| <= nbol + neol
  {
    var A, B, C := Active(strip, x.sets, lo, hi, flag), Where(strip, lo, hi, OBol), Where(strip, lo, hi, OEol);
    if flag.Bol? { Subset(A, B); }
    if flag.Eol? { Subset(A, C); }
    if flag.BolEol? { Subset(A, B + C); }
  }

  lemma {:induction false} NoLine(x: Subject, strip: Ops, lo: nat, hi: nat, p: nat, st: set<nat>)
    requires lo <= hi <= |strip| && In(x, At(p, false)) && EpsClosed(strip, lo, hi, st)
    requires !x.BolAt(p) && !x.EolAt(p)
    ensures LineClosure(x, strip, lo, hi, p, st, st)
  {
  }

  lemma {:induction false} WordStep(x: Subject, strip: Ops, lo: nat, hi: nat, p: nat, flag: Symbol, st1: set<nat>,
        st: set<nat>)
    requires lo <= hi <= |strip| && In(x, At(p, false))
    requires (flag.Bow? && x.BowAt(p)) || (flag.Eow? && x.EowAt(p))
    requires IsStep(strip, x.sets, lo, hi, st1, flag, st1, st)
    ensures WordClosure(x, strip, lo, hi, p, st1, st)
  {
    forall X
      ensures WordClosed(x, strip, lo, hi, p, st1, X) <==> Admits(strip, x.sets, lo, hi, st1, flag, st1, X)
    {
      assert forall s :: lo <= s < hi ==> (LiveWord(x, strip[s], p) <==> Fires(x.sets, strip[s], flag));
    }
  }

  /** The rounds for the line anchors that hold at `p`, as many as are counted. */
  ghost predicate LineRounds(x: Subject, strip: Ops, lo: nat, hi: nat, nbol: nat, neol: nat, p: nat, st0: set<nat>,
        st: set<nat>)
    requires lo <= hi <= |strip| && In(x, At(p, false))
  {
    var bol, eol := x.BolAt(p), x.EolAt(p);
    if !bol && !eol then st == st0
    else
      Rounded(strip, x.sets, lo, hi, if bol && eol then BolEol else if bol then Symbol.Bol else Symbol.Eol,
              (if bol then nbol else 0) + (if eol then neol else 0), st0, st)
  }

  /** Everything that happens between two characters: the rounds for line anchors, then the one
      step for a word boundary. `lastc` and `c` are the characters before and after `p`. With enough
      rounds for the anchors there are, nothing that could follow is left out. */
  method Settle(x: Subject, strip: Ops, lo: nat, hi: nat, nbol: nat, neol: nat, p: nat, lastc: Option<char>,
        c: Option<char>, st0: set<nat>) returns (st: set<nat>, ghost st1: set<nat>)
    requires RangeOk(strip, lo, hi) && EpsClosed(strip, lo, hi, st0)
    requires In(x, At(p, false)) && lastc == x.LastC(p) && c == x.NextC(p)
    ensures EpsClosed(strip, lo, hi, st)
    ensures LineRounds(x, strip, lo, hi, nbol, neol, p, st0, st1) && WordClosure(x, strip, lo, hi, p, st1, st)
    ensures Counted(strip, lo, hi, nbol, neol) ==> LineClosure(x, strip, lo, hi, p, st0, st1)
  {
    var flagch := None;
    var i := 0;
    if (lastc == Some('\n') && x.newline) || (lastc == None && !x.notbol) {
      flagch := Some(Symbol.Bol);
      i := nbol;
    }
    if (c == Some('\n') && x.newline) || (c == None && !x.noteol) {
      flagch := Some(if flagch == Some(Symbol.Bol) then Symbol.BolEol else Symbol.Eol);
      i := i + neol;
    }
    st := st0;
    if flagch.Some? {
      st := Rounds(strip, x.sets, lo, hi, st, flagch.value, i);
      if Counted(strip, lo, hi, nbol, neol) {
        ActiveCount(x, strip, lo, hi, flagch.value, nbol, neol);
        RoundsAreLineClosure(x, strip, lo, hi, p, flagch.value, st0, st);
      }
    } else {
      NoLine(x, strip, lo, hi, p, st);
    }
    st1 := st;
    if (flagch == Some(Symbol.Bol) || (lastc.Some? && !IsWord(lastc.value))) && c.Some? && IsWord(c.value) {
      flagch := Some(Symbol.Bow);
    }
    if lastc.Some? && IsWord(lastc.value) && (flagch == Some(Symbol.Eol) || (c.Some? && !IsWord(c.value))) {
      flagch := Some(Symbol.Eow);
    }
    if flagch == Some(Symbol.Bow) || flagch == Some(Symbol.Eow) {
      st := Step(strip, x.sets, lo, hi, st, flagch.value, st);
      WordStep(x, strip, lo, hi, p, flagch.value, st1, st);
    }
  }
}
