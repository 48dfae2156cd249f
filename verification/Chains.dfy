/** Backtracking with choices inside loops (include/regex/engine.c, lines 617-639). A way that fails leaves its
    entries in lastpos. If no back reference follows and no two loops share a level, an entry that is found
    there later is one from which its own loop has been tried in vain, and nothing is missed. */
module Chains {
  import opened Strip
  import opened Regex
  import opened Thompson
  import opened Captures
  import opened Backtrack
  import opened BackrefSound
  import opened Consuming
  import opened Levels
  import opened BackrefExact

  // ----- the condition -----

  /** The number of loops at the outermost level. */
  function Loops(r: Re): nat {
    match r
    case Eps => 0
    case Leaf(_, k) => Loops(k)
    case Plus(_, k) => 1 + Loops(k)
    case Quest(b, k) => Loops(b) + Loops(k)
    case Choice(_, _, k) => Loops(k)
    case Back(_, _, k) => Loops(k)
  }

  /** No back reference and no alternation, one loop at each level at most, and every + body takes text. */
  predicate Chain(r: Re) {
    Loops(r) <= 1 &&
    match r
    case Eps => true
    case Leaf(_, k) => Chain(k)
    case Plus(b, k) => !Nullable(b) && Chain(b) && Chain(k)
    case Quest(b, k) => Chain(b) && Chain(k)
    case Choice(_, _, _) => false
    case Back(_, _, _) => false
  }

  /** A flat expression, up to some point from which there is only one loop at each level and no back
      reference. */
  predicate Trusted(r: Re) {
    Chain(r) ||
    match r
    case Eps => true
    case Leaf(_, k) => Trusted(k)
    case Plus(b, k) => Straight(b) && !Nullable(b) && Trusted(k)
    case Quest(b, k) => Flat(b) && Trusted(k)
    case Back(n, b, k) => NoBack(n, b) && Trusted(k)
    case Choice(_, _, _) => false
  }

  lemma {:induction false} FlatIsTrusted(r: Re)
    requires Flat(r)
    ensures Trusted(r)
  {
    hide Chain;
    if r != Eps { FlatIsTrusted(r.next); }
  }

  lemma {:induction false} ChainConsumes(r: Re)
    requires Chain(r)
    ensures Consumes(r) && NoChoice(r) && forall n :: NoBack(n, r)
    decreases r
  {
    match r
    case Eps =>
    case Leaf(_, k) => ChainConsumes(k);
    case Plus(b, k) => ChainConsumes(b); ChainConsumes(k);
    case Quest(b, k) => ChainConsumes(b); ChainConsumes(k);
  }

  // ----- where no back reference follows, captures do not matter -----

  /** The states from `lo` up to the end: a part of the strip that is not left, and without a back
      reference. */
  ghost predicate Region(g: Goal, lo: nat)
    requires g.Valid()
  {
    lo <= g.stopst && forall s :: lo <= s < g.stopst ==> StaysIn(g, lo, s)
  }

  ghost predicate StaysIn(g: Goal, lo: nat, s: nat)
    requires g.Valid() && s < g.stopst
  {
    StaysWithin(g.strip, g.stopst, s) && (g.strip[s].O_Plus? ==> lo + g.strip[s].back <= s)
    && (g.strip[s].OBack_? ==> FindBack(g.strip, s, g.strip[s].paren).None?)
    && !g.strip[s].OCh_? && !g.strip[s].OOr2?
  }

  lemma {:induction false} ChainIsRegion(g: Goal, lo: nat, r: Re)
    requires g.Valid() && Laid(g.strip, lo, r) && g.stopst == lo + Len(r) && Chain(r)
    ensures Region(g, lo)
  {
    hide Laid, Len, Chain, Consumes, NoBack, NoChoice, LoopsConsume, CanLoop, FindBack, ChEnd;
    ChainConsumes(r);
    LaidIsRange(g.strip, lo, r);
    forall s | lo <= s < g.stopst
      ensures StaysIn(g, lo, s)
    {
      OpIsFine(g.strip, lo, r, g.stopst, s);
      assert SopOk(g.strip, lo, g.stopst, s);
      if g.strip[s].OBack_? { NoneThere(g, lo, r, s); }
    }
  }

  lemma {:induction false} NoneThere(g: Goal, lo: nat, r: Re, s: nat)
    requires g.Valid() && Laid(g.strip, lo, r) && g.stopst == lo + Len(r) && lo <= s < g.stopst && g.strip[s].OBack_?
    requires StaysWithin(g.strip, g.stopst, s) && forall n :: NoBack(n, r)
    ensures FindBack(g.strip, s, g.strip[s].paren).None?
  {
    hide Laid, Len, NoBack, LoopsConsume, ChEnd;
    var q := FindBack(g.strip, s, g.strip[s].paren);
    if q.Some? { NoBackThere(g.strip, lo, r, g.strip[s].paren, q.value); }
  }

  /** From the same place with other captures, some place with some captures. */
  ghost predicate Likewise(g: Goal, c: Point, p: Point)
    requires g.Valid()
  {
    exists pm :: Leads(g.x, g.strip, g.stop, c, Point(p.ss, p.sp, pm))
  }

  lemma {:induction false} SameMove(g: Goal, lo: nat, p: Point, q: Point, pm: seq<Span>) returns (pm1: seq<Span>)
    requires g.Valid() && Region(g, lo) && lo <= p.ss < g.stopst && Hop(g.x, g.strip, g.stop, p, q)
    ensures lo <= q.ss <= g.stopst && Hop(g.x, g.strip, g.stop, Point(p.ss, p.sp, pm), Point(q.ss, q.sp, pm1))
  {
    hide LoopsConsume, FindBack, ChEnd, Repeats;
    assert StaysIn(g, lo, p.ss);
    pm1 := match g.strip[p.ss] case OLParen(i) => SetSo(pm, i, p.sp) case ORParen(i) => SetEo(pm, i, p.sp) case _ => pm;
  }

  lemma {:induction false} CapturesDoNotMatter(g: Goal, lo: nat, ss: nat, sp: nat, pm: seq<Span>, pm': seq<Span>)
    requires g.Valid() && Region(g, lo) && lo <= ss <= g.stopst && PathOn(g, Point(ss, sp, pm))
    ensures PathOn(g, Point(ss, sp, pm'))
  {
    hide Hop, Leads, Region, LoopsConsume;
    var c := Point(ss, sp, pm');
    var X := iset p: Point | p.ss > g.stopst || (lo <= p.ss && Likewise(g, c, p));
    forall p, q | p in X && Hop(g.x, g.strip, g.stop, p, q)
      ensures q in X
    {
      if p.ss >= g.stopst {
        NeverBack(g.x, g.strip, g.stop, g.stopst, p, q);
      } else {
        var pm1 :| Leads(g.x, g.strip, g.stop, c, Point(p.ss, p.sp, pm1));
        var pm2 := SameMove(g, lo, p, q, pm1);
        Append(g, c, Point(p.ss, p.sp, pm1), Point(q.ss, q.sp, pm2));
      }
    }
    Arrived(g.x, g.strip, g.stop, c);
    ReachesEnd(g, Point(ss, sp, pm), X);
  }

  lemma {:induction false} ReachesEnd(g: Goal, c: Point, X: iset<Point>)
    requires g.Valid() && PathOn(g, c) && c in X && PointClosed(g.x, g.strip, g.stop, X)
    ensures exists pm :: Point(g.stopst, g.stop, pm) in X
  {
    hide PointClosed, LoopsConsume;
  }

  // ----- entries that may be found in lastpos -----

  /** The part of the strip, where the body of the loop of each level begins, and the sizes of the
      tables. */
  datatype Plan = Plan(g: Goal, lo: nat, starts: seq<nat>, np: nat, nl: nat)
  {
    ghost predicate Valid() {
      g.Valid() && Region(g, lo) && (|starts| == 1 || 1 < |starts| <= nl)
      && forall l :: 1 <= l < |starts| ==> lo <= starts[l] <= g.stopst
    }
  }

  /** From `ss` there is no way on at this place. */
  ghost predicate Dead(c: Plan, ss: nat, sp: nat)
    requires c.Valid()
  {
    forall pm :: !PathOn(c.g, Point(ss, sp, pm))
  }

  lemma {:induction false} DeadIf(c: Plan, ss: nat, sp: nat, pm: seq<Span>)
    requires c.Valid() && c.lo <= ss <= c.g.stopst && !PathOn(c.g, Point(ss, sp, pm))
    ensures Dead(c, ss, sp)
  {
    hide PathOn, Region, LoopsConsume;
    forall pm'
      ensures !PathOn(c.g, Point(ss, sp, pm'))
    {
      if PathOn(c.g, Point(ss, sp, pm')) { CapturesDoNotMatter(c.g, c.lo, ss, sp, pm', pm); }
    }
  }

  /** In the loops that are under way, whose passes began at `ps`, an entry is from the beginning of the
      pass or before, or one from which another pass is in vain. */
  ghost predicate Settled(c: Plan, ps: seq<nat>, mem: Memory)
    requires c.Valid()
  {
    Sized(mem, c.np, c.nl) && |ps| < |c.starts|
    && forall l :: 1 <= l <= |ps| ==> SettledAt(c, ps, mem.last, l)
  }

  ghost predicate SettledAt(c: Plan, ps: seq<nat>, last: seq<nat>, l: nat)
    requires c.Valid() && |last| == c.nl && |ps| < |c.starts| && 1 <= l <= |ps|
  {
    last[l] <= ps[l - 1] || Dead(c, c.starts[l], last[l])
  }

  /** What a way that failed leaves behind: captures as they were, and changed entries only where
      another pass is in vain. */
  ghost predicate Marks(c: Plan, before: Memory, after: Memory)
    requires c.Valid()
  {
    before.pm == after.pm && |before.last| == |after.last| == c.nl
    && forall l :: 0 <= l < c.nl ==> MarkedAt(c, before.last, after.last, l)
  }

  ghost predicate MarkedAt(c: Plan, before: seq<nat>, after: seq<nat>, l: nat)
    requires c.Valid() && l < |before| && l < |after|
  {
    after[l] == before[l] || (1 <= l < |c.starts| && Dead(c, c.starts[l], after[l]))
  }

  lemma {:induction false} MarksJoin(c: Plan, a: Memory, b: Memory, d: Memory)
    requires c.Valid() && Marks(c, a, b) && Marks(c, b, d)
    ensures Marks(c, a, d)
  {
    hide Dead, Region, LoopsConsume;
    forall l | 0 <= l < c.nl
      ensures MarkedAt(c, a.last, d.last, l)
    {
      assert MarkedAt(c, a.last, b.last, l) && MarkedAt(c, b.last, d.last, l);
    }
  }

  lemma {:induction false} StillSettled(c: Plan, ps: seq<nat>, a: Memory, b: Memory)
    requires c.Valid() && Settled(c, ps, a) && Marks(c, a, b)
    ensures Settled(c, ps, b)
  {
    hide Dead, Region, LoopsConsume;
    forall l | 1 <= l <= |ps|
      ensures SettledAt(c, ps, b.last, l)
    {
      assert SettledAt(c, ps, a.last, l) && MarkedAt(c, a.last, b.last, l);
    }
  }

  /** A run from `ss` at this level succeeds exactly when there is a path, and leaves only such marks. */
  ghost predicate FairFrom(c: Plan, ss: nat, lev: nat, sp: nat, mem: Memory)
    requires c.Valid() && c.g.On(sp)
  {
    var v := Run(c.g.x, c.g.strip, c.g.stop, c.g.stopst, ss, sp, lev, mem);
    (v.end.Some? <==> PathOn(c.g, Point(ss, sp, mem.pm))) && (v.end.None? ==> Marks(c, mem, v.mem))
  }

  ghost predicate Fair(c: Plan, ss: nat, ps: seq<nat>, p: nat)
    requires c.Valid()
  {
    forall sp: nat, mem: Memory :: c.g.On(sp) && p <= sp && Settled(c, ps, mem) ==> FairFrom(c, ss, |ps|, sp, mem)
  }

  // ----- one operator -----

  lemma {:induction false} MarksNone(c: Plan, mem: Memory)
    requires c.Valid() && |mem.last| == c.nl
    ensures Marks(c, mem, mem)
  {
    hide Dead, Region, LoopsConsume;
  }

  lemma {:induction false} EndFair(c: Plan, ps: seq<nat>, p: nat)
    requires c.Valid()
    ensures Fair(c, c.g.stopst, ps, p)
  {
    hide Region, LoopsConsume, PathOn, Rank, CanLoop, Settled;
    forall sp: nat, mem: Memory | c.g.On(sp) && p <= sp && Settled(c, ps, mem)
      ensures FairFrom(c, c.g.stopst, |ps|, sp, mem)
    {
      PathEnds(c.g, sp, mem.pm);
      SettledSized(c, ps, mem);
      MarksNone(c, mem);
    }
  }

  lemma {:induction false} SettledSized(c: Plan, ps: seq<nat>, mem: Memory)
    requires c.Valid() && Settled(c, ps, mem)
    ensures |mem.pm| == c.np && |mem.last| == c.nl
  {
    hide Region, LoopsConsume, Dead;
  }

  /** The same places in lastpos, whatever the captures. */
  lemma {:induction false} OtherCaptures(c: Plan, ps: seq<nat>, mem: Memory, pm: seq<Span>)
    requires c.Valid() && Settled(c, ps, mem) && |pm| == |mem.pm|
    ensures Settled(c, ps, mem.(pm := pm))
  {
    hide Region, LoopsConsume, Dead;
    forall l | 1 <= l <= |ps|
      ensures SettledAt(c, ps, mem.(pm := pm).last, l)
    {
      assert SettledAt(c, ps, mem.last, l);
    }
  }

  lemma {:induction false} MarksOther(c: Plan, a: Memory, b: Memory, pm: seq<Span>)
    requires c.Valid() && Marks(c, a, b)
    ensures Marks(c, a.(pm := pm), b.(pm := pm))
  {
    hide Region, LoopsConsume, Dead;
    forall l | 0 <= l < c.nl
      ensures MarkedAt(c, a.(pm := pm).last, b.(pm := pm).last, l)
    {
      assert MarkedAt(c, a.last, b.last, l);
    }
  }

  lemma {:induction false} EasyFair(c: Plan, o: nat, ps: seq<nat>, p: nat, takes: bool)
    requires c.Valid() && o < c.g.stopst && (takes ==> Taking(c.g.strip[o]))
    requires c.g.strip[o].O_Quest? || Anchor(c.g.strip[o]) || Taking(c.g.strip[o])
    requires Fair(c, o + 1, ps, if takes then p + 1 else p)
    ensures Fair(c, o, ps, p)
  {
    hide Region, LoopsConsume, PathOn, Rank, CanLoop, Settled, Marks, FindBack, ChEnd;
    forall sp: nat, mem: Memory | c.g.On(sp) && p <= sp && Settled(c, ps, mem)
      ensures FairFrom(c, o, |ps|, sp, mem)
    {
      EasyRank(c.g.x, c.g.strip, c.g.stop, o, sp);
      var e := EasyStep(c.g.x, c.g.strip, c.g.stop, o, sp);
      OnlyWay(c.g, Point(o, sp, mem.pm), if e.To? then Some(Point(e.ss, e.sp, mem.pm)) else None);
      SettledSized(c, ps, mem);
      MarksNone(c, mem);
      if e.To? { assert FairFrom(c, o + 1, |ps|, e.sp, mem); }
    }
  }

  predicate Taking(op: Sop) { op.OChar? || op.OAny? || op.OAnyOf? }
  predicate Anchor(op: Sop) { op.OBol? || op.OEol? || op.OBow? || op.OEow? }

  lemma {:induction false} ParenFair(c: Plan, o: nat, ps: seq<nat>, p: nat)
    requires c.Valid() && o < c.g.stopst && (c.g.strip[o].OLParen? || c.g.strip[o].ORParen?)
    requires c.g.strip[o].paren < c.np
    requires Fair(c, o + 1, ps, p)
    ensures Fair(c, o, ps, p)
  {
    hide Region, LoopsConsume, PathOn, Rank, CanLoop, Settled, Marks, FindBack, ChEnd;
    RankDown(c.g.strip, o, o + 1);
    var op := c.g.strip[o];
    forall sp: nat, mem: Memory | c.g.On(sp) && p <= sp && Settled(c, ps, mem)
      ensures FairFrom(c, o, |ps|, sp, mem)
    {
      var pm := if op.OLParen? then SetSo(mem.pm, op.paren, sp) else SetEo(mem.pm, op.paren, sp);
      var m := mem.(pm := pm);
      OnlyWay(c.g, Point(o, sp, mem.pm), Some(Point(o + 1, sp, pm)));
      OtherCaptures(c, ps, mem, pm);
      SettledSized(c, ps, mem);
      assert FairFrom(c, o + 1, |ps|, sp, m);
      var v := Run(c.g.x, c.g.strip, c.g.stop, c.g.stopst, o + 1, sp, |ps|, m);
      if v.end.None? {
        MarksOther(c, m, v.mem, mem.pm);
        Restores(c.g.x, c.g.strip, c.g.stop, c.g.stopst, o, sp, |ps|, mem);
        UndoneParen(c, o, sp, |ps|, mem, v);
      }
    }
  }

  lemma {:induction false} UndoneParen(c: Plan, o: nat, sp: nat, lev: nat, mem: Memory, v: Trial)
    requires c.Valid() && c.g.On(sp) && o < c.g.stopst && (c.g.strip[o].OLParen? || c.g.strip[o].ORParen?)
    requires c.g.strip[o].paren < |mem.pm| && v.end.None?
    requires var op := c.g.strip[o];
             v == Run(c.g.x, c.g.strip, c.g.stop, c.g.stopst, o + 1, sp, lev,
                      mem.(pm := if op.OLParen? then SetSo(mem.pm, op.paren, sp) else SetEo(mem.pm, op.paren, sp)))
    ensures var u := Run(c.g.x, c.g.strip, c.g.stop, c.g.stopst, o, sp, lev, mem);
            u.end.None? && u.mem.last == v.mem.last
  {
    hide Region, LoopsConsume, Rank, CanLoop, FindBack, ChEnd;
    RankDown(c.g.strip, o, o + 1);
  }

  lemma {:induction false} QuestFair(c: Plan, o: nat, ps: seq<nat>, p: nat)
    requires c.Valid() && o < c.g.stopst && c.g.strip[o].OQuest_?
    requires Fair(c, o + 1, ps, p) && Fair(c, o + c.g.strip[o].fwd + 1, ps, p)
    ensures Fair(c, o, ps, p)
  {
    hide Region, LoopsConsume, PathOn, Rank, CanLoop, Settled, Marks, FindBack, ChEnd;
    var n := c.g.strip[o].fwd;
    RankDown(c.g.strip, o, o + 1);
    RankDown(c.g.strip, o, o + n + 1);
    forall sp: nat, mem: Memory | c.g.On(sp) && p <= sp && Settled(c, ps, mem)
      ensures FairFrom(c, o, |ps|, sp, mem)
    {
      TwoWays(c.g, Point(o, sp, mem.pm), Point(o + 1, sp, mem.pm), Point(o + n + 1, sp, mem.pm));
      assert FairFrom(c, o + 1, |ps|, sp, mem);
      var v := Run(c.g.x, c.g.strip, c.g.stop, c.g.stopst, o + 1, sp, |ps|, mem);
      if v.end.None? {
        Restores(c.g.x, c.g.strip, c.g.stop, c.g.stopst, o + 1, sp, |ps|, mem);
        StillSettled(c, ps, mem, v.mem);
        assert FairFrom(c, o + n + 1, |ps|, sp, v.mem);
        var w := Run(c.g.x, c.g.strip, c.g.stop, c.g.stopst, o + n + 1, sp, |ps|, v.mem);
        if w.end.None? { MarksJoin(c, mem, v.mem, w.mem); }
      }
    }
  }

  // ----- loops -----

  /** Passes of the loop whose body begins at `o`, from position `p` on. */
  ghost predicate AllPasses(c: Plan, o: nat, ps: seq<nat>, p: nat)
    requires c.Valid()
  {
    forall q: nat :: p <= q ==> Fair(c, o, ps + [q], q)
  }

  /** The entry of one more loop is set: its pass begins here. */
  lemma {:induction false} PassBegins(c: Plan, ps: seq<nat>, mem: Memory, sp: nat)
    requires c.Valid() && Sized(mem, c.np, c.nl) && |ps| + 1 < |c.starts|
    requires forall l :: 1 <= l <= |ps| ==> SettledAt(c, ps, mem.last, l)
    ensures Settled(c, ps + [sp], mem.(last := Put(mem.last, |ps| + 1, sp)))
  {
    hide Region, LoopsConsume, Dead;
    var m := mem.(last := Put(mem.last, |ps| + 1, sp));
    forall l | 1 <= l <= |ps + [sp]|
      ensures SettledAt(c, ps + [sp], m.last, l)
    {
      if l <= |ps| { assert SettledAt(c, ps, mem.last, l); }
    }
  }

  /** A pass begun at `sp` was in vain: its entry may stay. */
  lemma {:induction false} PassMarks(c: Plan, mem: Memory, l: nat, sp: nat, pm: seq<Span>)
    requires c.Valid() && |mem.last| == c.nl && 1 <= l < |c.starts| && !PathOn(c.g, Point(c.starts[l], sp, pm))
    ensures Marks(c, mem, mem.(last := Put(mem.last, l, sp)))
  {
    DeadIf(c, c.starts[l], sp, pm);
    hide Region, LoopsConsume, Dead, PathOn;
    var m := mem.(last := Put(mem.last, l, sp));
    forall i | 0 <= i < c.nl
      ensures MarkedAt(c, mem.last, m.last, i)
    {
    }
  }

  lemma {:induction false} EnterFair(c: Plan, o: nat, ps: seq<nat>, p: nat)
    requires c.Valid() && o < c.g.stopst && c.g.strip[o].OPlus_? && |ps| + 1 < |c.starts| && c.starts[|ps| + 1] == o + 1
    requires AllPasses(c, o + 1, ps, p)
    ensures Fair(c, o, ps, p)
  {
    hide Region, LoopsConsume, PathOn, Rank, CanLoop, Marks, FindBack, ChEnd, Dead;
    RankDown(c.g.strip, o, o + 1);
    forall sp: nat, mem: Memory | c.g.On(sp) && p <= sp && Settled(c, ps, mem)
      ensures FairFrom(c, o, |ps|, sp, mem)
    {
      var m := mem.(last := Put(mem.last, |ps| + 1, sp));
      OnlyWay(c.g, Point(o, sp, mem.pm), Some(Point(o + 1, sp, mem.pm)));
      PassBegins(c, ps, mem, sp);
      assert Fair(c, o + 1, ps + [sp], sp);
      assert FairFrom(c, o + 1, |ps| + 1, sp, m);
      var v := Run(c.g.x, c.g.strip, c.g.stop, c.g.stopst, o + 1, sp, |ps| + 1, m);
      if v.end.None? {
        PassMarks(c, mem, |ps| + 1, sp, mem.pm);
        MarksJoin(c, mem, m, v.mem);
      }
    }
  }

  /** At the end of a pass that began at `q` and has taken text: if the entry is this place, another pass
      from here is in vain. */
  lemma {:induction false} AgainFair(c: Plan, e: nat, ps: seq<nat>, q: nat)
    requires c.Valid() && e < c.g.stopst && c.g.strip[e].O_Plus? && 0 < c.g.strip[e].back <= e
    requires |ps| + 1 < |c.starts| && c.starts[|ps| + 1] == e - c.g.strip[e].back + 1
    requires AllPasses(c, e - c.g.strip[e].back + 1, ps, q + 1) && Fair(c, e + 1, ps, q + 1)
    ensures Fair(c, e, ps + [q], q + 1)
  {
    hide Region, LoopsConsume, PathOn, Rank, CanLoop, Marks, FindBack, ChEnd, Dead, Fair;
    forall sp: nat, mem: Memory | c.g.On(sp) && q + 1 <= sp && Settled(c, ps + [q], mem)
      ensures FairFrom(c, e, |ps| + 1, sp, mem)
    {
      AgainFairFrom(c, e, ps, q, sp, mem);
    }
    assert |ps + [q]| == |ps| + 1;
    FairIf(c, e, ps + [q], q + 1);
  }

  lemma {:induction false} FairIf(c: Plan, ss: nat, ps: seq<nat>, p: nat)
    requires c.Valid()
    requires forall sp: nat, mem: Memory :: c.g.On(sp) && p <= sp && Settled(c, ps, mem) ==>
             FairFrom(c, ss, |ps|, sp, mem)
    ensures Fair(c, ss, ps, p)
  {
  }

  lemma {:induction false} FairAt(c: Plan, ss: nat, ps: seq<nat>, p: nat, sp: nat, mem: Memory)
    requires c.Valid() && Fair(c, ss, ps, p) && c.g.On(sp) && p <= sp && Settled(c, ps, mem)
    ensures FairFrom(c, ss, |ps|, sp, mem)
  {
  }

  lemma {:induction false} Inner(c: Plan, ps: seq<nat>, q: nat, mem: Memory)
    requires c.Valid() && Settled(c, ps + [q], mem)
    ensures Settled(c, ps, mem) && (mem.last[|ps| + 1] <= q || Dead(c, c.starts[|ps| + 1], mem.last[|ps| + 1]))
  {
    hide Region, LoopsConsume, Dead;
    assert SettledAt(c, ps + [q], mem.last, |ps| + 1);
    forall l | 1 <= l <= |ps|
      ensures SettledAt(c, ps, mem.last, l)
    {
      assert SettledAt(c, ps + [q], mem.last, l);
    }
  }

  lemma {:induction false} AgainFairFrom(c: Plan, e: nat, ps: seq<nat>, q: nat, sp: nat, mem: Memory)
    requires c.Valid() && e < c.g.stopst && c.g.strip[e].O_Plus? && 0 < c.g.strip[e].back <= e
    requires |ps| + 1 < |c.starts| && c.starts[|ps| + 1] == e - c.g.strip[e].back + 1
    requires AllPasses(c, e - c.g.strip[e].back + 1, ps, q + 1) && Fair(c, e + 1, ps, q + 1)
    requires c.g.On(sp) && q + 1 <= sp && Settled(c, ps + [q], mem)
    ensures FairFrom(c, e, |ps| + 1, sp, mem)
  {
    hide Region, LoopsConsume, PathOn, CanLoop, Marks, FindBack, ChEnd, Fair, Settled, Dead;
    var b, lev := e - c.g.strip[e].back + 1, |ps| + 1;
    LoopHere(c.g.strip, e);
    RankDown(c.g.strip, e, e + 1);
    Inner(c, ps, q, mem);
    SettledSized(c, ps, mem);
    TwoWays(c.g, Point(e, sp, mem.pm), Point(b, sp, mem.pm), Point(e + 1, sp, mem.pm));
    if sp == mem.last[lev] {
      NoWay(c, b, sp, mem.pm);
      FairAt(c, e + 1, ps, q + 1, sp, mem);
    } else {
      var m := mem.(last := Put(mem.last, lev, sp));
      SettledParts(c, ps, mem);
      PassBegins(c, ps, mem, sp);
      FairAt(c, b, ps + [sp], sp, sp, m);
      var v := Run(c.g.x, c.g.strip, c.g.stop, c.g.stopst, b, sp, lev, m);
      if v.end.None? {
        PassMarks(c, mem, lev, sp, mem.pm);
        MarksJoin(c, mem, m, v.mem);
        MarksPm(c, mem, v.mem);
        StillSettled(c, ps, mem, v.mem);
        FairAt(c, e + 1, ps, q + 1, sp, v.mem);
        var w := Run(c.g.x, c.g.strip, c.g.stop, c.g.stopst, e + 1, sp, lev - 1, v.mem);
        if w.end.None? { MarksJoin(c, mem, v.mem, w.mem); }
      }
    }
  }

  lemma {:induction false} NoWay(c: Plan, ss: nat, sp: nat, pm: seq<Span>)
    requires c.Valid() && Dead(c, ss, sp)
    ensures !PathOn(c.g, Point(ss, sp, pm))
  {
    hide PathOn, Region, LoopsConsume;
  }

  lemma {:induction false} MarksPm(c: Plan, a: Memory, b: Memory)
    requires c.Valid() && Marks(c, a, b)
    ensures a.pm == b.pm
  {
    hide Region, LoopsConsume, Dead;
  }

  lemma {:induction false} SettledParts(c: Plan, ps: seq<nat>, mem: Memory)
    requires c.Valid() && Settled(c, ps, mem)
    ensures Sized(mem, c.np, c.nl) && |ps| < |c.starts| && forall l :: 1 <= l <= |ps| ==> SettledAt(c, ps, mem.last, l)
  {
    hide Region, LoopsConsume, Dead;
  }

  // ----- a whole chain -----

  /** The loops of the code of `r` are those of the plan. */
  predicate Placed(r: Re, o: nat, lev: nat, starts: seq<nat>) {
    match r
    case Eps => true
    case Leaf(_, k) => Placed(k, o + 1, lev, starts)
    case Plus(b, k) =>
      lev + 1 < |starts| && starts[lev + 1] == o + 1 && Placed(b, o + 1, lev + 1, starts)
      && Placed(k, o + 2 + Len(b), lev, starts)
    case Quest(b, k) => Placed(b, o + 1, lev, starts) && Placed(k, o + 2 + Len(b), lev, starts)
    case _ => false
  }

  lemma {:induction false} LaterFair(c: Plan, ss: nat, ps: seq<nat>, p: nat, q: nat)
    requires c.Valid() && p <= q && Fair(c, ss, ps, p)
    ensures Fair(c, ss, ps, q)
  {
    hide FairFrom, Settled, Region, LoopsConsume;
  }

  lemma {:induction false} ChainFair(c: Plan, o: nat, r: Re, ps: seq<nat>, p: nat)
    requires c.Valid() && Laid(c.g.strip, o, r) && Chain(r) && InTable(r, c.np) && o + Len(r) <= c.g.stopst
    requires |ps| < |c.starts| && Placed(r, o, |ps|, c.starts) && Fair(c, o + Len(r), ps, Beyond(r, p))
    ensures Fair(c, o, ps, p)
    decreases r, 1, 0
  {
    hide Laid, Len, Fair, LoopsConsume, Region, Nullable, Loops;
    match r
    case Eps => LenOfEps(); EmptyBeyond(p);
    case Leaf(atom, k) =>
      LaidLeaf(c.g.strip, o, atom, k);
      LenOfLeaf(atom, k);
      LeafChainFair(c, o, atom, k, ps, p);
    case Plus(b, k) =>
      LaidPlus(c.g.strip, o, b, k);
      LenOfPlus(b, k);
      BeyondPlus(b, k, p);
      LaterFair(c, o + Len(r), ps, Beyond(r, p), Beyond(k, p + 1));
      ChainFair(c, o + 2 + Len(b), k, ps, p + 1);
      PassFair(c, o + 1, r, b, k, ps, p);
      EnterFair(c, o, ps, p);
    case Quest(b, k) =>
      LaidQuest(c.g.strip, o, b, k);
      LenOfQuest(b, k);
      BeyondQuest(b, k, p);
      var e := o + 1 + Len(b);
      ChainFair(c, e + 1, k, ps, p);
      EasyFair(c, e, ps, p, false);
      LaterFair(c, e, ps, p, Beyond(b, p));
      ChainFair(c, o + 1, b, ps, p);
      QuestFair(c, o, ps, p);
  }

  lemma {:induction false} EmptyBeyond(p: nat)
    ensures Beyond(Eps, p) == p
  {
  }

  lemma {:induction false} BeyondPlus(b: Re, k: Re, p: nat)
    requires !Nullable(b)
    ensures Beyond(Plus(b, k), p) == p + 1 <= Beyond(k, p + 1)
  {
  }

  lemma {:induction false} BeyondQuest(b: Re, k: Re, p: nat)
    ensures Beyond(Quest(b, k), p) == Beyond(k, p) && p <= Beyond(b, p)
  {
  }

  lemma {:induction false} LeafChainFair(c: Plan, o: nat, atom: Atom, k: Re, ps: seq<nat>, p: nat)
    requires c.Valid() && o < c.g.stopst && c.g.strip[o] == atom.Code() && Laid(c.g.strip, o + 1, k) && Chain(k)
    requires InTable(k, c.np) && (atom.Paren() ==> atom.n < c.np) && o + 1 + Len(k) <= c.g.stopst
    requires |ps| < |c.starts| && Placed(k, o + 1, |ps|, c.starts)
    requires Fair(c, o + 1 + Len(k), ps, Beyond(Leaf(atom, k), p))
    ensures Fair(c, o, ps, p)
    decreases Leaf(atom, k), 0, 0
  {
    hide Laid, Len, Fair, LoopsConsume, Region, Nullable, Chain, Placed;
    var p1 := if Takes(atom) then p + 1 else p;
    BeyondLeaf(atom, k, p);
    LaterFair(c, o + 1 + Len(k), ps, Beyond(Leaf(atom, k), p), Beyond(k, p1));
    ChainFair(c, o + 1, k, ps, p1);
    if atom.Paren() { ParenFair(c, o, ps, p); } else { EasyFair(c, o, ps, p, Takes(atom)); }
  }

  /** Every pass, the later ones first: each takes text, so there is an end to them. */
  lemma {:induction false} PassFair(c: Plan, o: nat, r: Re, b: Re, k: Re, ps: seq<nat>, p: nat)
    requires c.Valid() && r == Plus(b, k) && Laid(c.g.strip, o, b) && Chain(b) && !Nullable(b) && InTable(b, c.np)
    requires o >= 1 && o + Len(b) < c.g.stopst && c.g.strip[o + Len(b)] == O_Plus(Len(b) + 1)
    requires |ps| + 1 < |c.starts| && c.starts[|ps| + 1] == o && Placed(b, o, |ps| + 1, c.starts)
    requires Fair(c, o + Len(b) + 1, ps, p + 1)
    ensures AllPasses(c, o, ps, p)
    decreases r, 0, if p <= c.g.stop then c.g.stop + 1 - p else 0
  {
    hide Laid, Len, Fair, LoopsConsume, Region, Chain, Placed;
    if p > c.g.stop {
      forall q: nat | p <= q
        ensures Fair(c, o, ps + [q], q)
      {
        NowhereFair(c, o, ps + [q], q);
      }
    } else {
      LaterFair(c, o + Len(b) + 1, ps, p + 1, p + 2);
      PassFair(c, o, r, b, k, ps, p + 1);
      AgainFair(c, o + Len(b), ps, p);
      assert Beyond(b, p) == p + 1;
      ChainFair(c, o, b, ps + [p], p);
      forall q: nat | p <= q
        ensures Fair(c, o, ps + [q], q)
      {
        if q > p { assert p + 1 <= q; }
      }
    }
  }

  lemma {:induction false} NowhereFair(c: Plan, ss: nat, ps: seq<nat>, p: nat)
    requires c.Valid() && p > c.g.stop
    ensures Fair(c, ss, ps, p)
  {
    hide FairFrom, Settled, Region, LoopsConsume;
  }

  /** Where the loops are. */
  lemma {:induction false} NoLoopsPlaced(r: Re, o: nat, lev: nat, starts: seq<nat>)
    requires Chain(r) && Loops(r) == 0
    ensures Placed(r, o, lev, starts)
    decreases r
  {
    match r
    case Eps =>
    case Leaf(_, k) => NoLoopsPlaced(k, o + 1, lev, starts);
    case Quest(b, k) => NoLoopsPlaced(b, o + 1, lev, starts); NoLoopsPlaced(k, o + 2 + Len(b), lev, starts);
  }

  lemma {:induction false} PlaceLoops(r: Re, o: nat, outer: seq<nat>) returns (starts: seq<nat>)
    requires Chain(r) && |outer| > 0
    ensures outer <= starts && |starts| <= |outer| + Depth(r) && Placed(r, o, |outer| - 1, starts)
    ensures forall l :: |outer| <= l < |starts| ==> o <= starts[l] <= o + Len(r)
    decreases r
  {
    var lev: nat := |outer| - 1;
    match r
    case Eps => starts := outer;
    case Leaf(_, k) => starts := PlaceLoops(k, o + 1, outer);
    case Plus(b, k) =>
      starts := PlaceLoops(b, o + 1, outer + [o + 1]);
      assert starts[lev + 1] == o + 1 && outer <= outer + [o + 1] <= starts;
      NoLoopsPlaced(k, o + 2 + Len(b), lev, starts);
    case Quest(b, k) =>
      if Loops(b) == 0 {
        starts := PlaceLoops(k, o + 2 + Len(b), outer);
        NoLoopsPlaced(b, o + 1, lev, starts);
      } else {
        starts := PlaceLoops(b, o + 1, outer);
        NoLoopsPlaced(k, o + 2 + Len(b), lev, starts);
      }
  }

  /** Outside all loops, a run over a chain up to the end is exact. */
  lemma {:induction false} ChainIsExact(g: Goal, o: nat, r: Re, np: nat, nl: nat)
    requires g.Valid() && Laid(g.strip, o, r) && g.stopst == o + Len(r) && Chain(r) && InTable(r, np)
    requires Depth(r) > 0 ==> nl > Depth(r)
    ensures Exact(g, o, np, nl)
  {
    hide Laid, Len, Chain, LoopsConsume, Region, Placed, Fair, Depth;
    ChainIsRegion(g, o, r);
    var starts := PlaceLoops(r, o, [o]);
    var c := Plan(g, o, starts, np, nl);
    EndFair(c, [], Beyond(r, 0));
    ChainFair(c, o, r, [], 0);
    forall sp: nat, mem: Memory | g.On(sp) && Sized(mem, np, nl)
      ensures ExactFrom(g, o, sp, mem)
    {
      FairAt(c, o, [], 0, sp, mem);
    }
  }

  // ----- all of an expression -----

  lemma {:induction false} TrustedIsExact(g: Goal, o: nat, r: Re, np: nat, nl: nat)
    requires g.Valid() && Laid(g.strip, o, r) && Trusted(r) && InTable(r, np) && (Depth(r) > 0 ==> nl > Depth(r))
    requires g.stopst == o + Len(r)
    ensures Exact(g, o, np, nl)
    decreases r
  {
    hide LoopsConsume, Exact, Laid, Len, Nullable, Chain;
    if Chain(r) {
      ChainIsExact(g, o, r, np, nl);
    } else {
      match r
      case Eps => LenOfEps(); EndExact(g, np, nl);
      case Leaf(atom, k) =>
        LaidLeaf(g.strip, o, atom, k);
        LenOfLeaf(atom, k);
        TrustedIsExact(g, o + 1, k, np, nl);
        LeafExact(g, o, atom, np, nl);
      case Back(n, b, k) =>
        LaidBack(g.strip, o, n, b, k);
        LenOfBack(n, b, k);
        TrustedIsExact(g, o + 2 + Len(b), k, np, nl);
        BackExact(g, o, n, b, k, np, nl);
      case Quest(b, k) =>
        LaidQuest(g.strip, o, b, k);
        LenOfQuest(b, k);
        TrustedIsExact(g, o + 2 + Len(b), k, np, nl);
        QuestEndExact(g, o + 1 + Len(b), np, nl);
        LoopsAreDeep(b);
        FlatIsExact(g, o + 1, b, np, nl);
        QuestExact(g, o, Len(b) + 1, np, nl);
      case Plus(b, k) =>
        LaidPlus(g.strip, o, b, k);
        LenOfPlus(b, k);
        TrustedIsExact(g, o + 2 + Len(b), k, np, nl);
        PlusExact(g, o, b, k, np, nl);
    }
  }

  lemma {:induction false} EndExact(g: Goal, np: nat, nl: nat)
    requires g.Valid()
    ensures Exact(g, g.stopst, np, nl)
  {
    hide LoopsConsume, PathOn;
    forall sp: nat, m: Memory | g.On(sp) && Sized(m, np, nl)
      ensures ExactFrom(g, g.stopst, sp, m)
    {
      PathEnds(g, sp, m.pm);
    }
  }

  lemma {:induction false} LoopsAreDeep(r: Re)
    requires Flat(r)
    ensures HasLoop(r) ==> Depth(r) > 0
    decreases r
  {
    if r != Eps { LoopsAreDeep(r.next); }
    if r.Quest? { LoopsAreDeep(r.body); }
  }

  /** On such code, backtracking succeeds exactly when there is a path from the first state to the last
      on which back references are consistent and anchors pass the tests backref makes. */
  lemma {:induction false} BacktrackingIsExact(g: Goal, o: nat, r: Re, sp: nat, mem: Memory)
    requires g.Valid() && g.On(sp) && Laid(g.strip, o, r) && g.stopst == o + Len(r) && Trusted(r)
    requires InTable(r, |mem.pm|)
    requires Depth(r) > 0 ==> |mem.last| > Depth(r)
    ensures Wins(g, o, sp, 0, mem) <==> PathOn(g, Point(o, sp, mem.pm))
  {
    hide LoopsConsume, PathOn, Laid, Len, Trusted, Depth;
    TrustedIsExact(g, o, r, |mem.pm|, |mem.last|);
    assert ExactFrom(g, o, sp, mem);
  }
}
