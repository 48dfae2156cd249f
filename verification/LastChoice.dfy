/** Backtracking misses nothing through alternations at the end (include/regex/engine.c, lines 640-660). Each branch
    is held to all the text that is left, and there nothing follows that could take some of it: so the branches that
    fail are those by which there is no path, and the first one that does not fail is found. */
module LastChoice {
  import opened Strip
  import opened Text
  import opened Regex
  import opened Thompson
  import opened Captures
  import opened Backtrack
  import opened BackrefSound
  import opened Consuming
  import opened Levels
  import opened BackrefExact
  import opened Chains

  // ----- the condition -----

  /** Trusted expressions, and behind a flat beginning an alternation of such that is the last thing of all. */
  predicate Branching(r: Re) {
    Trusted(r) ||
    match r
    case Eps => true
    case Leaf(_, k) => Branching(k)
    case Plus(b, k) => Straight(b) && !Nullable(b) && Branching(k)
    case Quest(b, k) => Flat(b) && Branching(k)
    case Back(n, b, k) => NoBack(n, b) && Branching(k)
    case Choice(f, alts, k) => k == Eps && Branching(f) && BranchingAlts(alts)
  }

  predicate BranchingAlts(alts: Alts) {
    match alts
    case Last(b) => Branching(b)
    case Or(b, m) => Branching(b) && BranchingAlts(m)
  }

  // ----- a branch, and what it is a branch of -----

  /** Ending where the branch ends. */
  function Ending(g: Goal, e: nat): Goal { g.(stopst := e) }

  /** From the states from `lo` on, moves stay there up to `e`. */
  ghost predicate Stays(g: Goal, lo: nat, e: nat)
    requires g.Valid()
  {
    lo <= e < |g.strip|
    && forall c: Point, d: Point :: lo <= c.ss < e && Hop(g.x, g.strip, g.stop, c, d) ==> lo <= d.ss <= e
  }

  lemma {:induction false} PartStays(g: Goal, lo: nat, r: Re)
    requires g.Valid() && Laid(g.strip, lo, r) && Consumes(r) && lo + Len(r) < |g.strip|
    ensures Stays(g, lo, lo + Len(r))
  {
    hide Laid, Len, Consumes, LoopsConsume, Hop;
    var e := lo + Len(r);
    LaidIsRange(g.strip, lo, r);
    forall c: Point, d: Point | lo <= c.ss < e && Hop(g.x, g.strip, g.stop, c, d)
      ensures lo <= d.ss <= e
    {
      assert SopOk(g.strip, lo, e, c.ss);
      OpIsFine(g.strip, lo, r, e, c.ss);
      StaysThere(g, lo, e, c, d);
    }
  }

  lemma {:induction false} StaysThere(g: Goal, lo: nat, e: nat, c: Point, d: Point)
    requires g.Valid() && lo <= c.ss < e <= |g.strip| && Hop(g.x, g.strip, g.stop, c, d)
    requires SopOk(g.strip, lo, e, c.ss) && StaysWithin(g.strip, e, c.ss)
    ensures lo <= d.ss <= e
  {
    hide LoopsConsume, FindBack, ChEnd, Repeats;
  }

  /** From the end `e` of a branch to where all ends. */
  ghost predicate Leaves(g: Goal, e: nat)
    requires g.Valid()
  {
    forall c: Point, d: Point :: c.ss == e && Hop(g.x, g.strip, g.stop, c, d) ==> d == Point(g.stopst, c.sp, c.pm)
  }

  lemma {:induction false} LeavesAt(g: Goal, e: nat)
    requires g.Valid() && e < |g.strip|
    requires if g.strip[e].O_Ch? then e + 1 == g.stopst
             else g.strip[e].OOr1? && ChEnd(g.strip, e + 1) == Some(g.stopst - 1) && g.stopst > 0
    ensures Leaves(g, e)
    ensures forall sp: nat, pm :: g.On(sp) ==> Hop(g.x, g.strip, g.stop, Point(e, sp, pm), Point(g.stopst, sp, pm))
  {
    hide LoopsConsume, FindBack, ChEnd, Repeats;
  }

  /** A path through a branch is one to its end, at the end of the text. */
  lemma {:induction false} PathThrough(g: Goal, lo: nat, e: nat, sp: nat, pm: seq<Span>)
    requires g.Valid() && Ending(g, e).Valid() && g.On(sp) && Stays(g, lo, e) && Leaves(g, e) && e < g.stopst
    requires forall t: nat, q ::
               g.On(t) ==> Hop(g.x, g.strip, g.stop, Point(e, t, q), Point(g.stopst, t, q))
    ensures PathOn(g, Point(lo, sp, pm)) <==> PathOn(Ending(g, e), Point(lo, sp, pm))
  {
    hide Hop, Leads, LoopsConsume, NoReturn;
    var c := Point(lo, sp, pm);
    if PathOn(Ending(g, e), c) {
      var pm1 :| Leads(g.x, g.strip, g.stop, c, Point(e, g.stop, pm1));
      Append(g, c, Point(e, g.stop, pm1), Point(g.stopst, g.stop, pm1));
    }
    if PathOn(g, c) {
      PathEndsBranch(g, lo, e, c);
    }
  }

  /** By the end of the branch. */
  ghost predicate ByEnd(g: Goal, e: nat, c: Point, p: Point)
    requires g.Valid()
  {
    exists pm :: Leads(g.x, g.strip, g.stop, c, Point(e, p.sp, pm))
  }

  lemma {:induction false} PathEndsBranch(g: Goal, lo: nat, e: nat, c: Point)
    requires g.Valid() && Stays(g, lo, e) && Leaves(g, e) && e < g.stopst && c.ss == lo && PathOn(g, c)
    ensures ByEnd(g, e, c, Point(g.stopst, g.stop, c.pm))
  {
    var X := iset p: Point | p.ss > g.stopst || (p.ss == g.stopst && ByEnd(g, e, c, p))
                             || (lo <= p.ss <= e && Leads(g.x, g.strip, g.stop, c, p));
    hide Hop, Leads, LoopsConsume, NoReturn;
    forall p, q | p in X && Hop(g.x, g.strip, g.stop, p, q)
      ensures q in X
    {
      if p.ss >= g.stopst {
        NeverBack(g.x, g.strip, g.stop, g.stopst, p, q);
      } else {
        Append(g, c, p, q);
        if p.ss == e { assert Leads(g.x, g.strip, g.stop, c, Point(e, q.sp, p.pm)); }
      }
    }
    Arrived(g.x, g.strip, g.stop, c);
    ReachesEnd(g, c, X);
  }

  // ----- the branches, one after another -----

  /** From the head of a branch, outside all loops, the branches are tried with success exactly when there is a
      path. */
  ghost predicate BranchesExact(g: Goal, h: nat, np: nat, nl: nat)
    requires g.Valid()
  {
    h < |g.strip| && forall sp, mem: Memory :: g.On(sp) && Sized(mem, np, nl) ==> BranchesExactFrom(g, h, sp, mem)
  }

  ghost predicate BranchesExactFrom(g: Goal, h: nat, sp: nat, mem: Memory)
    requires g.Valid() && g.On(sp) && h < |g.strip|
  {
    RunBranches(g.x, g.strip, g.stop, h, sp, 0, mem).end.Some? <==> PathOn(g, Point(h, sp, mem.pm))
  }

  /** The branch headed at `h`, and those after it. */
  lemma {:induction false} HeadExact(g: Goal, h: nat, e: nat, np: nat, nl: nat)
    requires g.Valid() && h < e < g.stopst && BranchEnd(g.strip, h) == Some(e) && Ending(g, e).Valid()
    requires Stays(g, h + 1, e) && Leaves(g, e)
    requires forall t: nat, q :: g.On(t) ==> Hop(g.x, g.strip, g.stop, Point(e, t, q), Point(g.stopst, t, q))
    requires Exact(Ending(g, e), h + 1, np, nl)
    requires if g.strip[e].O_Ch? then h + g.strip[h].fwd == e && g.strip[h].OOr2?
             else h + g.strip[h].fwd == e + 1 < |g.strip| && g.strip[e + 1].OOr2? && BranchesExact(g, e + 1, np, nl)
    ensures BranchesExact(g, h, np, nl)
  {
    hide LoopsConsume, Rank, CanLoop, PathOn, NoReturn, Run, Stays, Leaves, BranchEnd;
    NextHead(g.strip, h, e);
    HeadIs(g.strip, h, e);
    forall sp, mem: Memory | g.On(sp) && Sized(mem, np, nl)
      ensures BranchesExactFrom(g, h, sp, mem)
    {
      var c, d := Point(h, sp, mem.pm), Point(h + 1, sp, mem.pm);
      var v := Run(g.x, g.strip, g.stop, e, h + 1, sp, 0, mem);
      assert ExactFrom(Ending(g, e), h + 1, sp, mem);
      PathThrough(g, h + 1, e, sp, mem.pm);
      Restores(g.x, g.strip, g.stop, e, h + 1, sp, 0, mem);
      if g.strip[e].O_Ch? {
        OnlyWay(g, c, Some(d));
      } else {
        TwoWays(g, c, d, Point(e + 1, sp, mem.pm));
        assert BranchesExactFrom(g, e + 1, sp, v.mem);
      }
    }
  }

  lemma {:induction false} HeadIs(strip: Ops, h: nat, e: nat)
    requires h < |strip| && BranchEnd(strip, h) == Some(e)
    ensures strip[h].OCh_? || strip[h].OOr2?
    ensures strip[e].OOr1? || strip[e].O_Ch?
  {
  }

  /** What is found, captures included, is what the first branch finds by which there is a path. */
  lemma {:induction false} FirstBranchFound(g: Goal, h: nat, e: nat, sp: nat, mem: Memory)
    requires g.Valid() && g.On(sp) && h < |g.strip| && BranchEnd(g.strip, h) == Some(e) && Ending(g, e).Valid()
    requires Exact(Ending(g, e), h + 1, |mem.pm|, |mem.last|)
    ensures var v, w := Run(g.x, g.strip, g.stop, e, h + 1, sp, 0, mem),
                        RunBranches(g.x, g.strip, g.stop, h, sp, 0, mem);
            if PathOn(Ending(g, e), Point(h + 1, sp, mem.pm)) then w == v
            else v.end.None? && w == if g.strip[e].O_Ch? then Trial(None, v.mem)
                                     else RunBranches(g.x, g.strip, g.stop, e + 1, sp, 0, v.mem)
  {
    hide LoopsConsume, Rank, CanLoop, PathOn, NoReturn, Run, BranchEnd;
    NextHead(g.strip, h, e);
    assert ExactFrom(Ending(g, e), h + 1, sp, mem);
  }

  /** And an optional part is taken if there is a path by which it is. */
  lemma {:induction false} BodyFirst(g: Goal, o: nat, sp: nat, mem: Memory)
    requires g.Valid() && g.On(sp) && o < g.stopst && g.strip[o].OQuest_? && Exact(g, o + 1, |mem.pm|, |mem.last|)
    ensures var v, w := Run(g.x, g.strip, g.stop, g.stopst, o + 1, sp, 0, mem),
                        Run(g.x, g.strip, g.stop, g.stopst, o, sp, 0, mem);
            if PathOn(g, Point(o + 1, sp, mem.pm)) then w == v
            else v.end.None? && w == Run(g.x, g.strip, g.stop, g.stopst, o + g.strip[o].fwd + 1, sp, 0, v.mem)
  {
    hide LoopsConsume, Rank, CanLoop, PathOn;
    RankDown(g.strip, o, o + 1);
    RankDown(g.strip, o, o + g.strip[o].fwd + 1);
    assert ExactFrom(g, o + 1, sp, mem);
  }

  /** A choice: its branches. */
  lemma {:induction false} ChoiceExact(g: Goal, o: nat, np: nat, nl: nat)
    requires g.Valid() && o < g.stopst && g.strip[o].OCh_? && BranchesExact(g, o, np, nl)
    ensures Exact(g, o, np, nl)
  {
    hide LoopsConsume, Rank, CanLoop, PathOn, NoReturn, RunBranches;
    forall sp, mem: Memory | g.On(sp) && Sized(mem, np, nl)
      ensures ExactFrom(g, o, sp, mem)
    {
      assert BranchesExactFrom(g, o, sp, mem);
    }
  }

  // ----- a whole expression -----

  /** What stands between the end of a branch and the end of the choice does not lead back to it. */
  lemma {:induction false} EndingIsValid(g: Goal, e: nat, alts: Alts)
    requires g.Valid() && e < |g.strip| && g.strip[e].OOr1? && LaidAlts(g.strip, e + 1, alts)
    requires g.stopst == e + 1 + LenAlts(alts)
    ensures Ending(g, e).Valid()
  {
    hide LaidAlts, LenAlts, LoopsConsume;
    LaidAltsSops(g.strip, e + 1, e + 1, alts);
    forall s | e < s < |g.strip| && g.strip[s].O_Plus?
      ensures e + g.strip[s].back <= s
    {
      if s < g.stopst { assert SopOk(g.strip, e + 1, |g.strip|, s); }
    }
  }

  lemma {:induction false} LastIsValid(g: Goal, e: nat)
    requires g.Valid() && e + 1 == g.stopst && g.strip[e].O_Ch?
    ensures Ending(g, e).Valid()
  {
    hide LoopsConsume;
  }

  lemma {:induction false} NothingIsTrusted()
    ensures Trusted(Eps)
  {
  }

  lemma {:induction false} BranchingIsExact(g: Goal, o: nat, r: Re, np: nat, nl: nat)
    requires g.Valid() && Laid(g.strip, o, r) && Branching(r) && Consumes(r) && InTable(r, np)
    requires (Depth(r) > 0 ==> nl > Depth(r)) && g.stopst == o + Len(r)
    ensures Exact(g, o, np, nl)
    decreases r, 1
  {
    hide LoopsConsume, Exact, Laid, LaidAlts, Len, LenAlts, Nullable, Trusted, NoReturn, Depth;
    DepthParts(r);
    NothingIsTrusted();
    if r == Eps || Trusted(r) {
      TrustedIsExact(g, o, r, np, nl);
    } else {
      match r
      case Leaf(atom, k) =>
        LaidLeaf(g.strip, o, atom, k);
        LenOfLeaf(atom, k);
        BranchingIsExact(g, o + 1, k, np, nl);
        LeafExact(g, o, atom, np, nl);
      case Back(n, b, k) =>
        LaidBack(g.strip, o, n, b, k);
        LenOfBack(n, b, k);
        BranchingIsExact(g, o + 2 + Len(b), k, np, nl);
        BackExact(g, o, n, b, k, np, nl);
      case Quest(b, k) =>
        LaidQuest(g.strip, o, b, k);
        LenOfQuest(b, k);
        BranchingIsExact(g, o + 2 + Len(b), k, np, nl);
        QuestEndExact(g, o + 1 + Len(b), np, nl);
        LoopsAreDeep(b);
        FlatIsExact(g, o + 1, b, np, nl);
        QuestExact(g, o, Len(b) + 1, np, nl);
      case Plus(b, k) =>
        LaidPlus(g.strip, o, b, k);
        LenOfPlus(b, k);
        BranchingIsExact(g, o + 2 + Len(b), k, np, nl);
        PlusExact(g, o, b, k, np, nl);
      case Choice(f, alts, k) =>
        AllBranchesExact(g, o, f, alts, np, nl);
        LenOfChoice(f, alts, k);
        ChoiceExact(g, o, np, nl);
    }
  }

  lemma {:induction false} AllBranchesExact(g: Goal, o: nat, f: Re, alts: Alts, np: nat, nl: nat)
    requires g.Valid() && Laid(g.strip, o, Choice(f, alts, Eps)) && Branching(f) && BranchingAlts(alts)
    requires Consumes(f) && ConsumesAlts(alts) && InTable(f, np) && AltsInTable(alts, np)
    requires (Depth(f) > 0 ==> nl > Depth(f)) && (DepthAlts(alts) > 0 ==> nl > DepthAlts(alts))
    requires g.stopst == o + Len(Choice(f, alts, Eps))
    ensures BranchesExact(g, o, np, nl) && g.strip[o].OCh_?
    decreases Choice(f, alts, Eps), 0
  {
    hide LoopsConsume, Exact, Laid, LaidAlts, Len, LenAlts, NoReturn, Depth, DepthAlts, Branching, BranchingAlts,
      Consumes, ConsumesAlts, InTable, AltsInTable, ChEnd, Stays, Leaves, BranchesExact, Hop;
    LenOfChoice(f, alts, Eps);
    LenOfEps();
    var c := LaidChoice(g.strip, o, f, alts, Eps);
    var e := o + 1 + Len(f);
    EndingIsValid(g, e, alts);
    PartStays(g, o + 1, f);
    LeavesAt(g, e);
    BranchingIsExact(Ending(g, e), o + 1, f, np, nl);
    AltsExact(g, e + 1, alts, np, nl);
    HeadExact(g, o, e, np, nl);
  }

  lemma {:induction false} AltsExact(g: Goal, h: nat, alts: Alts, np: nat, nl: nat)
    requires g.Valid() && LaidAlts(g.strip, h, alts) && BranchingAlts(alts) && ConsumesAlts(alts)
    requires AltsInTable(alts, np) && (DepthAlts(alts) > 0 ==> nl > DepthAlts(alts))
    requires g.stopst == h + LenAlts(alts)
    ensures BranchesExact(g, h, np, nl)
    decreases alts, 0
  {
    hide LoopsConsume, Exact, Laid, LaidAlts, Len, LenAlts, NoReturn, Depth, Branching, Consumes, InTable, ChEnd,
      Stays, Leaves, BranchesExact, Hop;
    var b := alts.b;
    var e := h + 1 + Len(b);
    if alts.Last? {
      LaidLast(g.strip, h, b);
      LenOfLast(b);
      LastIsValid(g, e);
    } else {
      LaidOr(g.strip, h, b, alts.more);
      LenOfOr(b, alts.more);
      EndingIsValid(g, e, alts.more);
      AltsExact(g, e + 1, alts.more, np, nl);
    }
    PartStays(g, h + 1, b);
    LeavesAt(g, e);
    BranchingIsExact(Ending(g, e), h + 1, b, np, nl);
    HeadExact(g, h, e, np, nl);
  }

  /** On such code, backtracking succeeds exactly when there is a path from the first state to the last on which
      back references are consistent and anchors pass the tests backref makes, by whichever branches. */
  lemma {:induction false} BranchesMissNothing(g: Goal, o: nat, r: Re, sp: nat, mem: Memory)
    requires g.Valid() && g.On(sp) && Laid(g.strip, o, r) && g.stopst == o + Len(r) && Branching(r) && Consumes(r)
    requires InTable(r, |mem.pm|) && (Depth(r) > 0 ==> |mem.last| > Depth(r))
    ensures Wins(g, o, sp, 0, mem) <==> PathOn(g, Point(o, sp, mem.pm))
  {
    hide LoopsConsume, PathOn, Laid, Len, Branching, Consumes, Depth, NoReturn;
    BranchingIsExact(g, o, r, |mem.pm|, |mem.last|);
    assert ExactFrom(g, o, sp, mem);
  }
}
