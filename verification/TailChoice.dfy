/** Backtracking through alternations (include/regex/engine.c, lines 640-660). Each branch is held to all the text
    that is left, and what follows the alternation is not looked at. That is sound where nothing that matters
    follows: when the O_CH is the last operator but for ends of loops and of optional parts. */
module TailChoice {
  import opened Strip
  import opened Regex
  import opened Thompson
  import opened Captures
  import opened Backtrack
  import opened BackrefSound
  import opened Consuming
  import opened Levels

  /** Alternations stand only at the end. `last` says that behind `r` there is nothing up to where the
      run stops but ends of loops and of optional parts. */
  predicate AtEnd(r: Re, last: bool) {
    match r
    case Eps => true
    case Leaf(_, k) => AtEnd(k, last)
    case Plus(b, k) => AtEnd(b, last && k == Eps) && AtEnd(k, last)
    case Quest(b, k) => AtEnd(b, last && k == Eps) && AtEnd(k, last)
    case Choice(f, alts, k) => last && k == Eps && AtEnd(f, true) && AtEndAlts(alts)
    case Back(_, _, k) => AtEnd(k, last)
  }

  predicate AtEndAlts(alts: Alts) {
    match alts
    case Last(b) => AtEnd(b, true)
    case Or(b, m) => AtEnd(b, true) && AtEndAlts(m)
  }

  lemma {:induction false} NoChoiceAtEnd(r: Re, last: bool)
    requires NoChoice(r)
    ensures AtEnd(r, last)
    decreases r
  {
    match r
    case Eps =>
    case Leaf(_, k) => NoChoiceAtEnd(k, last);
    case Plus(b, k) => NoChoiceAtEnd(b, last && k == Eps); NoChoiceAtEnd(k, last);
    case Quest(b, k) => NoChoiceAtEnd(b, last && k == Eps); NoChoiceAtEnd(k, last);
    case Back(_, _, k) => NoChoiceAtEnd(k, last);
  }

  // ----- success means a path -----

  ghost predicate SoundFrom(f: Frame, stopst: nat, ss: nat, sp: nat, lev: nat, mem: Memory)
    requires f.Valid() && f.On(sp)
  {
    var v := Run(f.x, f.strip, f.stop, stopst, ss, sp, lev, mem);
    v.end.Some? ==> Leads(f.x, f.strip, f.stop, Point(ss, sp, mem.pm), Point(stopst, f.stop, v.mem.pm))
  }

  /** Every run from `ss` and from position `p` on. */
  ghost predicate AllSound(f: Frame, stopst: nat, ss: nat, p: nat)
    requires f.Valid()
  {
    forall sp: nat, lev: nat, mem: Memory :: f.On(sp) && p <= sp ==> SoundFrom(f, stopst, ss, sp, lev, mem)
  }

  /** At the end of the text the rest of the strip can be passed, and captures nothing. */
  ghost predicate Through(f: Frame, stopst: nat, ss: nat)
    requires f.Valid()
  {
    forall pm :: Leads(f.x, f.strip, f.stop, Point(ss, f.stop, pm), Point(stopst, f.stop, pm))
  }

  lemma {:induction false} OneMoreThrough(f: Frame, stopst: nat, ss: nat)
    requires f.Valid() && ss < |f.strip| && (f.strip[ss].O_Plus? || f.strip[ss].O_Quest?) && Through(f, stopst, ss + 1)
    ensures Through(f, stopst, ss)
  {
    hide Leads, LoopsConsume;
    forall pm
      ensures Leads(f.x, f.strip, f.stop, Point(ss, f.stop, pm), Point(stopst, f.stop, pm))
    {
      Prepend(f.x, f.strip, f.stop, Point(ss, f.stop, pm), Point(ss + 1, f.stop, pm), Point(stopst, f.stop, pm));
    }
  }

  lemma {:induction false} StopSound(f: Frame, stopst: nat, p: nat)
    requires f.Valid()
    ensures AllSound(f, stopst, stopst, p) && Through(f, stopst, stopst)
  {
    hide LoopsConsume, Rank, CanLoop, Leads;
    forall sp: nat, pm
      ensures Leads(f.x, f.strip, f.stop, Point(stopst, sp, pm), Point(stopst, sp, pm))
    {
      Arrived(f.x, f.strip, f.stop, Point(stopst, sp, pm));
    }
  }

  // ----- one operator -----

  lemma {:induction false} EasySound(f: Frame, stopst: nat, o: nat, p: nat, takes: bool)
    requires f.Valid() && o < stopst && o < |f.strip|
    requires EasyOp(f.strip[o]) && (takes ==> f.strip[o].OChar? || f.strip[o].OAny? || f.strip[o].OAnyOf?)
    requires AllSound(f, stopst, o + 1, if takes then p + 1 else p)
    ensures AllSound(f, stopst, o, p)
  {
    hide LoopsConsume, Rank, CanLoop, Leads;
    forall sp: nat, lev: nat, mem: Memory | f.On(sp) && p <= sp
      ensures SoundFrom(f, stopst, o, sp, lev, mem)
    {
      EasyRank(f.x, f.strip, f.stop, o, sp);
      var e := EasyStep(f.x, f.strip, f.stop, o, sp);
      if e.To? {
        EasyIsMove(f.x, f.strip, f.stop, Point(o, sp, mem.pm), Point(e.ss, e.sp, mem.pm));
        assert SoundFrom(f, stopst, o + 1, e.sp, lev, mem);
        Then(f.x, f.strip, f.stop, stopst, Point(o, sp, mem.pm), Point(e.ss, e.sp, mem.pm),
             Run(f.x, f.strip, f.stop, stopst, e.ss, e.sp, lev, mem));
      }
    }
  }

  predicate EasyOp(op: Sop) {
    op.OChar? || op.OAny? || op.OAnyOf? || op.OBol? || op.OEol? || op.OBow? || op.OEow? || op.O_Quest?
  }

  lemma {:induction false} ParenSound(f: Frame, stopst: nat, o: nat, p: nat)
    requires f.Valid() && o < stopst && o < |f.strip| && (f.strip[o].OLParen? || f.strip[o].ORParen?)
    requires AllSound(f, stopst, o + 1, p)
    ensures AllSound(f, stopst, o, p)
  {
    hide LoopsConsume, Rank, CanLoop, Leads;
    RankDown(f.strip, o, o + 1);
    var i := f.strip[o].paren;
    forall sp: nat, lev: nat, mem: Memory | f.On(sp) && p <= sp
      ensures SoundFrom(f, stopst, o, sp, lev, mem)
    {
      if i < |mem.pm| {
        var m := mem.(pm := if f.strip[o].OLParen? then SetSo(mem.pm, i, sp) else SetEo(mem.pm, i, sp));
        assert SoundFrom(f, stopst, o + 1, sp, lev, m);
        Then(f.x, f.strip, f.stop, stopst, Point(o, sp, mem.pm), Point(o + 1, sp, m.pm),
             Run(f.x, f.strip, f.stop, stopst, o + 1, sp, lev, m));
      }
    }
  }

  lemma {:induction false} BackSound(f: Frame, stopst: nat, o: nat, n: nat, e: nat, p: nat)
    requires f.Valid() && o < stopst && o < |f.strip| && f.strip[o] == OBack_(n) && FindBack(f.strip, o, n) == Some(e)
    requires AllSound(f, stopst, e + 1, p)
    ensures AllSound(f, stopst, o, p)
  {
    hide LoopsConsume, Rank, CanLoop, Leads, FindBack;
    RankDown(f.strip, o, e + 1);
    forall sp: nat, lev: nat, mem: Memory | f.On(sp) && p <= sp
      ensures SoundFrom(f, stopst, o, sp, lev, mem)
    {
      if n < |mem.pm| && Repeats(f.x, f.stop, sp, mem.pm[n]) {
        var t := sp + (mem.pm[n].eo - mem.pm[n].so);
        assert SoundFrom(f, stopst, e + 1, t, lev, mem);
        Then(f.x, f.strip, f.stop, stopst, Point(o, sp, mem.pm), Point(e + 1, t, mem.pm),
             Run(f.x, f.strip, f.stop, stopst, e + 1, t, lev, mem));
      }
    }
  }

  lemma {:induction false} QuestSound(f: Frame, stopst: nat, o: nat, p: nat)
    requires f.Valid() && o < stopst && o < |f.strip| && f.strip[o].OQuest_?
    requires AllSound(f, stopst, o + 1, p) && AllSound(f, stopst, o + f.strip[o].fwd + 1, p)
    ensures AllSound(f, stopst, o, p)
  {
    hide LoopsConsume, Rank, CanLoop, Leads;
    var n := f.strip[o].fwd;
    RankDown(f.strip, o, o + 1);
    RankDown(f.strip, o, o + n + 1);
    forall sp: nat, lev: nat, mem: Memory | f.On(sp) && p <= sp
      ensures SoundFrom(f, stopst, o, sp, lev, mem)
    {
      var c := Point(o, sp, mem.pm);
      var v := Run(f.x, f.strip, f.stop, stopst, o + 1, sp, lev, mem);
      assert SoundFrom(f, stopst, o + 1, sp, lev, mem);
      Then(f.x, f.strip, f.stop, stopst, c, Point(o + 1, sp, mem.pm), v);
      if v.end.None? {
        Restores(f.x, f.strip, f.stop, stopst, o + 1, sp, lev, mem);
        assert SoundFrom(f, stopst, o + n + 1, sp, lev, v.mem);
        Then(f.x, f.strip, f.stop, stopst, c, Point(o + n + 1, sp, mem.pm),
             Run(f.x, f.strip, f.stop, stopst, o + n + 1, sp, lev, v.mem));
      }
    }
  }

  lemma {:induction false} EnterSound(f: Frame, stopst: nat, o: nat, p: nat)
    requires f.Valid() && o < stopst && o < |f.strip| && f.strip[o].OPlus_? && AllSound(f, stopst, o + 1, p)
    ensures AllSound(f, stopst, o, p)
  {
    hide LoopsConsume, Rank, CanLoop, Leads;
    RankDown(f.strip, o, o + 1);
    forall sp: nat, lev: nat, mem: Memory | f.On(sp) && p <= sp
      ensures SoundFrom(f, stopst, o, sp, lev, mem)
    {
      var m := mem.(last := Put(mem.last, lev + 1, sp));
      assert SoundFrom(f, stopst, o + 1, sp, lev + 1, m);
      Then(f.x, f.strip, f.stop, stopst, Point(o, sp, mem.pm), Point(o + 1, sp, mem.pm),
           Run(f.x, f.strip, f.stop, stopst, o + 1, sp, lev + 1, m));
    }
  }

  lemma {:induction false} AgainSound(f: Frame, stopst: nat, q: nat, p: nat)
    requires f.Valid() && q < stopst && q < |f.strip| && f.strip[q].O_Plus? && 0 < f.strip[q].back <= q
    requires AllSound(f, stopst, q - f.strip[q].back + 1, p) && AllSound(f, stopst, q + 1, p)
    ensures AllSound(f, stopst, q, p)
  {
    hide LoopsConsume, CanLoop, Leads;
    var b := q - f.strip[q].back + 1;
    LoopHere(f.strip, q);
    RankDown(f.strip, q, q + 1);
    forall sp: nat, lev: nat, mem: Memory | f.On(sp) && p <= sp
      ensures SoundFrom(f, stopst, q, sp, lev, mem)
    {
      var c, d := Point(q, sp, mem.pm), Point(q + 1, sp, mem.pm);
      if lev != 0 && lev < |mem.last| {
        assert SoundFrom(f, stopst, q + 1, sp, lev - 1, mem);
        Then(f.x, f.strip, f.stop, stopst, c, d, Run(f.x, f.strip, f.stop, stopst, q + 1, sp, lev - 1, mem));
        var m := mem.(last := Put(mem.last, lev, sp));
        var v := Run(f.x, f.strip, f.stop, stopst, b, sp, lev, m);
        assert SoundFrom(f, stopst, b, sp, lev, m);
        Then(f.x, f.strip, f.stop, stopst, c, Point(b, sp, mem.pm), v);
        if v.end.None? {
          Restores(f.x, f.strip, f.stop, stopst, b, sp, lev, m);
          assert SoundFrom(f, stopst, q + 1, sp, lev - 1, v.mem);
          Then(f.x, f.strip, f.stop, stopst, c, d, Run(f.x, f.strip, f.stop, stopst, q + 1, sp, lev - 1, v.mem));
        }
      }
    }
  }

  // ----- choices -----

  /** A branch that reaches the end of the text does so by a path to behind the choice, which ends at `c`. */
  ghost predicate BranchesSound(f: Frame, h: nat, c: nat)
    requires f.Valid() && h < |f.strip|
  {
    forall sp: nat, lev: nat, mem: Memory :: f.On(sp) ==> BranchesFrom(f, h, c, sp, lev, mem)
  }

  ghost predicate BranchesFrom(f: Frame, h: nat, c: nat, sp: nat, lev: nat, mem: Memory)
    requires f.Valid() && h < |f.strip| && f.On(sp)
  {
    var v := RunBranches(f.x, f.strip, f.stop, h, sp, lev, mem);
    v.end.Some? ==> Leads(f.x, f.strip, f.stop, Point(h, sp, mem.pm), Point(c + 1, f.stop, v.mem.pm))
  }

  lemma {:induction false} Joined(f: Frame, a: Point, b: Point, c: Point)
    requires f.Valid() && Leads(f.x, f.strip, f.stop, a, b) && Leads(f.x, f.strip, f.stop, b, c)
    ensures Leads(f.x, f.strip, f.stop, a, c)
  {
    hide PointClosed, LoopsConsume;
  }

  /** The branch headed at `h`, which ends at `e`, and those after it. */
  lemma {:induction false} OneBranch(f: Frame, h: nat, e: nat, c: nat)
    requires f.Valid() && h < |f.strip| && BranchEnd(f.strip, h) == Some(e) && AllSound(f, e, h + 1, 0)
    requires if f.strip[e].O_Ch? then e == c
             else e + 1 < |f.strip| && ChEnd(f.strip, e + 1) == Some(c) && !f.strip[e + 1].O_Ch?
                  && h + f.strip[h].fwd == e + 1 && BranchesSound(f, e + 1, c)
    ensures BranchesSound(f, h, c)
  {
    hide LoopsConsume, Rank, CanLoop, Leads, BranchEnd, ChEnd;
    NextHead(f.strip, h, e);
    Heads(f.strip, h, e);
    forall sp: nat, lev: nat, mem: Memory | f.On(sp)
      ensures BranchesFrom(f, h, c, sp, lev, mem)
    {
      var v := Run(f.x, f.strip, f.stop, e, h + 1, sp, lev, mem);
      assert SoundFrom(f, e, h + 1, sp, lev, mem);
      Then(f.x, f.strip, f.stop, e, Point(h, sp, mem.pm), Point(h + 1, sp, mem.pm), v);
      if v.end.Some? {
        Leave(f, e, c, v.mem.pm);
        Joined(f, Point(h, sp, mem.pm), Point(e, f.stop, v.mem.pm), Point(c + 1, f.stop, v.mem.pm));
      } else if !f.strip[e].O_Ch? {
        Restores(f.x, f.strip, f.stop, e, h + 1, sp, lev, mem);
        assert BranchesFrom(f, e + 1, c, sp, lev, v.mem);
        var w := RunBranches(f.x, f.strip, f.stop, e + 1, sp, lev, v.mem);
        if w.end.Some? {
          Prepend(f.x, f.strip, f.stop, Point(h, sp, mem.pm), Point(e + 1, sp, mem.pm), Point(c + 1, f.stop, w.mem.pm));
        }
      }
    }
  }

  lemma {:induction false} Heads(strip: Ops, h: nat, e: nat)
    requires h < |strip| && BranchEnd(strip, h) == Some(e)
    ensures strip[h].OCh_? || strip[h].OOr2?
    ensures strip[e].OOr1? || strip[e].O_Ch?
  {
  }

  /** From the end of a branch to behind the choice. */
  lemma {:induction false} Leave(f: Frame, e: nat, c: nat, pm: seq<Span>)
    requires f.Valid() && e < |f.strip| && (f.strip[e].OOr1? || f.strip[e].O_Ch?)
    requires if f.strip[e].O_Ch? then e == c else ChEnd(f.strip, e + 1) == Some(c)
    ensures Leads(f.x, f.strip, f.stop, Point(e, f.stop, pm), Point(c + 1, f.stop, pm))
  {
    hide LoopsConsume, Leads, ChEnd;
    Arrived(f.x, f.strip, f.stop, Point(c + 1, f.stop, pm));
    Prepend(f.x, f.strip, f.stop, Point(e, f.stop, pm), Point(c + 1, f.stop, pm), Point(c + 1, f.stop, pm));
  }

  lemma {:induction false} ChoiceSound(f: Frame, stopst: nat, o: nat, c: nat, p: nat)
    requires f.Valid() && o < stopst && o < |f.strip| && f.strip[o].OCh_? && BranchesSound(f, o, c)
    requires Through(f, stopst, c + 1)
    ensures AllSound(f, stopst, o, p)
  {
    hide LoopsConsume, Rank, CanLoop, Leads;
    forall sp: nat, lev: nat, mem: Memory | f.On(sp) && p <= sp
      ensures SoundFrom(f, stopst, o, sp, lev, mem)
    {
      var v := RunBranches(f.x, f.strip, f.stop, o, sp, lev, mem);
      assert BranchesFrom(f, o, c, sp, lev, mem);
      if v.end.Some? {
        Joined(f, Point(o, sp, mem.pm), Point(c + 1, f.stop, v.mem.pm), Point(stopst, f.stop, v.mem.pm));
      }
    }
  }

  // ----- a whole expression -----

  lemma {:induction false} LaterSound(f: Frame, stopst: nat, ss: nat, p: nat, q: nat)
    requires f.Valid() && p <= q && AllSound(f, stopst, ss, p)
    ensures AllSound(f, stopst, ss, q)
  {
    hide SoundFrom, LoopsConsume;
  }

  lemma {:induction false} CodeSound(f: Frame, stopst: nat, o: nat, r: Re, last: bool, p: nat)
    requires f.Valid() && Laid(f.strip, o, r) && Consumes(r) && AtEnd(r, last)
    requires o + Len(r) <= stopst && o + Len(r) <= |f.strip|
    requires AllSound(f, stopst, o + Len(r), Beyond(r, p)) && (last ==> Through(f, stopst, o + Len(r)))
    ensures AllSound(f, stopst, o, p)
    decreases r, 1, 0
  {
    hide Laid, LaidAlts, Len, LenAlts, AllSound, Through, LoopsConsume;
    match r
    case Eps => LenOfEps();
    case Leaf(atom, k) =>
      LaidLeaf(f.strip, o, atom, k);
      LenOfLeaf(atom, k);
      var p1 := if Takes(atom) then p + 1 else p;
      LaterSound(f, stopst, o + Len(r), Beyond(r, p), Beyond(k, p1));
      CodeSound(f, stopst, o + 1, k, last, p1);
      if atom.Paren() { ParenSound(f, stopst, o, p); } else { EasySound(f, stopst, o, p, Takes(atom)); }
    case Plus(b, k) =>
      LaidPlus(f.strip, o, b, k);
      LenOfPlus(b, k);
      LaterSound(f, stopst, o + Len(r), p + 1, Beyond(k, p + 1));
      CodeSound(f, stopst, o + 2 + Len(b), k, last, p + 1);
      if last && k == Eps { LenOfEps(); OneMoreThrough(f, stopst, o + 1 + Len(b)); }
      PassSound(f, stopst, o + 1, r, b, k, last && k == Eps, p);
      EnterSound(f, stopst, o, p);
    case Quest(b, k) =>
      LaidQuest(f.strip, o, b, k);
      LenOfQuest(b, k);
      var e := o + 1 + Len(b);
      CodeSound(f, stopst, e + 1, k, last, p);
      if last && k == Eps { LenOfEps(); OneMoreThrough(f, stopst, e); }
      EasySound(f, stopst, e, p, false);
      LaterSound(f, stopst, e, p, Beyond(b, p));
      CodeSound(f, stopst, o + 1, b, last && k == Eps, p);
      QuestSound(f, stopst, o, p);
    case Back(n, b, k) =>
      LaidBack(f.strip, o, n, b, k);
      LenOfBack(n, b, k);
      BackEnds(f.strip, o, n, b, k);
      CodeSound(f, stopst, o + 2 + Len(b), k, last, p);
      BackSound(f, stopst, o, n, o + 1 + Len(b), p);
    case Choice(g, alts, k) =>
      LenOfChoice(g, alts, k);
      LenOfEps();
      LastChoiceSound(f, stopst, o, g, alts, p);
  }

  lemma {:induction false} LastChoiceSound(f: Frame, stopst: nat, o: nat, g: Re, alts: Alts, p: nat)
    requires f.Valid() && Laid(f.strip, o, Choice(g, alts, Eps)) && Consumes(g) && ConsumesAlts(alts)
    requires AtEnd(g, true) && AtEndAlts(alts) && o < stopst && Through(f, stopst, o + Len(Choice(g, alts, Eps)))
    ensures AllSound(f, stopst, o, p)
    decreases Choice(g, alts, Eps), 0, 0
  {
    hide Laid, LaidAlts, Len, LenAlts, AllSound, Through, LoopsConsume, Consumes, ConsumesAlts, AtEnd, AtEndAlts,
      ChEnd;
    LenOfChoice(g, alts, Eps);
    LenOfEps();
    var c := LaidChoice(f.strip, o, g, alts, Eps);
    StopSound(f, o + 1 + Len(g), Beyond(g, 0));
    CodeSound(f, o + 1 + Len(g), o + 1, g, true, 0);
    AltsSound(f, o + 2 + Len(g), alts);
    OneBranch(f, o, o + 1 + Len(g), c);
    ChoiceSound(f, stopst, o, c, p);
  }

  lemma {:induction false} PassSound(f: Frame, stopst: nat, o: nat, r: Re, b: Re, k: Re, last: bool, p: nat)
    requires f.Valid() && r == Plus(b, k) && Laid(f.strip, o, b) && Consumes(b) && !Nullable(b) && AtEnd(b, last)
    requires o >= 1 && o + Len(b) < stopst && o + Len(b) < |f.strip| && f.strip[o + Len(b)] == O_Plus(Len(b) + 1)
    requires AllSound(f, stopst, o + Len(b) + 1, p + 1) && (last ==> Through(f, stopst, o + Len(b)))
    ensures AllSound(f, stopst, o, p)
    decreases r, 0, if p <= f.stop then f.stop + 1 - p else 0
  {
    hide Laid, Len, AllSound, Through, LoopsConsume;
    if p > f.stop {
      NowhereSound(f, stopst, o, p);
    } else {
      LaterSound(f, stopst, o + Len(b) + 1, p + 1, p + 2);
      PassSound(f, stopst, o, r, b, k, last, p + 1);
      AgainSound(f, stopst, o + Len(b), p + 1);
      CodeSound(f, stopst, o, b, last, p);
    }
  }

  lemma {:induction false} NowhereSound(f: Frame, stopst: nat, ss: nat, p: nat)
    requires f.Valid() && p > f.stop
    ensures AllSound(f, stopst, ss, p)
  {
    hide SoundFrom, LoopsConsume;
  }

  lemma {:induction false} AltsSound(f: Frame, h: nat, alts: Alts)
    requires f.Valid() && LaidAlts(f.strip, h, alts) && ConsumesAlts(alts) && AtEndAlts(alts)
    ensures h < |f.strip| && BranchesSound(f, h, h + LenAlts(alts) - 1)
    decreases alts, 0, 0
  {
    hide Laid, LaidAlts, Len, LenAlts, AllSound, Through, LoopsConsume, ChEnd;
    var b := alts.b;
    if alts.Last? {
      LaidLast(f.strip, h, b);
      LenOfLast(b);
    } else {
      LaidOr(f.strip, h, b, alts.more);
      LenOfOr(b, alts.more);
    }
    var e := h + 1 + Len(b);
    StopSound(f, e, Beyond(b, 0));
    CodeSound(f, e, h + 1, b, true, 0);
    if alts.Or? { AltsSound(f, e + 1, alts.more); }
    OneBranch(f, h, e, h + LenAlts(alts) - 1);
  }

  /** Success over the code of such an expression means there is a path from its first state to its last
      that takes exactly the text and leaves the captures as they are reported. */
  lemma {:induction false} Sound(f: Frame, o: nat, r: Re, sp: nat, lev: nat, mem: Memory)
    requires f.Valid() && f.On(sp) && Laid(f.strip, o, r) && o + Len(r) <= |f.strip| && Consumes(r) && AtEnd(r, true)
    ensures SoundFrom(f, o + Len(r), o, sp, lev, mem)
  {
    hide Laid, Len, LoopsConsume, SoundFrom, Consumes;
    StopSound(f, o + Len(r), Beyond(r, 0));
    CodeSound(f, o + Len(r), o, r, true, 0);
  }
}
