/** backref tests the anchors itself (include/regex/engine.c, lines 534-571), and its test for ^ is not that of
    fast and slow (lines 731-761): it wants a character behind the newline. Where that makes no difference,
    backtracking is exact for paths whose anchors are those of the rest of the engine. */
module AnchorTests {
  import opened Strip
  import opened Text
  import opened Regex
  import opened Thompson
  import opened Captures
  import opened Backtrack
  import opened BackrefSound
  import opened BackrefExact
  import opened Levels
  import opened Chains
  import opened Consuming
  import opened LastChoice

  // ----- the tests -----

  /** The end of a text that ends in a newline, with REG_NEWLINE. */
  predicate Blind(x: Subject, sp: nat)
    requires x.Valid() && x.begin <= sp <= x.end
  {
    sp == x.end && x.begin < sp && x.text[sp - 1] == '\n' && x.newline
  }

  /** The tests agree, but for ^ at such an end. */
  lemma {:induction false} TestsAgree(x: Subject, sp: nat)
    requires x.Valid() && x.begin <= sp <= x.end
    ensures BolB(x, sp) <==> x.BolAt(sp) && !Blind(x, sp)
    ensures EolB(x, sp) <==> x.EolAt(sp)
    ensures BowB(x, sp) <==> x.BowAt(sp)
    ensures EowB(x, sp) <==> x.EowAt(sp)
  {
  }

  // ----- paths with the anchors of the rest of the engine -----

  /** One move, an anchor being passed where fast and slow pass it that have not just passed a word
      boundary. */
  ghost predicate Move(x: Subject, strip: Ops, stop: nat, c: Point, d: Point)
    requires x.Valid() && stop <= x.end
  {
    if c.ss < |strip| && Anchor(strip[c.ss]) then
      x.begin <= c.sp <= stop && x.Consume(strip[c.ss], At(c.sp, false)).Some? && d == Point(c.ss + 1, c.sp, c.pm)
    else Hop(x, strip, stop, c, d)
  }

  ghost predicate MoveClosed(x: Subject, strip: Ops, stop: nat, X: iset<Point>)
    requires x.Valid() && stop <= x.end
  {
    forall c, d :: c in X && Move(x, strip, stop, c, d) ==> d in X
  }

  ghost predicate Goes(x: Subject, strip: Ops, stop: nat, c: Point, d: Point)
    requires x.Valid() && stop <= x.end
  {
    forall X: iset<Point> :: c in X && MoveClosed(x, strip, stop, X) ==> d in X
  }

  /** There is such a path to the last state at the end of the text. */
  ghost predicate WayOn(g: Goal, c: Point)
    requires g.Valid()
  {
    exists pm :: Goes(g.x, g.strip, g.stop, c, Point(g.stopst, g.stop, pm))
  }

  /** The moves backtracking makes are these, except that it does not pass ^ at a blind end. */
  lemma {:induction false} HopIsMove(x: Subject, strip: Ops, stop: nat, c: Point, d: Point)
    requires x.Valid() && stop <= x.end
    ensures Hop(x, strip, stop, c, d)
      <==> Move(x, strip, stop, c, d) && !(c.ss < |strip| && strip[c.ss].OBol? && Blind(x, c.sp))
  {
    hide ChEnd, FindBack, Repeats;
    if c.ss < |strip| && x.begin <= c.sp <= stop { TestsAgree(x, c.sp); }
  }

  /** So what it accepts is such a path, whatever the text. */
  lemma {:induction false} LeadsGoes(x: Subject, strip: Ops, stop: nat, c: Point, d: Point)
    requires x.Valid() && stop <= x.end && Leads(x, strip, stop, c, d)
    ensures Goes(x, strip, stop, c, d)
  {
    hide Hop, Move;
    forall X: iset<Point> | c in X && MoveClosed(x, strip, stop, X)
      ensures d in X
    {
      forall p, q | p in X && Hop(x, strip, stop, p, q)
        ensures q in X
      {
        HopIsMove(x, strip, stop, p, q);
      }
      assert PointClosed(x, strip, stop, X);
    }
  }

  predicate Free(strip: Ops, op: Sop) { forall s :: 0 <= s < |strip| ==> strip[s] != op }

  /** The tests make no difference: the run does not end at a blind end, or there is no ^. */
  ghost predicate Clear(g: Goal)
    requires g.Valid()
  {
    !Blind(g.x, g.stop) || Free(g.strip, OBol)
  }

  lemma {:induction false} GoesLeads(g: Goal, c: Point, d: Point)
    requires g.Valid() && Clear(g) && Goes(g.x, g.strip, g.stop, c, d)
    ensures Leads(g.x, g.strip, g.stop, c, d)
  {
    hide Hop, Move, LoopsConsume;
    forall X: iset<Point> | c in X && PointClosed(g.x, g.strip, g.stop, X)
      ensures d in X
    {
      forall p, q | p in X && Move(g.x, g.strip, g.stop, p, q)
        ensures q in X
      {
        MoveIsHere(g.x, g.strip, g.stop, p, q);
        HopIsMove(g.x, g.strip, g.stop, p, q);
      }
      assert MoveClosed(g.x, g.strip, g.stop, X);
    }
  }

  lemma {:induction false} MoveIsHere(x: Subject, strip: Ops, stop: nat, c: Point, d: Point)
    requires x.Valid() && stop <= x.end && Move(x, strip, stop, c, d)
    ensures c.ss < |strip| && x.begin <= c.sp <= stop
  {
    hide ChEnd, FindBack, Repeats, EasyStep;
  }

  lemma {:induction false} PathIsWay(g: Goal, c: Point)
    requires g.Valid()
    ensures PathOn(g, c) ==> WayOn(g, c)
    ensures Clear(g) ==> (PathOn(g, c) <==> WayOn(g, c))
  {
    hide Leads, Goes, LoopsConsume, Clear;
    forall pm
      ensures Leads(g.x, g.strip, g.stop, c, Point(g.stopst, g.stop, pm)) ==>
              Goes(g.x, g.strip, g.stop, c, Point(g.stopst, g.stop, pm))
      ensures Clear(g) && Goes(g.x, g.strip, g.stop, c, Point(g.stopst, g.stop, pm)) ==>
              Leads(g.x, g.strip, g.stop, c, Point(g.stopst, g.stop, pm))
    {
      var d := Point(g.stopst, g.stop, pm);
      if Leads(g.x, g.strip, g.stop, c, d) { LeadsGoes(g.x, g.strip, g.stop, c, d); }
      if Clear(g) && Goes(g.x, g.strip, g.stop, c, d) { GoesLeads(g, c, d); }
    }
  }

  // ----- where backtracking is exact for them -----

  /** Code and tables for which Chains.BacktrackingIsExact or LastChoice.BranchesMissNothing holds. */
  ghost predicate Apt(g: Goal, o: nat, r: Re, sp: nat, mem: Memory) {
    g.Valid() && g.On(sp) && Laid(g.strip, o, r) && g.stopst == o + Len(r) && InTable(r, |mem.pm|)
    && (Trusted(r) || (Branching(r) && Consumes(r))) && (Depth(r) > 0 ==> |mem.last| > Depth(r))
  }

  ghost predicate Right(g: Goal, o: nat, sp: nat, mem: Memory)
    requires g.Valid() && g.On(sp)
  {
    Wins(g, o, sp, 0, mem) <==> WayOn(g, Point(o, sp, mem.pm))
  }

  lemma {:induction false} RightIfClear(g: Goal, o: nat, r: Re, sp: nat, mem: Memory)
    requires Apt(g, o, r, sp, mem) && Clear(g)
    ensures Right(g, o, sp, mem)
  {
    hide LoopsConsume, PathOn, WayOn, Wins, Laid, Len, Trusted, Branching, Consumes, Depth, Clear;
    if Trusted(r) { BacktrackingIsExact(g, o, r, sp, mem); } else { BranchesMissNothing(g, o, r, sp, mem); }
    PathIsWay(g, Point(o, sp, mem.pm));
  }

  /** On a text, held to `stop`, backtracking is exact for all such code, if and only if that is no blind
      end. */
  lemma {:induction false} RightIffSighted(x: Subject, stop: nat)
    requires x.Valid() && x.begin <= stop <= x.end
    ensures (forall g: Goal, o: nat, r: Re, sp: nat, mem: Memory ::
               Apt(g, o, r, sp, mem) && g.x == x && g.stop == stop ==> Right(g, o, sp, mem))
      <==> !Blind(x, stop)
  {
    hide Right, LoopsConsume, Laid, Len, Trusted, Branching, Consumes, Depth;
    if Blind(x, stop) {
      var g, mem := Hat(x, stop), Memory([], []);
      HatIsApt(x, stop);
      HatIsWrong(x, stop);
      assert Apt(g, 1, Leaf(Atom.Bol, Eps), stop, mem) && !Right(g, 1, stop, mem);
    } else {
      forall g: Goal, o: nat, r: Re, sp: nat, mem: Memory | Apt(g, o, r, sp, mem) && g.x == x && g.stop == stop
        ensures Right(g, o, sp, mem)
      {
        RightIfClear(g, o, r, sp, mem);
      }
    }
  }

  /** ^ alone. */
  function Hat(x: Subject, stop: nat): Goal { Goal(x, [OEnd, OBol, OEnd], stop, 2) }

  lemma {:induction false} HatIsApt(x: Subject, stop: nat)
    requires x.Valid() && x.begin <= stop <= x.end
    ensures Apt(Hat(x, stop), 1, Leaf(Atom.Bol, Eps), stop, Memory([], []))
  {
    EpsIsLaid(Hat(x, stop).strip, 2);
    hide CanLoop;
  }

  lemma {:induction false} HatIsWrong(x: Subject, stop: nat)
    requires x.Valid() && x.begin <= stop <= x.end && Hat(x, stop).Valid() && Blind(x, stop)
    ensures !Right(Hat(x, stop), 1, stop, Memory([], []))
  {
    hide LoopsConsume, CanLoop, Rank;
    var g, c, d := Hat(x, stop), Point(1, stop, []), Point(2, stop, []);
    assert Move(x, g.strip, stop, c, d);
    assert Goes(x, g.strip, stop, c, d);
  }

  // ----- with the mark of a word boundary -----

  /** A state, a place in the text with its mark, and what the groups have captured. */
  datatype Place = Place(ss: nat, at: At, pm: seq<Span>)

  function Bare(c: Place): Point { Point(c.ss, c.at.p, c.pm) }

  /** One move, text and anchors being passed exactly as fast and slow pass them. */
  ghost predicate Walk(x: Subject, strip: Ops, stop: nat, c: Place, d: Place)
    requires x.Valid() && stop <= x.end
  {
    if c.ss < |strip| && (Anchor(strip[c.ss]) || Taking(strip[c.ss])) then
      x.begin <= c.at.p <= stop && x.Consume(strip[c.ss], c.at) == Some(d.at) && d.at.p <= stop
      && d.ss == c.ss + 1 && d.pm == c.pm
    else
      Hop(x, strip, stop, Bare(c), Bare(d)) && d.at.w == (c.at.w && d.at.p == c.at.p)
  }

  ghost predicate WalkClosed(x: Subject, strip: Ops, stop: nat, X: iset<Place>)
    requires x.Valid() && stop <= x.end
  {
    forall c, d :: c in X && Walk(x, strip, stop, c, d) ==> d in X
  }

  ghost predicate Walks(x: Subject, strip: Ops, stop: nat, c: Place, d: Place)
    requires x.Valid() && stop <= x.end
  {
    forall X: iset<Place> :: c in X && WalkClosed(x, strip, stop, X) ==> d in X
  }

  ghost predicate WalkOn(g: Goal, c: Place)
    requires g.Valid()
  {
    exists d: Place :: d.ss == g.stopst && d.at.p == g.stop && Walks(g.x, g.strip, g.stop, c, d)
  }

  lemma {:induction false} WalkIsMove(x: Subject, strip: Ops, stop: nat, c: Place, d: Place)
    requires x.Valid() && stop <= x.end && Walk(x, strip, stop, c, d)
    ensures Move(x, strip, stop, Bare(c), Bare(d))
  {
    hide ChEnd, FindBack, Repeats;
  }

  lemma {:induction false} MoveIsWalk(x: Subject, strip: Ops, stop: nat, c: Point, d: Point)
    requires x.Valid() && stop <= x.end && Free(strip, OBow) && Free(strip, OEow) && Move(x, strip, stop, c, d)
    ensures Walk(x, strip, stop, Place(c.ss, At(c.sp, false), c.pm), Place(d.ss, At(d.sp, false), d.pm))
  {
    hide ChEnd, FindBack, Repeats;
  }

  /** The mark only takes paths away, and none if there is no word boundary. */
  lemma {:induction false} WalkIsWay(g: Goal, c: Point)
    requires g.Valid()
    ensures WalkOn(g, Place(c.ss, At(c.sp, false), c.pm)) ==> WayOn(g, c)
    ensures Free(g.strip, OBow) && Free(g.strip, OEow) ==>
      (WalkOn(g, Place(c.ss, At(c.sp, false), c.pm)) <==> WayOn(g, c))
  {
    hide Move, Walk, LoopsConsume, Free;
    var c' := Place(c.ss, At(c.sp, false), c.pm);
    if WalkOn(g, c') {
      var d: Place :| d.ss == g.stopst && d.at.p == g.stop && Walks(g.x, g.strip, g.stop, c', d);
      forall X: iset<Point> | c in X && MoveClosed(g.x, g.strip, g.stop, X)
        ensures Bare(d) in X
      {
        var Y := iset p: Place | Bare(p) in X;
        forall p, q | p in Y && Walk(g.x, g.strip, g.stop, p, q)
          ensures q in Y
        {
          WalkIsMove(g.x, g.strip, g.stop, p, q);
        }
        assert WalkClosed(g.x, g.strip, g.stop, Y);
      }
      assert Goes(g.x, g.strip, g.stop, c, Bare(d));
    }
    if Free(g.strip, OBow) && Free(g.strip, OEow) && WayOn(g, c) {
      var pm :| Goes(g.x, g.strip, g.stop, c, Point(g.stopst, g.stop, pm));
      var d := Place(g.stopst, At(g.stop, false), pm);
      forall X: iset<Place> | c' in X && WalkClosed(g.x, g.strip, g.stop, X)
        ensures d in X
      {
        var Y := iset p: Point | Place(p.ss, At(p.sp, false), p.pm) in X;
        forall p, q | p in Y && Move(g.x, g.strip, g.stop, p, q)
          ensures q in Y
        {
          MoveIsWalk(g.x, g.strip, g.stop, p, q);
        }
        assert MoveClosed(g.x, g.strip, g.stop, Y);
      }
      assert Walks(g.x, g.strip, g.stop, c', d);
    }
  }

  /** Where the tests make no difference, backtracking finds what the rest of the engine can walk, and where
      there is no word boundary nothing else. */
  lemma {:induction false} FindsEveryWalk(g: Goal, o: nat, r: Re, sp: nat, mem: Memory)
    requires Apt(g, o, r, sp, mem) && Clear(g)
    ensures WalkOn(g, Place(o, At(sp, false), mem.pm)) ==> Wins(g, o, sp, 0, mem)
    ensures Free(g.strip, OBow) && Free(g.strip, OEow) ==>
      (Wins(g, o, sp, 0, mem) <==> WalkOn(g, Place(o, At(sp, false), mem.pm)))
  {
    hide LoopsConsume, WalkOn, WayOn, Wins, Laid, Len, Trusted, Branching, Consumes, Depth, Clear, Free;
    RightIfClear(g, o, r, sp, mem);
    WalkIsWay(g, Point(o, sp, mem.pm));
  }
}
