/** When backtracking misses nothing. The matcher does not restore lastpos when a way fails, so a
    stale entry can end a loop early. It cannot where + bodies leave no choice: there, backtracking
    succeeds exactly when there is a path with consistent back references whose anchors pass the tests
    backref makes. Module Chains goes on from here, and module AnchorTests says what becomes of it with the
    anchors of the rest of the engine. */
module BackrefExact {
  import opened Strip
  import opened Text
  import opened Regex
  import opened Thompson
  import opened Captures
  import opened Backtrack
  import opened BackrefSound
  import opened Consuming

  // ----- the condition -----

  /** One operator after another, back references included. */
  predicate Straight(r: Re) {
    match r
    case Eps => true
    case Leaf(_, k) => Straight(k)
    case Back(n, b, k) => NoBack(n, b) && Straight(k)
    case _ => false
  }

  /** No choice, and every + body is straight and takes text. */
  predicate Flat(r: Re) {
    match r
    case Eps => true
    case Leaf(_, k) => Flat(k)
    case Plus(b, k) => Straight(b) && !Nullable(b) && Flat(k)
    case Quest(b, k) => Flat(b) && Flat(k)
    case Back(n, b, k) => NoBack(n, b) && Flat(k)
    case Choice(_, _, _) => false
  }

  predicate HasLoop(r: Re) {
    match r
    case Eps => false
    case Leaf(_, k) => HasLoop(k)
    case Plus(_, _) => true
    case Quest(b, k) => HasLoop(b) || HasLoop(k)
    case Back(_, _, k) => HasLoop(k)
    case Choice(_, _, _) => false
  }

  // ----- runs and paths, step by step -----

  /** A place to end, at the end of the strip or of a branch, to which nothing behind it leads back. */
  predicate NoReturn(strip: Ops, hi: nat) {
    hi < |strip| && (strip[hi].OEnd? || strip[hi].OOr1? || strip[hi].O_Ch?)
    && forall s :: hi < s < |strip| && strip[s].O_Plus? ==> hi + strip[s].back <= s
  }

  /** From there on, moves lead on. */
  lemma {:induction false} NeverBack(x: Subject, strip: Ops, stop: nat, hi: nat, c: Point, d: Point)
    requires x.Valid() && stop <= x.end && NoReturn(strip, hi) && Hop(x, strip, stop, c, d) && c.ss >= hi
    ensures d.ss > hi
  {
    hide FindBack, ChEnd, Repeats;
    if c.ss == hi { ChEndOn(strip, hi + 1); }
  }

  lemma {:induction false} ChEndOn(strip: Ops, q: nat)
    ensures ChEnd(strip, q).Some? ==> ChEnd(strip, q).value >= q
  {
  }

  /** The text, the strip, and where a run is to end. */
  datatype Goal = Goal(x: Subject, strip: Ops, stop: nat, stopst: nat)
  {
    ghost predicate Valid() {
      x.Valid() && x.begin <= stop <= x.end && NoReturn(strip, stopst) && LoopsConsume(strip)
    }

    ghost predicate On(sp: nat) { x.begin <= sp <= stop }
  }

  ghost predicate Wins(g: Goal, ss: nat, sp: nat, lev: nat, mem: Memory)
    requires g.Valid() && g.On(sp)
  {
    Run(g.x, g.strip, g.stop, g.stopst, ss, sp, lev, mem).end.Some?
  }

  /** A path leads to the last state at the end of the text. */
  ghost predicate PathOn(g: Goal, c: Point)
    requires g.Valid()
  {
    exists pm :: Leads(g.x, g.strip, g.stop, c, Point(g.stopst, g.stop, pm))
  }

  lemma {:induction false} PathEnds(g: Goal, sp: nat, pm: seq<Span>)
    requires g.Valid()
    ensures PathOn(g, Point(g.stopst, sp, pm)) <==> sp == g.stop
  {
    var c := Point(g.stopst, sp, pm);
    if sp == g.stop {
      Arrived(g.x, g.strip, g.stop, c);
    }
    if PathOn(g, c) {
      var pm1 :| Leads(g.x, g.strip, g.stop, c, Point(g.stopst, g.stop, pm1));
      var X := iset p: Point | p == c || p.ss > g.stopst;
      forall p, q | p in X && Hop(g.x, g.strip, g.stop, p, q)
        ensures q in X
      {
        NeverBack(g.x, g.strip, g.stop, g.stopst, p, q);
      }
      assert PointClosed(g.x, g.strip, g.stop, X);
    }
  }

  lemma {:induction false} Append(g: Goal, c: Point, d: Point, e: Point)
    requires g.Valid() && Leads(g.x, g.strip, g.stop, c, d) && Hop(g.x, g.strip, g.stop, d, e)
    ensures Leads(g.x, g.strip, g.stop, c, e)
  {
    hide Hop;
    forall X: iset<Point> | c in X && PointClosed(g.x, g.strip, g.stop, X)
      ensures e in X
    {
      assert d in X;
    }
  }

  ghost predicate ByMove(g: Goal, c: Point, p: Point)
    requires g.Valid()
  {
    exists d :: Hop(g.x, g.strip, g.stop, c, d) && Leads(g.x, g.strip, g.stop, d, p)
  }

  /** A way that leads elsewhere begins with a move. */
  lemma {:induction false} BeginsWithMove(g: Goal, c: Point, e: Point)
    requires g.Valid() && Leads(g.x, g.strip, g.stop, c, e) && c != e
    ensures ByMove(g, c, e)
  {
    var X := iset p: Point | p == c || ByMove(g, c, p);
    forall p, q | p in X && Hop(g.x, g.strip, g.stop, p, q)
      ensures q in X
    {
      hide Hop, Leads;
      if p == c {
        Arrived(g.x, g.strip, g.stop, q);
      } else {
        var d :| Hop(g.x, g.strip, g.stop, c, d) && Leads(g.x, g.strip, g.stop, d, p);
        Append(g, d, p, q);
      }
    }
    assert PointClosed(g.x, g.strip, g.stop, X) && c in X;
  }

  /** A path that has not arrived goes on with some move. */
  lemma {:induction false} PathStep(g: Goal, c: Point)
    requires g.Valid() && c.ss != g.stopst
    ensures PathOn(g, c) <==> exists d :: Hop(g.x, g.strip, g.stop, c, d) && PathOn(g, d)
  {
    hide Hop, Leads;
    if PathOn(g, c) {
      var pm :| Leads(g.x, g.strip, g.stop, c, Point(g.stopst, g.stop, pm));
      var e := Point(g.stopst, g.stop, pm);
      BeginsWithMove(g, c, e);
      var d :| Hop(g.x, g.strip, g.stop, c, d) && Leads(g.x, g.strip, g.stop, d, e);
      assert PathOn(g, d);
    }
    if exists d :: Hop(g.x, g.strip, g.stop, c, d) && PathOn(g, d) {
      var d :| Hop(g.x, g.strip, g.stop, c, d) && PathOn(g, d);
      var pm :| Leads(g.x, g.strip, g.stop, d, Point(g.stopst, g.stop, pm));
      Prepend(g.x, g.strip, g.stop, c, d, Point(g.stopst, g.stop, pm));
    }
  }

  // ----- operators that leave no choice -----

  /** Group numbers are within the table. */
  predicate InTable(r: Re, size: nat) {
    match r
    case Eps => true
    case Leaf(atom, k) => (atom.Paren() ==> atom.n < size) && InTable(k, size)
    case Plus(b, k) => InTable(b, size) && InTable(k, size)
    case Quest(b, k) => InTable(b, size) && InTable(k, size)
    case Back(n, _, k) => n < size && InTable(k, size)
    case Choice(f, alts, k) => InTable(f, size) && AltsInTable(alts, size) && InTable(k, size)
  }

  predicate AltsInTable(alts: Alts, size: nat) {
    match alts
    case Last(b) => InTable(b, size)
    case Or(b, m) => InTable(b, size) && AltsInTable(m, size)
  }

  /** Where a run or a path stands after an operator at `o` that leaves no choice, if anywhere. */
  function AfterLeaf(g: Goal, o: nat, atom: Atom, sp: nat, pm: seq<Span>): (r: Option<(nat, seq<Span>)>)
    requires g.x.Valid() && g.x.begin <= sp <= g.stop <= g.x.end && o < |g.strip| && g.strip[o] == atom.Code()
    ensures r.Some? ==> sp <= r.value.0 <= g.stop && |r.value.1| == |pm| && (Takes(atom) ==> sp < r.value.0)
  {
    match atom
    case LParen(n) => Some((sp, SetSo(pm, n, sp)))
    case RParen(n) => Some((sp, SetEo(pm, n, sp)))
    case _ => match EasyStep(g.x, g.strip, g.stop, o, sp) case To(_, sp') => Some((sp', pm)) case _ => None
  }

  function AfterBack(g: Goal, n: nat, sp: nat, pm: seq<Span>): (r: Option<(nat, seq<Span>)>)
    requires g.x.Valid() && g.x.begin <= sp <= g.stop <= g.x.end
    ensures r.Some? ==> sp <= r.value.0 <= g.stop && r.value.1 == pm
  {
    if n < |pm| && Repeats(g.x, g.stop, sp, pm[n]) then Some((sp + (pm[n].eo - pm[n].so), pm)) else None
  }

  ghost predicate Moved(g: Goal, ss: nat, sp: nat, lev: nat, mem: Memory, t: nat, a: Option<(nat, seq<Span>)>)
    requires g.Valid() && g.On(sp) && (a.Some? ==> sp <= a.value.0 <= g.stop)
  {
    (Wins(g, ss, sp, lev, mem) <==> a.Some? && Wins(g, t, a.value.0, lev, mem.(pm := a.value.1)))
    && (PathOn(g, Point(ss, sp, mem.pm)) <==> a.Some? && PathOn(g, Point(t, a.value.0, a.value.1)))
  }

  /** If there is just one move from a point, a path goes by it. */
  lemma {:induction false} OnlyWay(g: Goal, c: Point, a: Option<Point>)
    requires g.Valid() && c.ss != g.stopst
    requires forall d :: Hop(g.x, g.strip, g.stop, c, d) <==> a == Some(d)
    ensures PathOn(g, c) <==> a.Some? && PathOn(g, a.value)
  {
    hide Hop, PathOn;
    PathStep(g, c);
  }

  lemma {:induction false} LeafMoves(g: Goal, o: nat, atom: Atom, sp: nat, lev: nat, mem: Memory)
    requires g.Valid() && g.On(sp) && o < g.stopst && g.strip[o] == atom.Code() && (atom.Paren() ==> atom.n < |mem.pm|)
    ensures Moved(g, o, sp, lev, mem, o + 1, AfterLeaf(g, o, atom, sp, mem.pm))
  {
    hide LoopsConsume, Rank, CanLoop, PathOn;
    var a := AfterLeaf(g, o, atom, sp, mem.pm);
    OnlyWay(g, Point(o, sp, mem.pm), if a.None? then None else Some(Point(o + 1, a.value.0, a.value.1)));
    if atom.Paren() { RankDown(g.strip, o, o + 1); } else { EasyRank(g.x, g.strip, g.stop, o, sp); }
  }

  lemma {:induction false} BackMoves(g: Goal, o: nat, n: nat, b: Re, k: Re, sp: nat, lev: nat, mem: Memory)
    requires g.Valid() && g.On(sp) && o < g.stopst && Laid(g.strip, o, Back(n, b, k)) && NoBack(n, b)
    ensures Moved(g, o, sp, lev, mem, o + 2 + Len(b), AfterBack(g, n, sp, mem.pm))
  {
    hide LoopsConsume, Rank, CanLoop, PathOn, Laid, Len, FindBack, Repeats;
    LaidBack(g.strip, o, n, b, k);
    BackEnds(g.strip, o, n, b, k);
    var a := AfterBack(g, n, sp, mem.pm);
    var t := o + 2 + Len(b);
    OnlyWay(g, Point(o, sp, mem.pm), if a.None? then None else Some(Point(t, a.value.0, a.value.1)));
    RankDown(g.strip, o, t);
  }

  /** Through a straight body laid out at `o`. */
  function Through(g: Goal, o: nat, b: Re, sp: nat, pm: seq<Span>): (r: Option<(nat, seq<Span>)>)
    requires g.x.Valid() && g.x.begin <= sp <= g.stop <= g.x.end && Straight(b) && Laid(g.strip, o, b)
    ensures r.Some? ==> sp <= r.value.0 <= g.stop && |r.value.1| == |pm| && (!Nullable(b) ==> sp < r.value.0)
    decreases b
  {
    match b
    case Eps => Some((sp, pm))
    case Leaf(atom, k) =>
      LaidLeaf(g.strip, o, atom, k);
      var a := AfterLeaf(g, o, atom, sp, pm);
      if a.None? then None else Through(g, o + 1, k, a.value.0, a.value.1)
    case Back(n, c, k) =>
      LaidBack(g.strip, o, n, c, k);
      var a := AfterBack(g, n, sp, pm);
      if a.None? then None else Through(g, o + 2 + Len(c), k, a.value.0, a.value.1)
  }

  lemma {:induction false} BodyMoves(g: Goal, o: nat, b: Re, sp: nat, lev: nat, mem: Memory)
    requires g.Valid() && g.On(sp) && Straight(b) && Laid(g.strip, o, b) && o + Len(b) < g.stopst
    requires InTable(b, |mem.pm|)
    ensures Moved(g, o, sp, lev, mem, o + Len(b), Through(g, o, b, sp, mem.pm))
    decreases b
  {
    hide LoopsConsume, Wins, PathOn, Laid, Len, AfterLeaf, AfterBack;
    match b
    case Eps => LenOfEps(); assert mem.(pm := mem.pm) == mem;
    case Leaf(atom, k) =>
      LaidLeaf(g.strip, o, atom, k);
      LenOfLeaf(atom, k);
      LeafMoves(g, o, atom, sp, lev, mem);
      var a := AfterLeaf(g, o, atom, sp, mem.pm);
      if a.Some? { BodyMoves(g, o + 1, k, a.value.0, lev, mem.(pm := a.value.1)); }
    case Back(n, c, k) =>
      LaidBack(g.strip, o, n, c, k);
      LenOfBack(n, c, k);
      BackMoves(g, o, n, c, k, sp, lev, mem);
      var a := AfterBack(g, n, sp, mem.pm);
      if a.Some? { BodyMoves(g, o + 2 + Len(c), k, a.value.0, lev, mem.(pm := a.value.1)); }
  }

  // ----- where runs are exact -----

  ghost predicate Sized(mem: Memory, np: nat, nl: nat) { |mem.pm| == np && |mem.last| == nl }

  /** From `ss`, outside all loops, a run succeeds exactly when there is a path. */
  ghost predicate Exact(g: Goal, ss: nat, np: nat, nl: nat)
    requires g.Valid()
  {
    forall sp, mem: Memory :: g.On(sp) && Sized(mem, np, nl) ==> ExactFrom(g, ss, sp, mem)
  }

  ghost predicate ExactFrom(g: Goal, ss: nat, sp: nat, mem: Memory)
    requires g.Valid() && g.On(sp)
  {
    Wins(g, ss, sp, 0, mem) <==> PathOn(g, Point(ss, sp, mem.pm))
  }

  /** ?: a run tries the body first, and the way past it with captures as they were. */
  lemma {:induction false} QuestExact(g: Goal, o: nat, n: nat, np: nat, nl: nat)
    requires g.Valid() && o < g.stopst && g.strip[o] == OQuest_(n)
    requires Exact(g, o + 1, np, nl) && Exact(g, o + n + 1, np, nl)
    ensures Exact(g, o, np, nl)
  {
    hide LoopsConsume, Rank, CanLoop, PathOn;
    forall sp, mem: Memory | g.On(sp) && Sized(mem, np, nl)
      ensures ExactFrom(g, o, sp, mem)
    {
      var c, d, e := Point(o, sp, mem.pm), Point(o + 1, sp, mem.pm), Point(o + n + 1, sp, mem.pm);
      TwoWays(g, c, d, e);
      RankDown(g.strip, o, o + 1);
      RankDown(g.strip, o, o + n + 1);
      Restores(g.x, g.strip, g.stop, g.stopst, o + 1, sp, 0, mem);
      var v := Run(g.x, g.strip, g.stop, g.stopst, o + 1, sp, 0, mem);
      assert ExactFrom(g, o + 1, sp, mem) && ExactFrom(g, o + n + 1, sp, v.mem);
    }
  }

  lemma {:induction false} TwoWays(g: Goal, c: Point, d: Point, e: Point)
    requires g.Valid() && c.ss != g.stopst
    requires forall p :: Hop(g.x, g.strip, g.stop, c, p) <==> p == d || p == e
    ensures PathOn(g, c) <==> PathOn(g, d) || PathOn(g, e)
  {
    hide Hop, PathOn;
    PathStep(g, c);
  }

  /** An operator that leads to just one place. */
  lemma {:induction false} LeafExact(g: Goal, o: nat, atom: Atom, np: nat, nl: nat)
    requires g.Valid() && o < g.stopst && g.strip[o] == atom.Code() && (atom.Paren() ==> atom.n < np)
    requires Exact(g, o + 1, np, nl)
    ensures Exact(g, o, np, nl)
  {
    hide LoopsConsume, Wins, PathOn;
    forall sp, mem: Memory | g.On(sp) && Sized(mem, np, nl)
      ensures ExactFrom(g, o, sp, mem)
    {
      LeafMoves(g, o, atom, sp, 0, mem);
      var a := AfterLeaf(g, o, atom, sp, mem.pm);
      if a.Some? { assert ExactFrom(g, o + 1, a.value.0, mem.(pm := a.value.1)); }
    }
  }

  lemma {:induction false} BackExact(g: Goal, o: nat, n: nat, b: Re, k: Re, np: nat, nl: nat)
    requires g.Valid() && o < g.stopst && Laid(g.strip, o, Back(n, b, k)) && NoBack(n, b)
    requires Exact(g, o + 2 + Len(b), np, nl)
    ensures Exact(g, o, np, nl)
  {
    hide LoopsConsume, Wins, PathOn, Laid, Len;
    forall sp, mem: Memory | g.On(sp) && Sized(mem, np, nl)
      ensures ExactFrom(g, o, sp, mem)
    {
      BackMoves(g, o, n, b, k, sp, 0, mem);
      var a := AfterBack(g, n, sp, mem.pm);
      if a.Some? { assert ExactFrom(g, o + 2 + Len(b), a.value.0, mem.(pm := a.value.1)); }
    }
  }

  /** The end of an optional part leads on. */
  lemma {:induction false} QuestEndExact(g: Goal, o: nat, np: nat, nl: nat)
    requires g.Valid() && o < g.stopst && g.strip[o].O_Quest? && Exact(g, o + 1, np, nl)
    ensures Exact(g, o, np, nl)
  {
    hide LoopsConsume, Rank, CanLoop, PathOn;
    forall sp, mem: Memory | g.On(sp) && Sized(mem, np, nl)
      ensures ExactFrom(g, o, sp, mem)
    {
      OnlyWay(g, Point(o, sp, mem.pm), Some(Point(o + 1, sp, mem.pm)));
      EasyRank(g.x, g.strip, g.stop, o, sp);
      assert ExactFrom(g, o + 1, sp, mem);
    }
  }

  // ----- loops -----

  /** At the beginning of a pass of a loop whose body stands at `o`: lastpos holds the place. */
  lemma {:induction false} PassExact(g: Goal, o: nat, b: Re, sp: nat, mem: Memory, np: nat, nl: nat)
    requires g.Valid() && g.On(sp) && Sized(mem, np, nl) && nl >= 2 && mem.last[1] == sp
    requires Straight(b) && !Nullable(b) && InTable(b, np) && Laid(g.strip, o, b)
    requires o >= 1 && o + Len(b) < g.stopst && g.strip[o + Len(b)] == O_Plus(Len(b) + 1)
    requires Exact(g, o + Len(b) + 1, np, nl)
    ensures Wins(g, o, sp, 1, mem) <==> PathOn(g, Point(o, sp, mem.pm))
    decreases g.stop - sp
  {
    hide LoopsConsume, PathOn, Laid, Len, Run;
    BodyMoves(g, o, b, sp, 1, mem);
    var a := Through(g, o, b, sp, mem.pm);
    if a.Some? {
      var q, sp1, m1 := o + Len(b), a.value.0, mem.(pm := a.value.1);
      LoopEnd(g, q, sp1, m1);
      var m2 := m1.(last := Put(m1.last, 1, sp1));
      PassExact(g, o, b, sp1, m2, np, nl);
      Restores(g.x, g.strip, g.stop, g.stopst, o, sp1, 1, m2);
      var v := Run(g.x, g.strip, g.stop, g.stopst, o, sp1, 1, m2);
      assert Sized(v.mem, np, nl) && ExactFrom(g, q + 1, sp1, v.mem);
      TwoWays(g, Point(q, sp1, m1.pm), Point(o, sp1, m1.pm), Point(q + 1, sp1, m1.pm));
    }
  }

  /** At the end of a pass that has taken text: another pass, or out of the loop. */
  lemma {:induction false} LoopEnd(g: Goal, q: nat, sp: nat, mem: Memory)
    requires g.Valid() && g.On(sp) && q < g.stopst && g.strip[q].O_Plus? && 0 < g.strip[q].back <= q
    requires |mem.last| >= 2 && mem.last[1] != sp
    ensures var m := mem.(last := Put(mem.last, 1, sp));
            var v := Run(g.x, g.strip, g.stop, g.stopst, q - g.strip[q].back + 1, sp, 1, m);
            Wins(g, q, sp, 1, mem) <==> v.end.Some? || Wins(g, q + 1, sp, 0, v.mem)
  {
    hide LoopsConsume, CanLoop;
    LoopHere(g.strip, q);
    RankDown(g.strip, q, q + 1);
  }

  lemma {:induction false} PlusExact(g: Goal, o: nat, b: Re, k: Re, np: nat, nl: nat)
    requires g.Valid() && Laid(g.strip, o, Plus(b, k)) && o + 2 + Len(b) <= g.stopst && nl >= 2
    requires Straight(b) && !Nullable(b) && InTable(b, np) && Exact(g, o + 2 + Len(b), np, nl)
    ensures Exact(g, o, np, nl)
  {
    hide LoopsConsume, Rank, CanLoop, PathOn, Laid, Len;
    LaidPlus(g.strip, o, b, k);
    forall sp, mem: Memory | g.On(sp) && Sized(mem, np, nl)
      ensures ExactFrom(g, o, sp, mem)
    {
      var m := mem.(last := Put(mem.last, 1, sp));
      OnlyWay(g, Point(o, sp, mem.pm), Some(Point(o + 1, sp, mem.pm)));
      RankDown(g.strip, o, o + 1);
      PassExact(g, o + 1, b, sp, m, np, nl);
    }
  }

  // ----- all of an expression -----

  lemma {:induction false} FlatIsExact(g: Goal, o: nat, r: Re, np: nat, nl: nat)
    requires g.Valid() && Laid(g.strip, o, r) && Flat(r) && InTable(r, np) && (HasLoop(r) ==> nl >= 2)
    requires o + Len(r) <= g.stopst && Exact(g, o + Len(r), np, nl)
    ensures Exact(g, o, np, nl)
    decreases r
  {
    hide LoopsConsume, Exact, Laid, Len, Nullable;
    match r
    case Eps => LenOfEps();
    case Leaf(atom, k) =>
      LaidLeaf(g.strip, o, atom, k);
      LenOfLeaf(atom, k);
      FlatIsExact(g, o + 1, k, np, nl);
      LeafExact(g, o, atom, np, nl);
    case Back(n, b, k) =>
      LaidBack(g.strip, o, n, b, k);
      LenOfBack(n, b, k);
      FlatIsExact(g, o + 2 + Len(b), k, np, nl);
      BackExact(g, o, n, b, k, np, nl);
    case Quest(b, k) =>
      LaidQuest(g.strip, o, b, k);
      LenOfQuest(b, k);
      FlatIsExact(g, o + 2 + Len(b), k, np, nl);
      QuestEndExact(g, o + 1 + Len(b), np, nl);
      FlatIsExact(g, o + 1, b, np, nl);
      QuestExact(g, o, Len(b) + 1, np, nl);
    case Plus(b, k) =>
      LaidPlus(g.strip, o, b, k);
      LenOfPlus(b, k);
      FlatIsExact(g, o + 2 + Len(b), k, np, nl);
      PlusExact(g, o, b, k, np, nl);
  }
}
