/** What `backref` promises: it leaves no trace when it fails, and when it succeeds there is a path
    through the strip on which every back reference took text equal to its group's capture. */
module BackrefSound {
  import opened Strip
  import opened Text
  import opened Captures
  import opened Backtrack

  // ----- failure leaves the captures as they were -----

  lemma {:induction false} Restores(x: Subject, strip: Ops, stop: nat, stopst: nat, ss: nat, sp: nat, lev: nat,
        mem: Memory)
    requires x.Valid() && x.begin <= sp <= stop <= x.end && LoopsConsume(strip)
    ensures var v := Run(x, strip, stop, stopst, ss, sp, lev, mem); v.end.None? ==> v.mem.pm == mem.pm
    decreases stop - sp, Rank(strip, ss), |strip| - ss, 1
  {
    hide Rank, CanLoop, Repeats;
    if ss < stopst && ss < |strip| {
      EasyRank(x, strip, stop, ss, sp);
      match EasyStep(x, strip, stop, ss, sp)
      case No =>
      case To(ss', sp') => Restores(x, strip, stop, stopst, ss', sp', lev, mem);
      case Hard =>
        if !strip[ss].OCh_? && !strip[ss].OBack_? && ss + 1 <= |strip| && ZeroNext(strip, ss) {
          RankDown(strip, ss, ss + 1);
        }
        match strip[ss] {
          case OBack_(i) => RestoresBack(x, strip, stop, stopst, ss, sp, lev, mem);
          case OQuest_(n) =>
            RankDown(strip, ss, ss + n + 1);
            Restores(x, strip, stop, stopst, ss + 1, sp, lev, mem);
            var v := Run(x, strip, stop, stopst, ss + 1, sp, lev, mem);
            Restores(x, strip, stop, stopst, ss + n + 1, sp, lev, v.mem);
          case OPlus_(_) =>
            Restores(x, strip, stop, stopst, ss + 1, sp, lev + 1, mem.(last := Put(mem.last, lev + 1, sp)));
          case O_Plus(n) => RestoresLoop(x, strip, stop, stopst, ss, sp, lev, mem);
          case OCh_(_) => RestoresBranches(x, strip, stop, ss, sp, lev, mem);
          case OLParen(i) =>
            if i < |mem.pm| {
              Restores(x, strip, stop, stopst, ss + 1, sp, lev, mem.(pm := SetSo(mem.pm, i, sp)));
            }
          case ORParen(i) =>
            if i < |mem.pm| {
              Restores(x, strip, stop, stopst, ss + 1, sp, lev, mem.(pm := SetEo(mem.pm, i, sp)));
            }
          case _ =>
        }
    }
  }

  predicate ZeroNext(strip: Ops, ss: nat)
    requires ss < |strip|
  {
    strip[ss].OQuest_? || strip[ss].OPlus_? || strip[ss].O_Plus? || strip[ss].OLParen? || strip[ss].ORParen?
  }

  lemma {:induction false} RestoresBack(x: Subject, strip: Ops, stop: nat, stopst: nat, ss: nat, sp: nat, lev: nat,
        mem: Memory)
    requires x.Valid() && x.begin <= sp <= stop <= x.end && LoopsConsume(strip)
    requires ss < stopst && ss < |strip| && strip[ss].OBack_?
    ensures var v := Run(x, strip, stop, stopst, ss, sp, lev, mem); v.end.None? ==> v.mem.pm == mem.pm
    decreases stop - sp, Rank(strip, ss), |strip| - ss, 0
  {
    hide Rank, CanLoop;
    var i := strip[ss].paren;
    var q := FindBack(strip, ss, i);
    if i < |mem.pm| && q.Some? && Repeats(x, stop, sp, mem.pm[i]) {
      RankDown(strip, ss, q.value + 1);
      Restores(x, strip, stop, stopst, q.value + 1, sp + (mem.pm[i].eo - mem.pm[i].so), lev, mem);
    }
  }

  lemma {:induction false} RestoresLoop(x: Subject, strip: Ops, stop: nat, stopst: nat, ss: nat, sp: nat, lev: nat,
        mem: Memory)
    requires x.Valid() && x.begin <= sp <= stop <= x.end && LoopsConsume(strip)
    requires ss < stopst && ss < |strip| && strip[ss].O_Plus?
    ensures var v := Run(x, strip, stop, stopst, ss, sp, lev, mem); v.end.None? ==> v.mem.pm == mem.pm
    decreases stop - sp, Rank(strip, ss), |strip| - ss, 0
  {
    hide CanLoop;
    LoopHere(strip, ss);
    RankDown(strip, ss, ss + 1);
    var n := strip[ss].back;
    if lev != 0 && lev < |mem.last| {
      if sp == mem.last[lev] {
        Restores(x, strip, stop, stopst, ss + 1, sp, lev - 1, mem);
      } else {
        var m := mem.(last := Put(mem.last, lev, sp));
        Restores(x, strip, stop, stopst, ss - n + 1, sp, lev, m);
        var v := Run(x, strip, stop, stopst, ss - n + 1, sp, lev, m);
        Restores(x, strip, stop, stopst, ss + 1, sp, lev - 1, v.mem);
      }
    }
  }

  lemma {:induction false} RestoresBranches(x: Subject, strip: Ops, stop: nat, h: nat, sp: nat, lev: nat, mem: Memory)
    requires x.Valid() && x.begin <= sp <= stop <= x.end && LoopsConsume(strip) && h < |strip|
    ensures var v := RunBranches(x, strip, stop, h, sp, lev, mem); v.end.None? ==> v.mem.pm == mem.pm
    decreases stop - sp, Rank(strip, h), |strip| - h, 0
  {
    hide Rank, CanLoop;
    var e := BranchEnd(strip, h);
    if e.Some? {
      RankDown(strip, h, h + 1);
      Restores(x, strip, stop, e.value, h + 1, sp, lev, mem);
      var v := Run(x, strip, stop, e.value, h + 1, sp, lev, mem);
      if !strip[e.value].O_Ch? {
        RankDown(strip, h, e.value + 1);
        RestoresBranches(x, strip, stop, e.value + 1, sp, lev, v.mem);
      }
    }
  }

  // ----- success means a path -----

  /** A state, a place, and what the groups have captured so far. */
  datatype Point = Point(ss: nat, sp: nat, pm: seq<Span>)

  /** One move through the strip, captures included. */
  ghost predicate Hop(x: Subject, strip: Ops, stop: nat, c: Point, d: Point)
    requires x.Valid() && stop <= x.end
  {
    c.ss < |strip| && x.begin <= c.sp <= stop &&
    match strip[c.ss]
    case OBack_(i) =>
      // the group's text again, as it stands captured at this moment
      i < |c.pm| && FindBack(strip, c.ss, i).Some? && Repeats(x, stop, c.sp, c.pm[i])
      && d == Point(FindBack(strip, c.ss, i).value + 1, c.sp + (c.pm[i].eo - c.pm[i].so), c.pm)
    case OQuest_(n) => d == Point(c.ss + 1, c.sp, c.pm) || d == Point(c.ss + n + 1, c.sp, c.pm)
    case OPlus_(_) => d == Point(c.ss + 1, c.sp, c.pm)
    case O_Plus(n) => d == Point(c.ss + 1, c.sp, c.pm) || (n <= c.ss && d == Point(c.ss - n + 1, c.sp, c.pm))
    case OLParen(i) => d == Point(c.ss + 1, c.sp, SetSo(c.pm, i, c.sp))
    case ORParen(i) => d == Point(c.ss + 1, c.sp, SetEo(c.pm, i, c.sp))
    case OCh_(n) => d == Point(c.ss + 1, c.sp, c.pm) || d == Point(c.ss + n, c.sp, c.pm)
    case OOr2(n) =>
      d == Point(c.ss + 1, c.sp, c.pm)
      || (d == Point(c.ss + n, c.sp, c.pm) && d.ss < |strip| && !strip[d.ss].O_Ch?)
    case O_Ch(_) => d == Point(c.ss + 1, c.sp, c.pm)
    case _ => EasyStep(x, strip, stop, c.ss, c.sp) == To(d.ss, d.sp) && d.pm == c.pm
  }

  /** What text a move takes: a character that is the one asked for, or is in the set, or the text of a group
      again. */
  lemma {:induction false} HopTakes(x: Subject, strip: Ops, stop: nat, c: Point, d: Point)
    requires x.Valid() && stop <= x.end && c.ss < |strip| && x.begin <= c.sp <= stop
    ensures strip[c.ss].OChar? ==>
      (Hop(x, strip, stop, c, d)
       <==> c.sp < stop && x.text[c.sp] == strip[c.ss].c && d == Point(c.ss + 1, c.sp + 1, c.pm))
    ensures strip[c.ss].OAny? ==>
      (Hop(x, strip, stop, c, d) <==> c.sp < stop && d == Point(c.ss + 1, c.sp + 1, c.pm))
    ensures strip[c.ss].OAnyOf? ==>
      (Hop(x, strip, stop, c, d)
       <==> c.sp < stop && strip[c.ss].setno < |x.sets| && x.text[c.sp] in x.sets[strip[c.ss].setno]
            && d == Point(c.ss + 1, c.sp + 1, c.pm))
    ensures strip[c.ss].OBack_? && FindBack(strip, c.ss, strip[c.ss].paren).Some? ==>
      (Hop(x, strip, stop, c, d)
       <==> var n := strip[c.ss].paren;
            n < |c.pm| && c.pm[n].eo != -1 && 0 <= c.pm[n].so <= c.pm[n].eo <= x.end
            && c.sp + (c.pm[n].eo - c.pm[n].so) <= stop
            && x.text[c.sp..c.sp + (c.pm[n].eo - c.pm[n].so)] == x.text[c.pm[n].so..c.pm[n].eo]
            && d == Point(FindBack(strip, c.ss, n).value + 1, c.sp + (c.pm[n].eo - c.pm[n].so), c.pm))
  {
    hide FindBack, ChEnd;
  }

  /** `d` is in every set that holds `c` and is closed under moves. */
  ghost predicate Leads(x: Subject, strip: Ops, stop: nat, c: Point, d: Point)
    requires x.Valid() && stop <= x.end
  {
    forall X: iset<Point> :: c in X && PointClosed(x, strip, stop, X) ==> d in X
  }

  ghost predicate PointClosed(x: Subject, strip: Ops, stop: nat, X: iset<Point>)
    requires x.Valid() && stop <= x.end
  {
    forall c, d :: c in X && Hop(x, strip, stop, c, d) ==> d in X
  }

  lemma {:induction false} Prepend(x: Subject, strip: Ops, stop: nat, c: Point, d: Point, e: Point)
    requires x.Valid() && stop <= x.end && Hop(x, strip, stop, c, d) && Leads(x, strip, stop, d, e)
    ensures Leads(x, strip, stop, c, e)
  {
    hide Hop;
    forall X: iset<Point> | c in X && PointClosed(x, strip, stop, X)
      ensures e in X
    {
      assert d in X;
    }
  }

  predicate ChoiceFree(strip: Ops) {
    forall s :: 0 <= s < |strip| ==> !strip[s].OCh_?
  }

  /** No move from before `hi` jumps over it. */
  ghost predicate Within(strip: Ops, hi: nat) {
    hi <= |strip| && forall s :: 0 <= s < hi ==> StaysWithin(strip, hi, s)
  }

  ghost predicate StaysWithin(strip: Ops, hi: nat, s: nat)
    requires s < |strip|
  {
    (strip[s].OQuest_? || strip[s].OCh_? || strip[s].OOr2? ==> s + strip[s].fwd < hi)
    && (strip[s].OBack_? && FindBack(strip, s, strip[s].paren).Some? ==> FindBack(strip, s, strip[s].paren).value < hi)
    && (strip[s].OOr1? && ChEnd(strip, s + 1).Some? ==> ChEnd(strip, s + 1).value < hi)
  }

  /** Success means there is a path from the first state to the last that takes exactly the text
      from `sp` to `stop` and leaves the captures as they are reported. */
  lemma {:induction false} Sound(x: Subject, strip: Ops, stop: nat, stopst: nat, ss: nat, sp: nat, lev: nat,
        mem: Memory)
    requires x.Valid() && x.begin <= sp <= stop <= x.end && LoopsConsume(strip)
    requires ChoiceFree(strip) && Within(strip, stopst) && ss <= stopst
    ensures var v := Run(x, strip, stop, stopst, ss, sp, lev, mem);
            v.end.Some? ==> Leads(x, strip, stop, Point(ss, sp, mem.pm), Point(stopst, stop, v.mem.pm))
    decreases stop - sp, Rank(strip, ss), |strip| - ss, 2
  {
    hide Rank, CanLoop, Repeats, Leads, Hop;
    if ss == stopst {
      Arrived(x, strip, stop, Point(ss, sp, mem.pm));
    } else {
      assert StaysWithin(strip, stopst, ss);
      EasyRank(x, strip, stop, ss, sp);
      match EasyStep(x, strip, stop, ss, sp)
      case No =>
      case To(ss', sp') =>
        EasyIsMove(x, strip, stop, Point(ss, sp, mem.pm), Point(ss', sp', mem.pm));
        Sound(x, strip, stop, stopst, ss', sp', lev, mem);
        Then(x, strip, stop, stopst, Point(ss, sp, mem.pm), Point(ss', sp', mem.pm),
          Run(x, strip, stop, stopst, ss', sp', lev, mem));
      case Hard => SoundHard(x, strip, stop, stopst, ss, sp, lev, mem);
    }
  }

  lemma {:induction false} Arrived(x: Subject, strip: Ops, stop: nat, c: Point)
    requires x.Valid() && stop <= x.end
    ensures Leads(x, strip, stop, c, c)
  {
  }

  lemma {:induction false} EasyIsMove(x: Subject, strip: Ops, stop: nat, c: Point, d: Point)
    requires x.Valid() && x.begin <= c.sp <= stop <= x.end && c.ss < |strip|
    requires EasyStep(x, strip, stop, c.ss, c.sp) == To(d.ss, d.sp) && d.pm == c.pm
    ensures Hop(x, strip, stop, c, d)
  {
  }

  /** A move, and then whatever the rest of the run found. */
  lemma {:induction false} Then(x: Subject, strip: Ops, stop: nat, stopst: nat, c: Point, d: Point, v: Trial)
    requires x.Valid() && stop <= x.end && Hop(x, strip, stop, c, d)
    requires v.end.Some? ==> Leads(x, strip, stop, d, Point(stopst, stop, v.mem.pm))
    ensures v.end.Some? ==> Leads(x, strip, stop, c, Point(stopst, stop, v.mem.pm))
  {
    if v.end.Some? { Prepend(x, strip, stop, c, d, Point(stopst, stop, v.mem.pm)); }
  }

  lemma {:induction false} SoundHard(x: Subject, strip: Ops, stop: nat, stopst: nat, ss: nat, sp: nat, lev: nat,
        mem: Memory)
    requires x.Valid() && x.begin <= sp <= stop <= x.end && LoopsConsume(strip)
    requires ChoiceFree(strip) && Within(strip, stopst) && ss < stopst && EasyStep(x, strip, stop, ss, sp) == Hard
    ensures var v := Run(x, strip, stop, stopst, ss, sp, lev, mem);
            v.end.Some? ==> Leads(x, strip, stop, Point(ss, sp, mem.pm), Point(stopst, stop, v.mem.pm))
    decreases stop - sp, Rank(strip, ss), |strip| - ss, 1
  {
    hide Rank, CanLoop, Leads;
    match strip[ss] {
      case OBack_(i) => SoundBack(x, strip, stop, stopst, ss, sp, lev, mem);
      case OQuest_(n) => SoundQuest(x, strip, stop, stopst, ss, sp, lev, mem);
      case OPlus_(_) =>
        RankDown(strip, ss, ss + 1);
        var m := mem.(last := Put(mem.last, lev + 1, sp));
        Sound(x, strip, stop, stopst, ss + 1, sp, lev + 1, m);
        Then(x, strip, stop, stopst, Point(ss, sp, mem.pm), Point(ss + 1, sp, mem.pm),
             Run(x, strip, stop, stopst, ss + 1, sp, lev + 1, m));
      case O_Plus(n) => SoundLoop(x, strip, stop, stopst, ss, sp, lev, mem);
      case OLParen(i) => SoundParen(x, strip, stop, stopst, ss, sp, lev, mem);
      case ORParen(i) => SoundParen(x, strip, stop, stopst, ss, sp, lev, mem);
      case _ =>
    }
  }

  lemma {:induction false} SoundBack(x: Subject, strip: Ops, stop: nat, stopst: nat, ss: nat, sp: nat, lev: nat,
        mem: Memory)
    requires x.Valid() && x.begin <= sp <= stop <= x.end && LoopsConsume(strip)
    requires ChoiceFree(strip) && Within(strip, stopst) && ss < stopst && strip[ss].OBack_?
    ensures var v := Run(x, strip, stop, stopst, ss, sp, lev, mem);
            v.end.Some? ==> Leads(x, strip, stop, Point(ss, sp, mem.pm), Point(stopst, stop, v.mem.pm))
    decreases stop - sp, Rank(strip, ss), |strip| - ss, 0
  {
    hide Rank, CanLoop, Leads;
    assert StaysWithin(strip, stopst, ss);
    var i := strip[ss].paren;
    var q := FindBack(strip, ss, i);
    if i < |mem.pm| && q.Some? && Repeats(x, stop, sp, mem.pm[i]) {
      var sp' := sp + (mem.pm[i].eo - mem.pm[i].so);
      RankDown(strip, ss, q.value + 1);
      Sound(x, strip, stop, stopst, q.value + 1, sp', lev, mem);
      Then(x, strip, stop, stopst, Point(ss, sp, mem.pm), Point(q.value + 1, sp', mem.pm),
           Run(x, strip, stop, stopst, q.value + 1, sp', lev, mem));
    }
  }

  lemma {:induction false} SoundQuest(x: Subject, strip: Ops, stop: nat, stopst: nat, ss: nat, sp: nat, lev: nat,
        mem: Memory)
    requires x.Valid() && x.begin <= sp <= stop <= x.end && LoopsConsume(strip)
    requires ChoiceFree(strip) && Within(strip, stopst) && ss < stopst && strip[ss].OQuest_?
    ensures var v := Run(x, strip, stop, stopst, ss, sp, lev, mem);
            v.end.Some? ==> Leads(x, strip, stop, Point(ss, sp, mem.pm), Point(stopst, stop, v.mem.pm))
    decreases stop - sp, Rank(strip, ss), |strip| - ss, 0
  {
    hide Rank, CanLoop, Leads;
    assert StaysWithin(strip, stopst, ss);
    var c, n := Point(ss, sp, mem.pm), strip[ss].fwd;
    RankDown(strip, ss, ss + 1);
    RankDown(strip, ss, ss + n + 1);
    Sound(x, strip, stop, stopst, ss + 1, sp, lev, mem);
    var v := Run(x, strip, stop, stopst, ss + 1, sp, lev, mem);
    Then(x, strip, stop, stopst, c, Point(ss + 1, sp, mem.pm), v);
    if v.end.None? {
      Restores(x, strip, stop, stopst, ss + 1, sp, lev, mem);
      Sound(x, strip, stop, stopst, ss + n + 1, sp, lev, v.mem);
      Then(x, strip, stop, stopst, c, Point(ss + n + 1, sp, mem.pm),
        Run(x, strip, stop, stopst, ss + n + 1, sp, lev, v.mem));
    }
  }

  lemma {:induction false} SoundParen(x: Subject, strip: Ops, stop: nat, stopst: nat, ss: nat, sp: nat, lev: nat,
        mem: Memory)
    requires x.Valid() && x.begin <= sp <= stop <= x.end && LoopsConsume(strip)
    requires ChoiceFree(strip) && Within(strip, stopst) && ss < stopst && (strip[ss].OLParen? || strip[ss].ORParen?)
    ensures var v := Run(x, strip, stop, stopst, ss, sp, lev, mem);
            v.end.Some? ==> Leads(x, strip, stop, Point(ss, sp, mem.pm), Point(stopst, stop, v.mem.pm))
    decreases stop - sp, Rank(strip, ss), |strip| - ss, 0
  {
    hide Rank, CanLoop, Leads;
    RankDown(strip, ss, ss + 1);
    var i := strip[ss].paren;
    if i < |mem.pm| {
      var m := mem.(pm := if strip[ss].OLParen? then SetSo(mem.pm, i, sp) else SetEo(mem.pm, i, sp));
      Sound(x, strip, stop, stopst, ss + 1, sp, lev, m);
      Then(x, strip, stop, stopst, Point(ss, sp, mem.pm), Point(ss + 1, sp, m.pm),
        Run(x, strip, stop, stopst, ss + 1, sp, lev, m));
    }
  }

  lemma {:induction false} SoundLoop(x: Subject, strip: Ops, stop: nat, stopst: nat, ss: nat, sp: nat, lev: nat,
        mem: Memory)
    requires x.Valid() && x.begin <= sp <= stop <= x.end && LoopsConsume(strip)
    requires ChoiceFree(strip) && Within(strip, stopst) && ss < stopst && strip[ss].O_Plus?
    ensures var v := Run(x, strip, stop, stopst, ss, sp, lev, mem);
            v.end.Some? ==> Leads(x, strip, stop, Point(ss, sp, mem.pm), Point(stopst, stop, v.mem.pm))
    decreases stop - sp, Rank(strip, ss), |strip| - ss, 0
  {
    hide CanLoop, Leads;
    var c := Point(ss, sp, mem.pm);
    LoopHere(strip, ss);
    RankDown(strip, ss, ss + 1);
    var n := strip[ss].back;
    if lev != 0 && lev < |mem.last| {
      if sp == mem.last[lev] {
        Sound(x, strip, stop, stopst, ss + 1, sp, lev - 1, mem);
        Then(x, strip, stop, stopst, c, Point(ss + 1, sp, mem.pm),
          Run(x, strip, stop, stopst, ss + 1, sp, lev - 1, mem));
      } else {
        var m := mem.(last := Put(mem.last, lev, sp));
        Sound(x, strip, stop, stopst, ss - n + 1, sp, lev, m);
        var v := Run(x, strip, stop, stopst, ss - n + 1, sp, lev, m);
        Then(x, strip, stop, stopst, c, Point(ss - n + 1, sp, mem.pm), v);
        if v.end.None? {
          Restores(x, strip, stop, stopst, ss - n + 1, sp, lev, m);
          Sound(x, strip, stop, stopst, ss + 1, sp, lev - 1, v.mem);
          Then(x, strip, stop, stopst, c, Point(ss + 1, sp, mem.pm),
            Run(x, strip, stop, stopst, ss + 1, sp, lev - 1, v.mem));
        }
      }
    }
  }
}
