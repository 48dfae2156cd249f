/** Following a run of backtracking operator by operator, for examples: what a run gives, from what the
    runs it makes give. */
module Replay {
  import opened Strip
  import opened Text
  import opened Regex
  import opened Captures
  import opened Backtrack
  import opened BackrefSound
  import opened BackrefExact
  import opened Simulation
  import opened Matching

  /** The run from `ss` gives `v`. */
  ghost predicate Gives(g: Goal, ss: nat, sp: nat, lev: nat, m: Memory, v: Trial)
    requires g.Valid() && g.On(sp)
  {
    Run(g.x, g.strip, g.stop, g.stopst, ss, sp, lev, m) == v
  }

  /** A way that fails is followed by the next one. */
  ghost predicate OrElse(v1: Trial, v: Trial, next: bool) { if v1.end.Some? then v == v1 else next }

  lemma {:induction false} StopGives(g: Goal, sp: nat, lev: nat, m: Memory)
    requires g.Valid() && g.On(sp)
    ensures Gives(g, g.stopst, sp, lev, m, Trial(if sp == g.stop then Some(sp) else None, m))
  {
    hide LoopsConsume, Rank, CanLoop;
  }

  lemma {:induction false} EasyGives(g: Goal, ss: nat, sp: nat, lev: nat, m: Memory, v: Trial)
    requires g.Valid() && g.On(sp) && ss < g.stopst
    requires match EasyStep(g.x, g.strip, g.stop, ss, sp)
             case No => v == Trial(None, m)
             case To(t, u) => Gives(g, t, u, lev, m, v)
             case Hard => false
    ensures Gives(g, ss, sp, lev, m, v)
  {
    hide LoopsConsume, Rank, CanLoop, EasyStep;
  }

  lemma {:induction false} QuestGives(g: Goal, ss: nat, sp: nat, lev: nat, m: Memory, v1: Trial, v: Trial)
    requires g.Valid() && g.On(sp) && ss < g.stopst && g.strip[ss].OQuest_? && Gives(g, ss + 1, sp, lev, m, v1)
    requires OrElse(v1, v, Gives(g, ss + g.strip[ss].fwd + 1, sp, lev, v1.mem, v))
    ensures Gives(g, ss, sp, lev, m, v)
  {
    hide LoopsConsume, Rank, CanLoop;
  }

  lemma {:induction false} EnterGives(g: Goal, ss: nat, sp: nat, lev: nat, m: Memory, v: Trial)
    requires g.Valid() && g.On(sp) && ss < g.stopst && g.strip[ss].OPlus_?
    requires Gives(g, ss + 1, sp, lev + 1, m.(last := Put(m.last, lev + 1, sp)), v)
    ensures Gives(g, ss, sp, lev, m, v)
  {
    hide LoopsConsume, Rank, CanLoop, Put;
  }

  /** At the end of a pass whose place is noted: out of the loop. */
  lemma {:induction false} LeaveGives(g: Goal, ss: nat, sp: nat, lev: nat, m: Memory, v: Trial)
    requires g.Valid() && g.On(sp) && ss < g.stopst && g.strip[ss].O_Plus? && 0 < lev < |m.last| && sp == m.last[lev]
    requires Gives(g, ss + 1, sp, lev - 1, m, v)
    ensures Gives(g, ss, sp, lev, m, v)
  {
    hide LoopsConsume, Rank, CanLoop;
  }

  /** At the end of another pass: one more, and if that fails out of the loop. */
  lemma {:induction false} AgainGives(g: Goal, ss: nat, sp: nat, lev: nat, m: Memory, v1: Trial, v: Trial)
    requires g.Valid() && g.On(sp) && ss < g.stopst && g.strip[ss].O_Plus? && 0 < g.strip[ss].back <= ss
    requires 0 < lev < |m.last| && sp != m.last[lev]
    requires Gives(g, ss - g.strip[ss].back + 1, sp, lev, m.(last := Put(m.last, lev, sp)), v1)
    requires OrElse(v1, v, Gives(g, ss + 1, sp, lev - 1, v1.mem, v))
    ensures Gives(g, ss, sp, lev, m, v)
  {
    hide LoopsConsume, Rank, CanLoop, Put;
  }

  lemma {:induction false} OpenGives(g: Goal, ss: nat, sp: nat, lev: nat, m: Memory, v1: Trial, v: Trial)
    requires g.Valid() && g.On(sp) && ss < g.stopst && g.strip[ss].OLParen? && g.strip[ss].paren < |m.pm| == |v1.mem.pm|
    requires var n := g.strip[ss].paren;
             Gives(g, ss + 1, sp, lev, m.(pm := SetSo(m.pm, n, sp)), v1)
             && OrElse(v1, v, v == Trial(None, v1.mem.(pm := SetSo(v1.mem.pm, n, m.pm[n].so))))
    ensures Gives(g, ss, sp, lev, m, v)
  {
    hide LoopsConsume, Rank, CanLoop, SetSo;
  }

  lemma {:induction false} CloseGives(g: Goal, ss: nat, sp: nat, lev: nat, m: Memory, v1: Trial, v: Trial)
    requires g.Valid() && g.On(sp) && ss < g.stopst && g.strip[ss].ORParen? && g.strip[ss].paren < |m.pm| == |v1.mem.pm|
    requires var n := g.strip[ss].paren;
             Gives(g, ss + 1, sp, lev, m.(pm := SetEo(m.pm, n, sp)), v1)
             && OrElse(v1, v, v == Trial(None, v1.mem.(pm := SetEo(v1.mem.pm, n, m.pm[n].eo))))
    ensures Gives(g, ss, sp, lev, m, v)
  {
    hide LoopsConsume, Rank, CanLoop, SetEo;
  }

  lemma {:induction false} BackGives(g: Goal, ss: nat, sp: nat, lev: nat, m: Memory, e: nat, v: Trial)
    requires g.Valid() && g.On(sp) && ss < g.stopst && g.strip[ss].OBack_? && g.strip[ss].paren < |m.pm|
    requires FindBack(g.strip, ss, g.strip[ss].paren) == Some(e)
    requires var s := m.pm[g.strip[ss].paren];
             if Repeats(g.x, g.stop, sp, s) then Gives(g, e + 1, sp + (s.eo - s.so), lev, m, v) else v == Trial(None, m)
    ensures Gives(g, ss, sp, lev, m, v)
  {
    hide LoopsConsume, Rank, CanLoop, Repeats, FindBack;
  }

  /** A choice whose first branch gets to the end of the text is left at that. */
  lemma {:induction false} ChoiceGives(g: Goal, ss: nat, sp: nat, lev: nat, m: Memory, e: nat, v: Trial)
    requires g.Valid() && g.On(sp) && ss < g.stopst && g.strip[ss].OCh_? && BranchEnd(g.strip, ss) == Some(e)
    requires v.end.Some?
    requires Run(g.x, g.strip, g.stop, e, ss + 1, sp, lev, m) == v
    ensures Gives(g, ss, sp, lev, m, v)
  {
    hide LoopsConsume, Rank, CanLoop, BranchEnd;
    RankDown(g.strip, ss, ss + 1);
    BranchesGive(g, ss, sp, lev, m, e, v);
  }

  lemma {:induction false} BranchesGive(g: Goal, ss: nat, sp: nat, lev: nat, m: Memory, e: nat, v: Trial)
    requires g.Valid() && g.On(sp) && ss < |g.strip| && BranchEnd(g.strip, ss) == Some(e) && v.end.Some?
    requires Run(g.x, g.strip, g.stop, e, ss + 1, sp, lev, m) == v
    ensures RunBranches(g.x, g.strip, g.stop, ss, sp, lev, m) == v
  {
    hide LoopsConsume, Rank, CanLoop, Run;
  }

  /** One move more. */
  lemma {:induction false} OnPath(g: Goal, c: Point, d: Point)
    requires g.Valid() && Hop(g.x, g.strip, g.stop, c, d) && PathOn(g, d)
    ensures PathOn(g, c)
  {
    hide Hop;
    var pm :| Leads(g.x, g.strip, g.stop, d, Point(g.stopst, g.stop, pm));
    Prepend(g.x, g.strip, g.stop, c, d, Point(g.stopst, g.stop, pm));
  }

  /** A path stays where all moves stay. */
  lemma {:induction false} LeadsWithin(g: Goal, c: Point, X: iset<Point>)
    requires g.Valid() && c in X && PointClosed(g.x, g.strip, g.stop, X)
    ensures PathOn(g, c) ==> exists pm :: Point(g.stopst, g.stop, pm) in X
  {
    hide PointClosed, LoopsConsume;
  }

  // ----- what matcher makes of it -----

  /** Whatever the tables it begins with, backtracking gets from `s` to `e`, or does not. */
  ghost predicate Always(x: Subject, g: Guts, s: nat, e: nat, yes: bool)
    requires x.Valid() && x.begin <= s <= e <= x.end && LoopsConsume(g.strip)
  {
    forall mem: Memory :: Tables(mem, g) ==> (Succeeds(x, g, s, e, mem) <==> yes)
  }

  /** If the longest match from the first place that backtracking accepts ends at `e0`, matcher reports
      that one. */
  lemma {:induction false} Verdict(x: Subject, g: Guts, r: Re, nm: nat, flags: Flags, code: Outcome, s: nat, e: nat,
        pm: seq<Span>, e0: nat)
    requires CanAnswer(x, g, nm, flags) && g.backrefs && NoReentry(g.strip, g.firststate + 1, g.laststate)
    requires Answer(x, g, r, nm, flags, code, s, e, pm) && code != InvArg
    requires x.begin <= e0 <= x.end && Spans(x, r, x.begin, e0) && Always(x, g, x.begin, e0, true)
    requires forall j :: e0 < j <= x.end && Spans(x, r, x.begin, j) ==> Always(x, g, x.begin, j, false)
    ensures code == Ok && s == x.begin && e == e0
  {
    hide Spans, LoopsConsume, NoReentry, Succeeds, LongestRefused, FoundPlain, MatchFrom, Final;
    NotRefused(x, g, x.begin, e0);
    NotAllRefused(x, g, r, x.begin, e0);
  }

  lemma {:induction false} NotAllRefused(x: Subject, g: Guts, r: Re, s: nat, e0: nat)
    requires x.Valid() && x.begin <= s <= e0 <= x.end && LoopsConsume(g.strip) && Spans(x, r, s, e0)
    requires !Refused(x, g, s, e0)
    ensures forall e: int :: e < e0 ==> !RefusedBeyond(x, g, r, s, e)
    ensures forall b: nat :: s < b ==> !AllRefused(x, g, r, s, b)
  {
    hide LoopsConsume, Refused, Spans;
    assert forall e: int :: e < e0 ==> !RefusedBeyond(x, g, r, s, e);
    hide RefusedBeyond;
    forall b: nat | s < b
      ensures !AllRefused(x, g, r, s, b)
    {
      assert !RefusedBeyond(x, g, r, s, -1);
    }
  }

  lemma {:induction false} NotRefused(x: Subject, g: Guts, s: nat, e: nat)
    requires x.Valid() && x.begin <= s <= e <= x.end && LoopsConsume(g.strip) && Always(x, g, s, e, true)
    ensures !Refused(x, g, s, e)
  {
    hide LoopsConsume, Succeeds;
  }

  lemma {:induction false} ReportedFirst(user: seq<Span>, nm: nat, s: nat, e: nat, pm: seq<Span>)
    requires Reports(user, nm, s, e, pm) && nm > 0
    ensures |user| > 0 && user[0] == Span(s, e)
  {
  }
}
