/** The matching engine (include/regex/engine.c). */
module Engine {
  import opened Strip
  import opened Text
  import opened Regex
  import opened Paths
  import opened Stepper
  import opened Simulation
  import opened Captures
  import opened Backtrack
  import Thompson

  /** struct match. The text, its bounds and the flags do not change during a call. */
  class Matcher {
    const g: Guts
    const x: Subject
    var coldp: nat
    var pmatch: array?<Span>
    var lastpos: array?<nat>

    constructor (g: Guts, x: Subject)
      ensures this.g == g && this.x == x && pmatch == null && lastpos == null
    {
      this.g := g;
      this.x := x;
      this.coldp := 0;
      this.pmatch := null;
      this.lastpos := null;
    }

    /** The range can be searched: it is a range of a well-formed strip. */
    ghost predicate CanSearch(startst: nat, stopst: nat) {
      x.Valid() && x.sets == g.sets && RangeOk(g.strip, startst, stopst)
    }

    /** nbol and neol count at least the anchors of the range. */
    ghost predicate Enough(startst: nat, stopst: nat)
      requires startst <= stopst <= |g.strip|
    {
      Counted(g.strip, startst, stopst, g.nbol, g.neol)
    }

    /** A search that stops where it starts: the fresh states, the rounds for line anchors that are
        counted, the step for a word boundary. */
    ghost predicate OnlyHere(p: nat, startst: nat, stopst: nat, found: bool)
      requires startst <= stopst <= |g.strip| && In(x, At(p, false))
    {
      exists st0, st1, st ::
        IsFresh(g.strip, startst, stopst, st0)
        && LineRounds(x, g.strip, startst, stopst, g.nbol, g.neol, p, st0, st1)
        && WordClosure(x, g.strip, startst, stopst, p, st1, st)
        && (found <==> stopst in st)
    }

    /** `matchp` is the greatest end before `p` of a match from `start`, or None if there is none. */
    ghost predicate LongestBefore(start: nat, p: nat, startst: nat, stopst: nat, matchp: Option<nat>)
      requires startst <= stopst <= |g.strip|
    {
      (matchp.Some? ==> start <= matchp.value < p && Path(x, g.strip, startst, stopst, start, matchp.value))
      && forall q :: (if matchp.Some? then matchp.value < q else start <= q) && q < p
           ==> !Path(x, g.strip, startst, stopst, start, q)
    }

    /** slow: the end of the longest match that starts at `start` and ends by `stop`. */
    method Slow(start: nat, stop: nat, startst: nat, stopst: nat) returns (matchp: Option<nat>)
      requires CanSearch(startst, stopst) && x.begin <= start <= stop <= x.end
      ensures Enough(startst, stopst) ==> LongestBefore(start, stop + 1, startst, stopst, matchp)
      ensures start == stop ==> OnlyHere(start, startst, stopst, matchp.Some?)
    {
      hide Entered, Settled, IsStep, LineClosure, LineRounds, WordClosure, Path, EpsClosed, Counted, SopOk, IsFresh;
      ghost var full := Enough(startst, stopst);
      var p := start;
      var c := if start == x.begin then None else Some(x.text[start - 1]);
      var st := Step(g.strip, x.sets, startst, stopst, {startst}, Nothing, {startst});
      FreshStep(g.strip, x.sets, startst, stopst, st);
      ghost var begun := st;
      EnterFirst(x, g.strip, startst, stopst, start, start, st);
      EnteredClosed(x, g.strip, startst, stopst, start, start, start, start, st);
      matchp := None;
      while true
        invariant start <= p <= stop && c == x.LastC(p) && (p == start ==> st == begun)
        invariant EpsClosed(g.strip, startst, stopst, st)
        invariant full ==> Entered(x, g.strip, startst, stopst, start, start, start, p, st)
        invariant full ==> LongestBefore(start, p, startst, stopst, matchp)
        invariant p == start ==> matchp == None
        decreases stop - p
      {
        var lastc := c;
        c := if p == x.end then None else Some(x.text[p]);
        ghost var st0 := st;
        ghost var st1;
        st, st1 := Settle(x, g.strip, startst, stopst, g.nbol, g.neol, p, lastc, c, st);
        if full {
          SettledFromClosures(x, g.strip, startst, stopst, start, start, start, p, st0, st1, st);
          SettledIsPath(x, g.strip, startst, stopst, start, p, st);
        }
        if stopst in st {
          matchp := Some(p);
        }
        if st == {} || p == stop {
          break;
        }
        var tmp := st;
        st := Step(g.strip, x.sets, startst, stopst, tmp, Ch(c.value), {});
        StepIsClosed(g.strip, x.sets, startst, stopst, tmp, Ch(c.value), {}, st);
        if full { EnterNext(x, g.strip, startst, stopst, start, start, start, p, tmp, {}, st); }
        p := p + 1;
      }
      if full && p < stop {
        forall q | p < q <= stop
          ensures !Path(x, g.strip, startst, stopst, start, q)
        {
          NoMorePaths(x, g.strip, startst, stopst, start, p, q, st);
        }
      }
    }

    ghost predicate NoPathBefore(start: nat, p: nat, startst: nat, stopst: nat)
      requires startst <= stopst <= |g.strip|
    {
      forall i, j :: start <= i <= j < p ==> !Path(x, g.strip, startst, stopst, i, j)
    }

    /** `p` is the last cold position before `end`. */
    ghost predicate LastCold(start: nat, stop: nat, startst: nat, stopst: nat, p: nat, end: nat)
      requires startst <= stopst <= |g.strip|
    {
      Cold(x, g.strip, startst, stopst, start, stop, p)
      && forall q :: p < q < end ==> !Cold(x, g.strip, startst, stopst, start, stop, q)
    }

    lemma {:induction false} ColdAtFirst(start: nat, stop: nat, startst: nat, stopst: nat)
      requires startst <= stopst <= |g.strip|
      ensures Cold(x, g.strip, startst, stopst, start, stop, start)
      ensures LastCold(start, stop, startst, stopst, start, start)
    {
      FirstIsCold(x, g.strip, startst, stopst, start, stop);
    }

    lemma {:induction false} ColdNow(start: nat, stop: nat, startst: nat, stopst: nat, c: nat, p: nat)
      requires startst <= stopst <= |g.strip| && c <= p && LastCold(start, stop, startst, stopst, c, p)
      ensures var c1 := if Cold(x, g.strip, startst, stopst, start, stop, p) then p else c;
              LastCold(start, stop, startst, stopst, c1, p + 1)
    {
      hide Cold;
    }

    lemma {:induction false} NoneBeforeCold(start: nat, stop: nat, startst: nat, stopst: nat, c: nat, p: nat,
          freshSt: set<nat>)
      requires startst <= stopst <= |g.strip| && NoReentry(g.strip, startst, stopst)
      requires IsFresh(g.strip, startst, stopst, freshSt)
      requires start <= c <= p && c <= stop && Entered(x, g.strip, startst, stopst, start, c, stop, c, freshSt)
      requires NoPathBefore(start, p, startst, stopst)
      ensures forall i, j :: start <= i < c && i <= j <= stop ==> !Path(x, g.strip, startst, stopst, i, j)
    {
      hide Entered, IsFresh, NoReentry, Path;
      forall i, j | start <= i < c && i <= j <= stop
        ensures !Path(x, g.strip, startst, stopst, i, j)
      {
        if p <= j {
          Leftmost(x, g.strip, startst, stopst, start, c, stop, freshSt, i, j);
        }
      }
    }

    /** `r` is one more than the first place where a match from `start` or after it ends, and None if
        there is none; `c` is the last cold position before that. Some such match begins at `c` or
        after it, and if no text is matched past a fresh start, none begins before it. */
    ghost predicate FirstEnd(start: nat, stop: nat, startst: nat, stopst: nat, c: nat, r: Option<nat>)
      requires startst <= stopst <= |g.strip|
    {
      LastCold(start, stop, startst, stopst, c, if r.Some? then r.value else stop + 1)
      && (r.None? ==> NoPathBefore(start, stop + 1, startst, stopst))
      && (r.Some? ==> r.value > 0 && NoPathBefore(start, r.value - 1, startst, stopst))
      && (r.Some? ==> exists i, j :: c <= i <= j && j + 1 == r.value && Path(x, g.strip, startst, stopst, i, j))
      && (r.Some? && NoReentry(g.strip, startst, stopst) ==>
            forall i, j :: start <= i < c && i <= j <= stop ==> !Path(x, g.strip, startst, stopst, i, j))
    }

    /** The state of the search as it enters position `p`, with enough rounds before: `st` is what the
        attempts of [start, stop] are in, `c` the last cold position before `p`. */
    ghost predicate Searching(start: nat, stop: nat, startst: nat, stopst: nat, c: nat, p: nat, st: set<nat>,
          freshSt: set<nat>)
      requires startst <= stopst <= |g.strip|
    {
      Entered(x, g.strip, startst, stopst, start, c, stop, p, st)
      && Entered(x, g.strip, startst, stopst, start, c, stop, c, freshSt)
      && LastCold(start, stop, startst, stopst, c, p)
      && (st == freshSt <==> Cold(x, g.strip, startst, stopst, start, stop, p))
      && NoPathBefore(start, p, startst, stopst)
    }

    /** The same once `p` itself has been looked at. */
    ghost predicate Looked(start: nat, stop: nat, startst: nat, stopst: nat, c: nat, p: nat, st: set<nat>,
          freshSt: set<nat>)
      requires startst <= stopst <= |g.strip|
    {
      Entered(x, g.strip, startst, stopst, start, c, stop, p, st)
      && Entered(x, g.strip, startst, stopst, start, c, stop, c, freshSt)
      && LastCold(start, stop, startst, stopst, c, p + 1)
      && NoPathBefore(start, p, startst, stopst)
    }

    lemma {:induction false} SearchBegins(start: nat, stop: nat, startst: nat, stopst: nat, st: set<nat>)
      requires startst <= stopst <= |g.strip| && In(x, At(start, false)) && start <= stop
      requires IsFresh(g.strip, startst, stopst, st)
      ensures EpsClosed(g.strip, startst, stopst, st) && Searching(start, stop, startst, stopst, start, start, st, st)
    {
      hide Entered, Path, EpsClosed, IsFresh, Cold, LastCold;
      ColdAtFirst(start, stop, startst, stopst);
      EnterFirst(x, g.strip, startst, stopst, start, stop, st);
      EnteredClosed(x, g.strip, startst, stopst, start, start, stop, start, st);
    }

    lemma {:induction false} SearchLooks(start: nat, stop: nat, startst: nat, stopst: nat, c: nat, p: nat,
          st: set<nat>, freshSt: set<nat>)
      requires startst <= stopst <= |g.strip| && In(x, At(p, false)) && start <= c <= p <= stop
      requires IsFresh(g.strip, startst, stopst, freshSt)
      requires Searching(start, stop, startst, stopst, c, p, st, freshSt)
      ensures Looked(start, stop, startst, stopst, if st == freshSt then p else c, p, st, freshSt)
    {
      hide Entered, Path, EpsClosed, IsFresh, Cold, LastCold, NoPathBefore;
      ColdNow(start, stop, startst, stopst, c, p);
      if st == freshSt {
        EnteredAfresh(x, g.strip, startst, stopst, start, c, stop, p, st);
      }
    }

    lemma {:induction false} SearchGoesOn(start: nat, stop: nat, startst: nat, stopst: nat, c: nat, p: nat,
          st0: set<nat>, st1: set<nat>, st: set<nat>, freshSt: set<nat>, next: set<nat>)
      requires startst <= stopst <= |g.strip| && x.Valid() && x.begin <= p < x.end && start <= c <= p < stop
      requires IsFresh(g.strip, startst, stopst, freshSt) && Looked(start, stop, startst, stopst, c, p, st0, freshSt)
      requires LineClosure(x, g.strip, startst, stopst, p, st0, st1)
      requires WordClosure(x, g.strip, startst, stopst, p, st1, st)
      requires stopst !in st && IsStep(g.strip, x.sets, startst, stopst, st, Ch(x.text[p]), freshSt, next)
      ensures Searching(start, stop, startst, stopst, c, p + 1, next, freshSt)
    {
      hide Entered, Settled, IsStep, LineClosure, WordClosure, Path, EpsClosed, IsFresh, Cold, LastCold;
      SettledFromClosures(x, g.strip, startst, stopst, start, c, stop, p, st0, st1, st);
      SettledIsSomePath(x, g.strip, startst, stopst, start, c, stop, p, st);
      FreshSound(x, g.strip, startst, stopst, c, stop, p + 1, freshSt);
      FreshHasStart(g.strip, startst, stopst, freshSt);
      EnterNext(x, g.strip, startst, stopst, start, c, stop, p, st, freshSt, next);
      ColdIffFresh(x, g.strip, startst, stopst, start, c, stop, p, st, freshSt, next);
    }

    lemma {:induction false} SearchEnds(start: nat, stop: nat, startst: nat, stopst: nat, c: nat, p: nat,
          st0: set<nat>, st1: set<nat>, st: set<nat>, freshSt: set<nat>)
      requires startst <= stopst <= |g.strip| && In(x, At(p, false)) && start <= c <= p <= stop
      requires IsFresh(g.strip, startst, stopst, freshSt) && Looked(start, stop, startst, stopst, c, p, st0, freshSt)
      requires LineClosure(x, g.strip, startst, stopst, p, st0, st1)
      requires WordClosure(x, g.strip, startst, stopst, p, st1, st)
      requires stopst in st || p == stop
      ensures FirstEnd(start, stop, startst, stopst, c, if stopst in st then Some(p + 1) else None)
    {
      hide Entered, Settled, LineClosure, WordClosure, Path, IsFresh, Cold, LastCold, NoReentry;
      SettledFromClosures(x, g.strip, startst, stopst, start, c, stop, p, st0, st1, st);
      SettledIsSomePath(x, g.strip, startst, stopst, start, c, stop, p, st);
      if NoReentry(g.strip, startst, stopst) {
        NoneBeforeCold(start, stop, startst, stopst, c, p, freshSt);
      }
    }

    /** fast: search every starting position at once; where the first match ends, plus one. Sets
        coldp, the last position at which nothing but fresh attempts were under way. */
    method Fast(start: nat, stop: nat, startst: nat, stopst: nat) returns (r: Option<nat>)
      requires CanSearch(startst, stopst) && x.begin <= start <= stop <= x.end
      modifies this`coldp
      ensures start <= coldp <= stop && (r.Some? ==> coldp < r.value <= stop + 1)
      ensures Enough(startst, stopst) ==> FirstEnd(start, stop, startst, stopst, coldp, r)
      ensures start == stop ==> OnlyHere(start, startst, stopst, r.Some?)
    {
      hide IsStep, LineClosure, LineRounds, WordClosure, EpsClosed, Counted, SopOk, IsFresh, Searching, Looked,
        FirstEnd;
      ghost var full := Enough(startst, stopst);
      var p := start;
      var c := if start == x.begin then None else Some(x.text[start - 1]);
      var st := Step(g.strip, x.sets, startst, stopst, {startst}, Nothing, {startst});
      FreshStep(g.strip, x.sets, startst, stopst, st);
      SearchBegins(start, stop, startst, stopst, st);
      var freshSt := st;
      coldp := start;
      while true
        invariant start <= coldp <= p <= stop && c == x.LastC(p) && (p == start ==> st == freshSt)
        invariant EpsClosed(g.strip, startst, stopst, st)
        invariant full ==> Searching(start, stop, startst, stopst, coldp, p, st, freshSt)
        decreases stop - p
      {
        var lastc := c;
        c := if p == x.end then None else Some(x.text[p]);
        if full { SearchLooks(start, stop, startst, stopst, coldp, p, st, freshSt); }
        if st == freshSt {
          coldp := p;
        }
        ghost var st0 := st;
        ghost var st1;
        st, st1 := Settle(x, g.strip, startst, stopst, g.nbol, g.neol, p, lastc, c, st);
        if stopst in st || p == stop {
          if full { SearchEnds(start, stop, startst, stopst, coldp, p, st0, st1, st, freshSt); }
          break;
        }
        var tmp := st;
        st := Step(g.strip, x.sets, startst, stopst, tmp, Ch(c.value), freshSt);
        StepIsClosed(g.strip, x.sets, startst, stopst, tmp, Ch(c.value), freshSt, st);
        if full { SearchGoesOn(start, stop, startst, stopst, coldp, p, st0, st1, tmp, freshSt, st); }
        p := p + 1;
      }
      r := if stopst in st then Some(p + 1) else None;
    }

    // ----- dissect -----

    /** The first and the last state of the expression proper. */
    function Gf(): nat { g.firststate + 1 }
    function Gl(): nat { g.laststate }

    ghost predicate Ready() {
      x.Valid() && x.sets == g.sets && Gf() <= Gl() <= |g.strip| && Counted(g.strip, Gf(), Gl(), g.nbol, g.neol)
    }

    /** `r` is what the states from `startst` to `stopst` stand for. */
    ghost predicate Stands(startst: nat, stopst: nat, r: Re) {
      Gf() <= startst && stopst == startst + Len(r) && stopst <= Gl() <= |g.strip| && Laid(g.strip, startst, r)
    }

    lemma {:induction false} CanSearchIt(startst: nat, stopst: nat, r: Re)
      requires Ready() && Stands(startst, stopst, r)
      ensures CanSearch(startst, stopst) && Enough(startst, stopst)
    {
      hide Laid, Len;
      Thompson.LaidIsRange(g.strip, startst, r);
      CountedWithin(g.strip, Gf(), Gl(), startst, stopst, g.nbol, g.neol);
    }

    lemma {:induction false} LongestIs(start: nat, stop: nat, startst: nat, stopst: nat, r: Re, e: Option<nat>)
      requires Stands(startst, stopst, r) && x.Valid() && x.begin <= start <= stop <= x.end
      requires LongestBefore(start, stop + 1, startst, stopst, e)
      ensures e == LongestEnd(x, r, start, stop)
    {
      hide Laid, Path, Spans, Len;
      forall q: nat
        ensures Path(x, g.strip, startst, stopst, start, q) <==> Spans(x, r, start, q)
      {
        Thompson.PathsAreMatches(x, g.strip, startst, r, start, q);
      }
    }

    /** slow, on the states of `r`. */
    method SlowOn(start: nat, stop: nat, startst: nat, stopst: nat, ghost r: Re) returns (e: Option<nat>)
      requires Ready() && Stands(startst, stopst, r) && x.begin <= start <= stop <= x.end
      ensures e == LongestEnd(x, r, start, stop)
    {
      CanSearchIt(startst, stopst, r);
      e := Slow(start, stop, startst, stopst);
      LongestIs(start, stop, startst, stopst, r, e);
    }

    /** How much can this piece take with the rest still matching the rest? Tries ever shorter
        pieces (engine.c, lines 372-384, 396-408 and 432-444). */
    method SplitOff(sp: nat, stop: nat, ss: nat, es: nat, stopst: nat, ghost head: Re, ghost next: Re)
      returns (rest: nat)
      requires Ready() && Stands(ss, es, head) && Stands(es, stopst, next) && x.begin <= sp <= stop <= x.end
      requires SplitPoint(x, head, next, sp, stop, stop).Some?
      ensures SplitPoint(x, head, next, sp, stop, stop) == Some(rest) && sp <= rest <= stop
    {
      hide Stands, Spans;
      var stp := stop;
      while true
        invariant sp <= stp <= stop
        invariant SplitPoint(x, head, next, sp, stop, stp) == SplitPoint(x, head, next, sp, stop, stop)
        decreases stp
      {
        var e := SlowOn(sp, stp, ss, es, head);
        assert e != None;
        rest := e.value;
        NoSplitAbove(x, head, next, sp, stop, stp, rest);
        var tail := SlowOn(rest, stop, es, stopst, next);
        if tail == Some(stop) {
          break;
        }
        assert !Spans(x, next, rest, stop);
        assert rest > sp;
        stp := rest - 1;
      }
    }

    /** From an OOR2 along the chain to the O_CH. */
    method ToOCh(es0: nat) returns (es: nat)
      requires ChEnd(g.strip, es0).Some?
      ensures ChEnd(g.strip, es0) == Some(es)
    {
      es := es0;
      while !g.strip[es].O_Ch?
        invariant es < |g.strip| && ChEnd(g.strip, es) == ChEnd(g.strip, es0)
        decreases |g.strip| - es
      {
        es := es + g.strip[es].fwd;
      }
    }

    /** Find the end of the construct at `ss` (lines 335-347). */
    method EndOfSub(ss: nat, ghost r: Re) returns (es: nat)
      requires Laid(g.strip, ss, r) && r != Eps && !r.Back?
      ensures es == ss + Len(r) - Len(r.next)
    {
      hide Laid, Len, ChEnd;
      ghost var c := LaidCases(g.strip, ss, r);
      es := ss;
      match g.strip[es] {
        case OPlus_(n) => es := es + n;
        case OQuest_(n) => es := es + n;
        case OCh_(n) => es := ToOCh(es + n);
        case _ =>
      }
      es := es + 1;
    }

    ghost predicate CanDissect(start: nat, stop: nat, startst: nat, stopst: nat, r: Re)
      reads this`pmatch
    {
      Ready() && Stands(startst, stopst, r) && Plain(r, g.nsub) && Spans(x, r, start, stop)
      && pmatch != null && pmatch.Length == g.nsub + 1
    }

    /** ? (lines 371-394). */
    method DissectQuest(sp: nat, stop: nat, ss: nat, es: nat, stopst: nat, ghost b: Re, ghost k: Re) returns (rest: nat)
      requires CanDissect(sp, stop, ss, stopst, Quest(b, k)) && es == ss + 2 + Len(b)
      modifies pmatch
      ensures SplitPoint(x, Quest(b, Eps), k, sp, stop, stop) == Some(rest)
      ensures pmatch[..] ==
              old(if LongestEnd(x, b, sp, rest).Some? then Captured(x, b, sp, rest, pmatch[..]) else pmatch[..])
      decreases Quest(b, k), 0
    {
      hide Stands, Spans, Plain, Captured, Laid, Len;
      QuestStands(ss, es, stopst, b, k);
      SplitExists(x, Quest(b, k), sp, stop);
      SpanIsIn(x, Quest(b, k), sp, stop);
      rest := SplitOff(sp, stop, ss, es, stopst, Quest(b, Eps), k);
      QuestBody(x, b, sp, rest);
      var ssub, esub := ss + 1, es - 1;
      var e := SlowOn(sp, rest, ssub, esub, b);
      if e != None {
        var dp := Dissect(sp, rest, ssub, esub, b);
        assert dp == rest;
      } else {
        assert sp == rest;
      }
    }

    lemma {:induction false} QuestStands(ss: nat, es: nat, stopst: nat, b: Re, k: Re)
      requires Stands(ss, stopst, Quest(b, k)) && es == ss + 2 + Len(b)
      ensures Stands(ss, es, Quest(b, Eps)) && Stands(es, stopst, k) && Stands(ss + 1, es - 1, b)
      ensures Plain(Quest(b, k), g.nsub) ==> Plain(b, g.nsub) && Plain(k, g.nsub)
    {
      hide Laid, Len;
      Thompson.LenOfQuest(b, k);
      Thompson.LenOfQuest(b, Eps);
      Thompson.LenOfEps();
      Thompson.LaidQuest(g.strip, ss, b, k);
      Thompson.EpsIsLaid(g.strip, es);
      Thompson.JoinQuest(g.strip, ss, b, Eps);
    }

    /** Find the last match of a + body within [sp, rest] (lines 411-424). */
    method LastIteration(sp: nat, rest: nat, ssub: nat, esub: nat, ghost b: Re) returns (ssp: nat, sep: nat)
      requires Ready() && Stands(ssub, esub, b) && x.begin <= sp <= rest <= x.end
      ensures (ssp, sep) == LastPass(x, b, sp, sp, rest)
    {
      hide Stands, Spans;
      ssp := sp;
      var oldssp := ssp;
      var e;
      while true
        invariant sp <= ssp <= rest
        invariant LastPass(x, b, ssp, oldssp, rest) == LastPass(x, b, sp, sp, rest)
        decreases rest - ssp
      {
        e := SlowOn(ssp, rest, ssub, esub, b);
        if e == None || e == Some(ssp) {
          break;
        }
        oldssp := ssp;
        ssp := e.value;
      }
      if e == None {
        sep := ssp;
        ssp := oldssp;
      } else {
        sep := e.value;
      }
    }

    /** + (lines 395-430). */
    method DissectPlus(sp: nat, stop: nat, ss: nat, es: nat, stopst: nat, ghost b: Re, ghost k: Re) returns (rest: nat)
      requires CanDissect(sp, stop, ss, stopst, Plus(b, k)) && es == ss + 2 + Len(b)
      modifies pmatch
      ensures SplitPoint(x, Plus(b, Eps), k, sp, stop, stop) == Some(rest)
      ensures pmatch[..] == var last := LastPass(x, b, sp, sp, rest); Captured(x, b, last.0, last.1, old(pmatch[..]))
      decreases Plus(b, k), 0
    {
      hide Stands, Spans, Plain, Captured, Laid, Len;
      PlusStands(ss, es, stopst, b, k);
      SplitExists(x, Plus(b, k), sp, stop);
      SpanIsIn(x, Plus(b, k), sp, stop);
      rest := SplitOff(sp, stop, ss, es, stopst, Plus(b, Eps), k);
      PlusBodyStarts(x, b, sp, rest);
      LastPassSpans(x, b, sp, sp, rest);
      var ssub, esub := ss + 1, es - 1;
      var ssp, sep := LastIteration(sp, rest, ssub, esub, b);
      var dp := Dissect(ssp, sep, ssub, esub, b);
      assert dp == sep;
    }

    lemma {:induction false} PlusStands(ss: nat, es: nat, stopst: nat, b: Re, k: Re)
      requires Stands(ss, stopst, Plus(b, k)) && es == ss + 2 + Len(b)
      ensures Stands(ss, es, Plus(b, Eps)) && Stands(es, stopst, k) && Stands(ss + 1, es - 1, b)
      ensures Plain(Plus(b, k), g.nsub) ==> Plain(b, g.nsub) && Plain(k, g.nsub)
    {
      hide Laid, Len;
      Thompson.LenOfPlus(b, k);
      Thompson.LenOfPlus(b, Eps);
      Thompson.LenOfEps();
      Thompson.LaidPlus(g.strip, ss, b, k);
      Thompson.EpsIsLaid(g.strip, es);
      Thompson.JoinPlus(g.strip, ss, b, Eps);
    }

    /** A choice (lines 431-465): the first branch that matches all of it. */
    method DissectChoice(sp: nat, stop: nat, ss: nat, es: nat, stopst: nat, ghost f: Re, ghost alts: Alts, ghost k: Re)
      returns (rest: nat)
      requires CanDissect(sp, stop, ss, stopst, Choice(f, alts, k)) && es == ss + 2 + Len(f) + LenAlts(alts)
      modifies pmatch
      ensures SplitPoint(x, Choice(f, alts, Eps), k, sp, stop, stop) == Some(rest)
      ensures pmatch[..] == old(if Spans(x, f, sp, rest) then Captured(x, f, sp, rest, pmatch[..])
                                else CapturedAlts(x, alts, sp, rest, pmatch[..]))
      decreases Choice(f, alts, k), 0
    {
      hide Stands, Spans, Plain, PlainAlts, Captured, CapturedAlts, Laid, LaidAlts, Len, LenAlts;
      ChoiceStands(ss, es, stopst, f, alts, k);
      SplitExists(x, Choice(f, alts, k), sp, stop);
      SpanIsIn(x, Choice(f, alts, k), sp, stop);
      rest := SplitOff(sp, stop, ss, es, stopst, Choice(f, alts, Eps), k);
      ChoiceBody(x, f, alts, sp, rest);
      var ssub, esub := ss + 1, ss + g.strip[ss].fwd - 1;
      assert g.strip[esub].OOr1?;
      var e := SlowOn(sp, rest, ssub, esub, f);
      if e == Some(rest) {
        var dp := Dissect(sp, rest, ssub, esub, f);
        assert dp == rest;
      } else {
        NotAllOf(x, f, sp, rest);
        DissectAlts(sp, rest, esub, alts);
      }
    }

    lemma {:induction false} ChoiceStands(ss: nat, es: nat, stopst: nat, f: Re, alts: Alts, k: Re)
      requires Stands(ss, stopst, Choice(f, alts, k)) && es == ss + 2 + Len(f) + LenAlts(alts)
      ensures Stands(ss, es, Choice(f, alts, Eps)) && Stands(es, stopst, k) && Stands(ss + 1, ss + 1 + Len(f), f)
      ensures g.strip[ss] == OCh_(Len(f) + 2) && g.strip[ss + 1 + Len(f)].OOr1?
      ensures LaidAlts(g.strip, ss + 2 + Len(f), alts) && Gf() <= ss && es <= Gl()
      ensures Plain(Choice(f, alts, k), g.nsub) ==> Plain(f, g.nsub) && PlainAlts(alts, g.nsub) && Plain(k, g.nsub)
    {
      hide Laid, LaidAlts, Len, LenAlts, ChEnd, Plain, PlainAlts;
      if Plain(Choice(f, alts, k), g.nsub) { PlainParts(f, alts, k, g.nsub); }
      Thompson.LenOfChoice(f, alts, k);
      Thompson.LenOfChoice(f, alts, Eps);
      Thompson.LenOfEps();
      var c := Thompson.LaidChoice(g.strip, ss, f, alts, k);
      Thompson.EpsIsLaid(g.strip, es);
      Thompson.JoinChoice(g.strip, ss, f, alts, Eps);
    }

    /** The later branches; `esub0` is the OOR1 that ends the branch just missed (lines 451-461). */
    method DissectAlts(sp: nat, rest: nat, esub0: nat, ghost alts: Alts)
      requires Ready() && Gf() <= esub0 && esub0 + 1 + LenAlts(alts) <= Gl() && LaidAlts(g.strip, esub0 + 1, alts)
      requires PlainAlts(alts, g.nsub) && SpansAlts(x, alts, sp, rest) && x.begin <= sp <= rest <= x.end
      requires g.strip[esub0].OOr1? && pmatch != null && pmatch.Length == g.nsub + 1
      modifies pmatch
      ensures pmatch[..] == CapturedAlts(x, alts, sp, rest, old(pmatch[..]))
      decreases alts, 0
    {
      hide Stands, Spans, Plain, Captured, Laid, Len;
      AltStands(esub0 + 1, alts);
      var esub := esub0 + 1;
      assert g.strip[esub].OOr2?;
      var ssub := esub + 1;
      esub := esub + g.strip[esub].fwd;
      if g.strip[esub].OOr2? {
        esub := esub - 1;
      } else {
        assert g.strip[esub].O_Ch?;
      }
      var e := SlowOn(sp, rest, ssub, esub, alts.b);
      if e == Some(rest) {
        var dp := Dissect(sp, rest, ssub, esub, alts.b);
        assert dp == rest;
      } else {
        NotAllOf(x, alts.b, sp, rest);
        assert g.strip[esub].OOr1?;
        DissectAlts(sp, rest, esub, alts.more);
      }
    }

    lemma {:induction false} AltStands(o: nat, alts: Alts)
      requires Gf() <= o && o + LenAlts(alts) <= Gl() <= |g.strip| && LaidAlts(g.strip, o, alts)
      ensures g.strip[o].OOr2? && Stands(o + 1, o + 1 + Len(alts.b), alts.b)
      ensures alts.Last? ==> g.strip[o].fwd == Len(alts.b) + 1 && g.strip[o + 1 + Len(alts.b)].O_Ch?
      ensures alts.Or? ==> g.strip[o].fwd == Len(alts.b) + 2 && g.strip[o + 1 + Len(alts.b)].OOr1?
                           && g.strip[o + 2 + Len(alts.b)].OOr2? && LaidAlts(g.strip, o + 2 + Len(alts.b), alts.more)
                           && o + 2 + Len(alts.b) + LenAlts(alts.more) <= Gl()
    {
      hide Laid, LaidAlts, ChEnd;
      match alts
      case Last(b) => Thompson.LaidLast(g.strip, o, b);
      case Or(b, m) => Thompson.LaidOr(g.strip, o, b, m);
    }

    lemma {:induction false} NotDone(sp: nat, stop: nat, ss: nat, stopst: nat, t: Re)
      requires CanDissect(sp, stop, ss, stopst, t) && ss < stopst
      ensures t != Eps && !t.Back? && Laid(g.strip, ss, t) && ss < |g.strip|
    {
      hide Laid, Spans;
    }

    lemma {:induction false} LeafOn(sp: nat, stop: nat, ss: nat, stopst: nat, t: Re)
      requires CanDissect(sp, stop, ss, stopst, t) && ss < stopst && ss < |g.strip|
      requires !g.strip[ss].OPlus_? && !g.strip[ss].OQuest_? && !g.strip[ss].OCh_?
      ensures t.Leaf? && g.strip[ss] == t.atom.Code() && Len(t) - Len(t.next) == 1
      ensures t.atom.Paren() ==> 0 < t.atom.n <= g.nsub
      ensures CanDissect(if Takes(t.atom) then sp + 1 else sp, stop, ss + 1, stopst, t.next)
    {
      hide Spans;
      NotDone(sp, stop, ss, stopst, t);
      var c := LaidCases(g.strip, ss, t);
      Thompson.LaidLeaf(g.strip, ss, t.atom, t.next);
      LeafSpan(x, t.atom, t.next, sp, stop);
    }

    lemma {:induction false} BracketOn(sp: nat, stop: nat, ss: nat, stopst: nat, t: Re)
      requires CanDissect(sp, stop, ss, stopst, t) && ss < stopst && ss < |g.strip|
      requires g.strip[ss].OPlus_? || g.strip[ss].OQuest_? || g.strip[ss].OCh_?
      ensures g.strip[ss].OPlus_? ==> t.Plus? && Len(t) - Len(t.next) == 2 + Len(t.body)
      ensures g.strip[ss].OQuest_? ==> t.Quest? && Len(t) - Len(t.next) == 2 + Len(t.body)
      ensures g.strip[ss].OCh_? ==> t.Choice? && Len(t) - Len(t.next) == 2 + Len(t.first) + LenAlts(t.rest)
      ensures t.Plus? || t.Quest? || t.Choice?
      ensures Stands(ss + Len(t) - Len(t.next), stopst, t.next) && Plain(t.next, g.nsub)
    {
      hide Spans, ChEnd, Laid, Len, LenAlts, Stands;
      NotDone(sp, stop, ss, stopst, t);
      var c := LaidCases(g.strip, ss, t);
      match t
      case Plus(b, k) => PlusStands(ss, ss + 2 + Len(b), stopst, b, k); Thompson.LenOfPlus(b, k);
      case Quest(b, k) => QuestStands(ss, ss + 2 + Len(b), stopst, b, k); Thompson.LenOfQuest(b, k);
      case Choice(f, alts, k) =>
        ChoiceStands(ss, ss + 2 + Len(f) + LenAlts(alts), stopst, f, alts, k);
        Thompson.LenOfChoice(f, alts, k);
    }

    lemma {:induction false} Finished(sp: nat, stop: nat, ss: nat, stopst: nat, t: Re)
      requires CanDissect(sp, stop, ss, stopst, t) && ss >= stopst
      ensures t == Eps && sp == stop
    {
    }

    lemma {:induction false} LeafTakes(t: Re, i: nat, j: nat, pm: seq<Span>)
      requires t.Leaf?
      ensures Captured(x, t, i, j, pm) ==
        var pm' := if t.atom.LParen? then SetSo(pm, t.atom.n, i) else if t.atom.RParen? then SetEo(pm, t.atom.n, i)
          else pm;
        Captured(x, t.next, if Takes(t.atom) then i + 1 else i, j, pm')
    {
    }

    lemma {:induction false} BracketTakes(t: Re, i: nat, j: nat, m: nat, pm: seq<Span>)
      requires Bracket(t) && SplitPoint(x, Head(t), t.next, i, j, j) == Some(m)
      ensures t.Quest? ==>
        Captured(x, t, i, j, pm)
        == Captured(x, t.next, m, j, if LongestEnd(x, t.body, i, m).Some? then Captured(x, t.body, i, m, pm) else pm)
      ensures t.Plus? ==>
        var last := LastPass(x, t.body, i, i, m);
        Captured(x, t, i, j, pm) == Captured(x, t.next, m, j, Captured(x, t.body, last.0, last.1, pm))
      ensures t.Choice? ==>
        Captured(x, t, i, j, pm)
        == Captured(x, t.next, m, j, if Spans(x, t.first, i, m) then Captured(x, t.first, i, m, pm)
                                     else CapturedAlts(x, t.rest, i, m, pm))
    {
      hide Spans, SplitPoint, LongestEnd, LastPass;
    }

    /** A single operator (lines 354-365 and 473-482): text is passed, and parentheses are noted. */
    method DissectLeaf(sp: nat, stop: nat, ss: nat, stopst: nat, ghost t: Re) returns (rest: nat)
      requires CanDissect(sp, stop, ss, stopst, t) && ss < stopst && ss < |g.strip|
      requires !g.strip[ss].OPlus_? && !g.strip[ss].OQuest_? && !g.strip[ss].OCh_?
      modifies pmatch
      ensures t.Leaf? && Len(t) - Len(t.next) == 1 && CanDissect(rest, stop, ss + 1, stopst, t.next)
      ensures Captured(x, t.next, rest, stop, pmatch[..]) == Captured(x, t, sp, stop, old(pmatch[..]))
    {
      hide Stands, Spans, Plain, Laid, Len, Captured;
      LeafOn(sp, stop, ss, stopst, t);
      LeafTakes(t, sp, stop, pmatch[..]);
      rest := sp;
      match g.strip[ss] {
        case OChar(_) | OAny | OAnyOf(_) => rest := sp + 1;
        case OLParen(n) => pmatch[n] := pmatch[n].(so := sp);
        case ORParen(n) => pmatch[n] := pmatch[n].(eo := sp);
        case OBol | OEol | OBow | OEow =>
      }
    }

    /** dissect: record what each subexpression of `r` matched, given that `r` matches [start, stop]. */
    method Dissect(start: nat, stop: nat, startst: nat, stopst: nat, ghost r: Re) returns (sp: nat)
      requires CanDissect(start, stop, startst, stopst, r)
      modifies pmatch
      ensures sp == stop
      ensures pmatch[..] == Captured(x, r, start, stop, old(pmatch[..]))
      decreases r, 1
    {
      hide Stands, Spans, Plain, Laid, Len, LenAlts, PlainAlts, Captured, CapturedAlts, SplitPoint, LongestEnd,
        LastPass;
      sp := start;
      var ss: nat := startst;
      ghost var t := r;
      while ss < stopst
        invariant CanDissect(sp, stop, ss, stopst, t)
        invariant t == r || t < r
        invariant Captured(x, t, sp, stop, pmatch[..]) == Captured(x, r, start, stop, old(pmatch[..]))
        decreases t
      {
        NotDone(sp, stop, ss, stopst, t);
        var es := EndOfSub(ss, t);
        ghost var pm, i := pmatch[..], sp;
        if g.strip[ss].OQuest_? || g.strip[ss].OPlus_? || g.strip[ss].OCh_? {
          BracketOn(sp, stop, ss, stopst, t);
          match g.strip[ss] {
            case OQuest_(_) => sp := DissectQuest(sp, stop, ss, es, stopst, t.body, t.next);
            case OPlus_(_) => sp := DissectPlus(sp, stop, ss, es, stopst, t.body, t.next);
            case OCh_(_) => sp := DissectChoice(sp, stop, ss, es, stopst, t.first, t.rest, t.next);
          }
          SplitGoesOn(t, i, stop, sp);
          BracketTakes(t, i, stop, sp, pm);
        } else {
          sp := DissectLeaf(sp, stop, ss, stopst, t);
        }
        t := t.next;
        ss := es;
      }
      Finished(sp, stop, ss, stopst, t);
      NothingTaken(sp, stop, pmatch[..]);
    }

    lemma {:induction false} SplitGoesOn(t: Re, i: nat, j: nat, m: nat)
      requires Bracket(t) && SplitPoint(x, Head(t), t.next, i, j, j) == Some(m)
      ensures Spans(x, t.next, m, j)
    {
    }

    lemma {:induction false} NothingTaken(i: nat, j: nat, pm: seq<Span>)
      ensures Captured(x, Eps, i, j, pm) == pm
    {
    }

    // ----- backref -----

    ghost function Mem(): Memory
      requires pmatch != null && lastpos != null
      reads this`pmatch, this`lastpos, pmatch, lastpos
    {
      Memory(pmatch[..], lastpos[..])
    }

    ghost predicate CanBackref(start: nat, stop: nat, stopst: nat)
      reads this`pmatch, this`lastpos
    {
      x.Valid() && x.begin <= start <= stop <= x.end && LoopsConsume(g.strip) && stopst <= |g.strip|
      && pmatch != null && lastpos != null
    }

    /** backref: match [start, stop] against the states from `startst` on, trying one way after
        another and undoing captures when a way fails. Where an assertion of the original would
        stop it, this one fails. */
    method Backref(start: nat, stop: nat, startst: nat, stopst: nat, lev: nat) returns (r: Option<nat>)
      requires CanBackref(start, stop, stopst)
      modifies pmatch, lastpos
      ensures Trial(r, Mem()) == old(Run(x, g.strip, stop, stopst, startst, start, lev, Mem()))
      decreases stop - start, Rank(g.strip, startst), |g.strip| - startst, 2
    {
      hide LoopsConsume, Rank, CanLoop, ZeroMove, Repeats;
      var sp, ss, hard := start, startst, false;
      while !hard && ss < stopst
        invariant startst <= ss && start <= sp <= stop && (sp == start ==> Rank(g.strip, ss) <= Rank(g.strip, startst))
        invariant Run(x, g.strip, stop, stopst, ss, sp, lev, old(Mem()))
                  == old(Run(x, g.strip, stop, stopst, startst, start, lev, Mem()))
        invariant Mem() == old(Mem())
        invariant hard ==> ss < stopst && EasyStep(x, g.strip, stop, ss, sp) == Hard
        decreases !hard, |g.strip| - ss
      {
        match EasyStep(x, g.strip, stop, ss, sp) {
          case No => return None;
          case To(ss', sp') =>
            EasyRank(x, g.strip, stop, ss, sp);
            ss, sp := ss', sp';
          case Hard => hard := true;
        }
      }
      if !hard {
        return if sp == stop then Some(sp) else None;
      }
      r := BackrefHard(sp, stop, ss, stopst, lev);
    }

    /** The operators that leave a choice (lines 596-686). */
    method BackrefHard(sp: nat, stop: nat, ss: nat, stopst: nat, lev: nat) returns (r: Option<nat>)
      requires CanBackref(sp, stop, stopst) && ss < stopst && EasyStep(x, g.strip, stop, ss, sp) == Hard
      modifies pmatch, lastpos
      ensures Trial(r, Mem()) == old(Run(x, g.strip, stop, stopst, ss, sp, lev, Mem()))
      decreases stop - sp, Rank(g.strip, ss), |g.strip| - ss, 1
    {
      hide LoopsConsume, Rank, CanLoop, ZeroMove, Repeats;
      match g.strip[ss] {
        case OBack_(_) => r := BackrefBack(sp, stop, ss, stopst, lev);
        case OQuest_(_) => r := BackrefQuest(sp, stop, ss, stopst, lev);
        case OPlus_(_) => r := BackrefEnter(sp, stop, ss, stopst, lev);
        case O_Plus(_) => r := BackrefAgain(sp, stop, ss, stopst, lev);
        case OCh_(_) => r := BackrefChoice(sp, stop, ss, stopst, lev);
        case OLParen(_) => r := BackrefLParen(sp, stop, ss, stopst, lev);
        case ORParen(_) => r := BackrefRParen(sp, stop, ss, stopst, lev);
        case _ => r := None;
      }
    }

    method BackrefBack(sp: nat, stop: nat, ss: nat, stopst: nat, lev: nat) returns (r: Option<nat>)
      requires CanBackref(sp, stop, stopst) && ss < stopst && g.strip[ss].OBack_?
      modifies pmatch, lastpos
      ensures Trial(r, Mem()) == old(Run(x, g.strip, stop, stopst, ss, sp, lev, Mem()))
      decreases stop - sp, Rank(g.strip, ss), |g.strip| - ss, 0
    {
      hide LoopsConsume, Rank, CanLoop, RunBranches, ChEnd, BranchEnd, SetSo, SetEo, Put;
      var i := g.strip[ss].paren;
      if i >= pmatch.Length || pmatch[i].eo == -1 {
        return None;
      }
      var ssp := pmatch[i].so;
      var len := pmatch[i].eo - ssp;
      if !(0 <= ssp && 0 <= len && pmatch[i].eo <= x.end) || sp + len > stop
        || x.text[sp..sp + len] != x.text[ssp..ssp + len] {
        return None;
      }
      var q: nat := ss;
      while q < |g.strip| && g.strip[q] != O_Back(i)
        invariant q <= |g.strip| && FindBack(g.strip, q, i) == FindBack(g.strip, ss, i)
      {
        q := q + 1;
      }
      if q == |g.strip| {
        return None;
      }
      RankDown(g.strip, ss, q + 1);
      r := Backref(sp + len, stop, q + 1, stopst, lev);
    }

    method BackrefQuest(sp: nat, stop: nat, ss: nat, stopst: nat, lev: nat) returns (r: Option<nat>)
      requires CanBackref(sp, stop, stopst) && ss < stopst && g.strip[ss].OQuest_?
      modifies pmatch, lastpos
      ensures Trial(r, Mem()) == old(Run(x, g.strip, stop, stopst, ss, sp, lev, Mem()))
      decreases stop - sp, Rank(g.strip, ss), |g.strip| - ss, 0
    {
      hide LoopsConsume, Rank, CanLoop;
      RankDown(g.strip, ss, ss + 1);
      r := Backref(sp, stop, ss + 1, stopst, lev);
      if r == None {
        RankDown(g.strip, ss, ss + g.strip[ss].fwd + 1);
        r := Backref(sp, stop, ss + g.strip[ss].fwd + 1, stopst, lev);
      }
    }

    method BackrefEnter(sp: nat, stop: nat, ss: nat, stopst: nat, lev: nat) returns (r: Option<nat>)
      requires CanBackref(sp, stop, stopst) && ss < stopst && g.strip[ss].OPlus_?
      modifies pmatch, lastpos
      ensures Trial(r, Mem()) == old(Run(x, g.strip, stop, stopst, ss, sp, lev, Mem()))
      decreases stop - sp, Rank(g.strip, ss), |g.strip| - ss, 0
    {
      hide LoopsConsume, Rank, CanLoop;
      if lev + 1 < lastpos.Length {
        lastpos[lev + 1] := sp;
      }
      assert Mem() == old(Mem()).(last := Put(old(Mem()).last, lev + 1, sp));
      RankDown(g.strip, ss, ss + 1);
      r := Backref(sp, stop, ss + 1, stopst, lev + 1);
    }

    method BackrefAgain(sp: nat, stop: nat, ss: nat, stopst: nat, lev: nat) returns (r: Option<nat>)
      requires CanBackref(sp, stop, stopst) && ss < stopst && g.strip[ss].O_Plus?
      modifies pmatch, lastpos
      ensures Trial(r, Mem()) == old(Run(x, g.strip, stop, stopst, ss, sp, lev, Mem()))
      decreases stop - sp, Rank(g.strip, ss), |g.strip| - ss, 0
    {
      hide LoopsConsume, Rank, CanLoop;
      if lev == 0 || lev >= lastpos.Length {
        return None;
      }
      RankDown(g.strip, ss, ss + 1);
      if sp == lastpos[lev] {
        r := Backref(sp, stop, ss + 1, stopst, lev - 1);
        return;
      }
      lastpos[lev] := sp;
      assert Mem() == old(Mem()).(last := Put(old(Mem()).last, lev, sp));
      LoopStart(g.strip, ss);
      r := Backref(sp, stop, ss - g.strip[ss].back + 1, stopst, lev);
      if r == None {
        r := Backref(sp, stop, ss + 1, stopst, lev - 1);
      }
    }

    /** Try the branches in turn, each against all that is left. */
    method BackrefChoice(sp: nat, stop: nat, ss: nat, stopst: nat, lev: nat) returns (r: Option<nat>)
      requires CanBackref(sp, stop, stopst) && ss < stopst && g.strip[ss].OCh_?
      modifies pmatch, lastpos
      ensures Trial(r, Mem()) == old(Run(x, g.strip, stop, stopst, ss, sp, lev, Mem()))
      decreases stop - sp, Rank(g.strip, ss), |g.strip| - ss, 0
    {
      hide LoopsConsume, Rank, CanLoop;
      var h: nat := ss;
      while true
        invariant h < |g.strip| && ss <= h && Rank(g.strip, h) <= Rank(g.strip, ss)
        invariant RunBranches(x, g.strip, stop, h, sp, lev, Mem())
                  == old(RunBranches(x, g.strip, stop, ss, sp, lev, Mem()))
        decreases |g.strip| - h
      {
        var e := BranchEnd(g.strip, h);
        if e == None {
          return None;
        }
        RankDown(g.strip, h, h + 1);
        r := Backref(sp, stop, h + 1, e.value, lev);
        if r != None || g.strip[e.value].O_Ch? {
          return;
        }
        RankDown(g.strip, h, e.value + 1);
        h := e.value + 1;
      }
    }

    /** Undo the assignment if the rest fails. */
    method BackrefLParen(sp: nat, stop: nat, ss: nat, stopst: nat, lev: nat) returns (r: Option<nat>)
      requires CanBackref(sp, stop, stopst) && ss < stopst && g.strip[ss].OLParen?
      modifies pmatch, lastpos
      ensures Trial(r, Mem()) == old(Run(x, g.strip, stop, stopst, ss, sp, lev, Mem()))
      decreases stop - sp, Rank(g.strip, ss), |g.strip| - ss, 0
    {
      hide LoopsConsume, Rank, CanLoop;
      var i := g.strip[ss].paren;
      if i >= pmatch.Length {
        return None;
      }
      var offsave := pmatch[i].so;
      pmatch[i] := pmatch[i].(so := sp);
      assert Mem() == old(Mem()).(pm := SetSo(old(Mem()).pm, i, sp));
      RankDown(g.strip, ss, ss + 1);
      r := Backref(sp, stop, ss + 1, stopst, lev);
      if r == None {
        ghost var m := Mem();
        pmatch[i] := pmatch[i].(so := offsave);
        assert Mem() == m.(pm := SetSo(m.pm, i, offsave));
      }
    }

    method BackrefRParen(sp: nat, stop: nat, ss: nat, stopst: nat, lev: nat) returns (r: Option<nat>)
      requires CanBackref(sp, stop, stopst) && ss < stopst && g.strip[ss].ORParen?
      modifies pmatch, lastpos
      ensures Trial(r, Mem()) == old(Run(x, g.strip, stop, stopst, ss, sp, lev, Mem()))
      decreases stop - sp, Rank(g.strip, ss), |g.strip| - ss, 0
    {
      hide LoopsConsume, Rank, CanLoop;
      var i := g.strip[ss].paren;
      if i >= pmatch.Length {
        return None;
      }
      var offsave := pmatch[i].eo;
      pmatch[i] := pmatch[i].(eo := sp);
      assert Mem() == old(Mem()).(pm := SetEo(old(Mem()).pm, i, sp));
      RankDown(g.strip, ss, ss + 1);
      r := Backref(sp, stop, ss + 1, stopst, lev);
      if r == None {
        ghost var m := Mem();
        pmatch[i] := pmatch[i].(eo := offsave);
        assert Mem() == m.(pm := SetEo(m.pm, i, offsave));
      }
    }
  }

  lemma {:induction false} LoopStart(strip: Ops, ss: nat)
    requires LoopsConsume(strip) && ss < |strip| && strip[ss].O_Plus?
    ensures 0 < strip[ss].back <= ss && Rank(strip, ss) == 1 && Rank(strip, ss - strip[ss].back + 1) == 0
  {
    LoopHere(strip, ss);
  }

  lemma {:induction false} PlainParts(f: Re, alts: Alts, k: Re, nsub: nat)
    requires Plain(Choice(f, alts, k), nsub)
    ensures Plain(f, nsub) && PlainAlts(alts, nsub) && Plain(k, nsub)
  {
  }

  lemma {:induction false} NotAllOf(x: Subject, r: Re, i: nat, j: nat)
    requires i <= j && LongestEnd(x, r, i, j) != Some(j)
    ensures !Spans(x, r, i, j)
  {
  }

  lemma {:induction false} NoSplitAbove(x: Subject, head: Re, next: Re, i: nat, j: nat, stp: nat, rest: nat)
    requires i <= rest <= stp && LongestEnd(x, head, i, stp) == Some(rest)
    ensures SplitPoint(x, head, next, i, j, stp) == SplitPoint(x, head, next, i, j, rest)
    decreases stp
  {
    hide Spans;
    if rest < stp {
      NoSplitAbove(x, head, next, i, j, stp - 1, rest);
    }
  }

  /** What stands at `o` when `r` is laid out there; for a choice, where its O_CH stands. */
  lemma {:induction false} LaidCases(strip: Ops, o: nat, r: Re) returns (c: nat)
    requires Laid(strip, o, r) && r != Eps && !r.Back?
    ensures o + Len(r) <= |strip| && o < |strip|
    ensures strip[o].OPlus_? <==> r.Plus?
    ensures strip[o].OQuest_? <==> r.Quest?
    ensures strip[o].OCh_? <==> r.Choice?
    ensures r.Leaf? ==> strip[o] == r.atom.Code() && Len(r) - Len(r.next) == 1
    ensures r.Plus? ==> strip[o].fwd + 1 == Len(r) - Len(r.next)
    ensures r.Quest? ==> strip[o].fwd + 1 == Len(r) - Len(r.next)
    ensures r.Choice? ==> ChEnd(strip, o + strip[o].fwd) == Some(c) && c + 1 == o + Len(r) - Len(r.next)
  {
    hide Laid, LaidAlts, ChEnd, Len, LenAlts;
    c := 0;
    Thompson.LaidFits(strip, o, r);
    match r
    case Leaf(atom, n) =>
      Thompson.LaidLeaf(strip, o, atom, n);
      Thompson.LenOfLeaf(atom, n);
    case Plus(body, n) =>
      Thompson.LaidPlus(strip, o, body, n);
      Thompson.LenOfPlus(body, n);
    case Quest(body, n) =>
      Thompson.LaidQuest(strip, o, body, n);
      Thompson.LenOfQuest(body, n);
    case Choice(f, alts, n) =>
      c := Thompson.LaidChoice(strip, o, f, alts, n);
      Thompson.LenOfChoice(f, alts, n);
  }

  lemma {:induction false} FreshHasStart(strip: Ops, lo: nat, hi: nat, st: set<nat>)
    requires lo <= hi <= |strip| && IsFresh(strip, lo, hi, st)
    ensures lo in st
  {
  }

  /** When only fresh states are in flight, what is in flight can be laid to attempts from here on. */
  lemma {:induction false} EnteredAfresh(x: Subject, strip: Ops, lo: nat, hi: nat, i1: nat, j1: nat, i2: nat, p: nat,
        st: set<nat>)
    requires lo <= hi <= |strip| && In(x, At(p, false)) && i1 <= p <= i2
    requires Entered(x, strip, lo, hi, i1, j1, i2, p, st) && IsFresh(strip, lo, hi, st)
    ensures Entered(x, strip, lo, hi, i1, p, i2, p, st)
  {
    FreshSound(x, strip, lo, hi, p, i2, p, st);
  }

  lemma {:induction false} SettledIsSomePath(x: Subject, strip: Ops, lo: nat, hi: nat, i1: nat, j1: nat, i2: nat,
        p: nat, st: set<nat>)
    requires lo <= hi <= |strip| && i1 <= j1 <= p <= i2 && Settled(x, strip, lo, hi, i1, j1, i2, p, st)
    ensures hi in st ==> exists i :: j1 <= i <= p && Path(x, strip, lo, hi, i, p)
    ensures hi !in st ==> forall i :: i1 <= i <= p ==> !Path(x, strip, lo, hi, i, p)
  {
    if hi in st {
      assert ReachedAt(x, strip, lo, hi, j1, i2, hi, p);
      var w := !Reach(x, strip, lo, hi, j1, i2, Conf(hi, At(p, false)));
      var i := ReachFromOne(x, strip, lo, hi, j1, i2, Conf(hi, At(p, w)));
      assert Path(x, strip, lo, hi, i, p);
    }
    forall i | i1 <= i <= p && Path(x, strip, lo, hi, i, p)
      ensures hi in st
    {
      var w := !Reach(x, strip, lo, hi, i, i, Conf(hi, At(p, false)));
      ReachWider(x, strip, lo, hi, i, i, i1, i2, Conf(hi, At(p, w)));
    }
  }

  /** A match that begins before a cold position cannot get past it. */
  lemma {:induction false} Leftmost(x: Subject, strip: Ops, lo: nat, hi: nat, i1: nat, p: nat, i2: nat,
        freshSt: set<nat>, i: nat, j: nat)
    requires lo <= hi <= |strip| && i1 <= i < p <= j && p <= i2
    requires Entered(x, strip, lo, hi, i1, p, i2, p, freshSt) && IsFresh(strip, lo, hi, freshSt)
    requires NoReentry(strip, lo, hi)
    ensures !Path(x, strip, lo, hi, i, j)
  {
    var X := iset c: Conf | Reach(x, strip, lo, hi, i, i, c) && c.at.p < p;
    forall c, d | c in X && Edge(x, strip, lo, hi, c, d)
      ensures d in X
    {
      ReachStep(x, strip, lo, hi, i, i, c, d);
      if d.at.p != c.at.p {
        CharMove(x, strip, lo, hi, c, d);
        ReachWider(x, strip, lo, hi, i, i, i1, i2, c);
        assert d.at.p == p ==> d.s in freshSt;
      }
    }
    assert Reach(x, strip, lo, hi, i, i, Conf(lo, At(i, false)));
    assert Closed(x, strip, lo, hi, X) && Starts(lo, i, i, X);
  }

  lemma {:induction false} EnteredClosed(x: Subject, strip: Ops, lo: nat, hi: nat, i1: nat, j1: nat, i2: nat, p: nat,
        st: set<nat>)
    requires lo <= hi <= |strip| && Entered(x, strip, lo, hi, i1, j1, i2, p, st)
    ensures EpsClosed(strip, lo, hi, st)
  {
  }

  lemma {:induction false} StepIsClosed(strip: Ops, sets: seq<set<char>>, lo: nat, hi: nat, bef: set<nat>, ch: Symbol,
        aft: set<nat>, st: set<nat>)
    requires lo <= hi <= |strip| && IsStep(strip, sets, lo, hi, bef, ch, aft, st)
    ensures EpsClosed(strip, lo, hi, st)
  {
  }

  lemma {:induction false} SettledIsPath(x: Subject, strip: Ops, lo: nat, hi: nat, i: nat, p: nat, st: set<nat>)
    requires lo <= hi <= |strip| && Settled(x, strip, lo, hi, i, i, i, p, st)
    ensures hi in st <==> Path(x, strip, lo, hi, i, p)
  {
  }

  lemma {:induction false} NoMorePaths(x: Subject, strip: Ops, lo: nat, hi: nat, i: nat, p: nat, q: nat, st: set<nat>)
    requires lo <= hi <= |strip| && i <= p < q && Settled(x, strip, lo, hi, i, i, i, p, st) && st == {}
    ensures !Path(x, strip, lo, hi, i, q)
  {
    AllDead(x, strip, lo, hi, i, i, p, q, st, hi);
  }

  lemma {:induction false} FreshStep(strip: Ops, sets: seq<set<char>>, lo: nat, hi: nat, st: set<nat>)
    requires lo <= hi <= |strip| && IsStep(strip, sets, lo, hi, {lo}, Nothing, {lo}, st)
    ensures IsFresh(strip, lo, hi, st)
  {
    forall X | EpsClosed(strip, lo, hi, X) && lo in X
      ensures st <= X
    {
      assert Admits(strip, sets, lo, hi, {lo}, Nothing, {lo}, X);
    }
  }
}
