/** What the backtracking matcher does, one operator at a time: the reference for `backref`
    (include/regex/engine.c, lines 493-692). */
module Backtrack {
  import opened Strip
  import opened Text
  import opened Captures

  /** m->pmatch and m->lastpos. */
  datatype Memory = Memory(pm: seq<Span>, last: seq<nat>)

  datatype Trial = Trial(end: Option<nat>, mem: Memory)

  // ----- the tests backref makes itself -----

  predicate BolB(x: Subject, sp: nat)
    requires x.Valid() && x.begin <= sp <= x.end
  {
    (sp == x.begin && !x.notbol) || (sp < x.end && sp > x.begin && x.text[sp - 1] == '\n' && x.newline)
  }

  predicate EolB(x: Subject, sp: nat)
    requires x.Valid() && x.begin <= sp <= x.end
  {
    (sp == x.end && !x.noteol) || (sp < x.end && x.text[sp] == '\n' && x.newline)
  }

  predicate BowB(x: Subject, sp: nat)
    requires x.Valid() && x.begin <= sp <= x.end
  {
    (BolB(x, sp) || (sp > x.begin && !IsWord(x.text[sp - 1]))) && sp < x.end && IsWord(x.text[sp])
  }

  predicate EowB(x: Subject, sp: nat)
    requires x.Valid() && x.begin <= sp <= x.end
  {
    (EolB(x, sp) || (sp < x.end && !IsWord(x.text[sp]))) && sp > x.begin && IsWord(x.text[sp - 1])
  }

  /** The easy operators (lines 523-588): where they lead. */
  datatype Easy = Hard | No | To(ss: nat, sp: nat)

  function EasyStep(x: Subject, strip: Ops, stop: nat, ss: nat, sp: nat): (e: Easy)
    requires x.Valid() && x.begin <= sp <= stop <= x.end && ss < |strip|
    ensures e.To? ==> ss < e.ss <= |strip| && sp <= e.sp <= stop
  {
    match strip[ss]
    case OChar(c) => if sp == stop || x.text[sp] != c then No else To(ss + 1, sp + 1)
    case OAny => if sp == stop then No else To(ss + 1, sp + 1)
    case OAnyOf(_) => if sp == stop || !Fires(x.sets, strip[ss], Ch(x.text[sp])) then No else To(ss + 1, sp + 1)
    case OBol => if BolB(x, sp) then To(ss + 1, sp) else No
    case OEol => if EolB(x, sp) then To(ss + 1, sp) else No
    case OBow => if BowB(x, sp) then To(ss + 1, sp) else No
    case OEow => if EowB(x, sp) then To(ss + 1, sp) else No
    case O_Quest(_) => To(ss + 1, sp)
    case OOr1(_) => if ChEnd(strip, ss + 1).Some? then To(ChEnd(strip, ss + 1).value + 1, sp) else No
    case _ => Hard
  }

  /** The end of a back reference: the next O_BACK of that group. */
  function FindBack(strip: Ops, q: nat, i: nat): (r: Option<nat>)
    ensures r.Some? ==> q <= r.value < |strip| && strip[r.value] == O_Back(i)
    decreases |strip| - q
  {
    if q >= |strip| then None
    else if strip[q] == O_Back(i) then Some(q)
    else FindBack(strip, q + 1, i)
  }

  /** Group i has been captured, and its text stands at `sp` with room before `stop`. */
  predicate Repeats(x: Subject, stop: nat, sp: nat, s: Span)
    requires x.Valid() && sp <= stop <= x.end
  {
    s.eo != -1 && 0 <= s.so <= s.eo <= x.end && sp + (s.eo - s.so) <= stop
    && x.text[sp..sp + (s.eo - s.so)] == x.text[s.so..s.eo]
  }

  /** The end of the branch whose OCH_ or OOR2 is at `h`: its OOR1, or the O_CH. */
  function BranchEnd(strip: Ops, h: nat): (e: Option<nat>)
    requires h < |strip|
    ensures e.Some? ==> h < e.value < |strip| && (strip[e.value].OOr1? || strip[e.value].O_Ch?)
    ensures e.Some? && strip[e.value].OOr1? ==> e.value + 1 < |strip| && strip[e.value + 1].OOr2?
  {
    if !strip[h].OCh_? && !strip[h].OOr2? then None
    else
      var t := h + strip[h].fwd;
      if t >= |strip| then None
      else if strip[t].OOr2? && t > h + 1 && strip[t - 1].OOr1? then Some(t - 1)
      else if strip[t].O_Ch? && strip[h].OOr2? && t > h then Some(t)
      else None
  }

  // ----- moves that take no text, and going round in circles -----

  /** A move of the matcher that may leave the text position where it is. */
  ghost predicate ZeroMove(strip: Ops, s: nat, t: nat)
    requires s < |strip|
  {
    match strip[s]
    case OBol => t == s + 1
    case OEol => t == s + 1
    case OBow => t == s + 1
    case OEow => t == s + 1
    case O_Quest(_) => t == s + 1
    case OOr1(_) => ChEnd(strip, s + 1).Some? && t == ChEnd(strip, s + 1).value + 1
    case OBack_(i) => FindBack(strip, s, i).Some? && t == FindBack(strip, s, i).value + 1
    case OPlus_(_) => t == s + 1
    case O_Plus(n) => t == s + 1
    case OQuest_(n) => t == s + 1 || t == s + n + 1
    case OCh_(n) => t == s + 1 || t == s + n
    case OOr2(n) => t == s + 1 || t == s + n
    case OLParen(_) => t == s + 1
    case ORParen(_) => t == s + 1
    case _ => false
  }

  /** From the head of a branch into it, and on to the next. */
  lemma {:induction false} NextHead(strip: Ops, h: nat, e: nat)
    requires h < |strip| && BranchEnd(strip, h) == Some(e)
    ensures ZeroMove(strip, h, h + 1) && (!strip[e].O_Ch? ==> ZeroMove(strip, h, e + 1))
  {
  }

  ghost predicate ZeroClosed(strip: Ops, X: iset<nat>) {
    forall s, t :: s in X && s < |strip| && ZeroMove(strip, s, t) ==> t in X
  }

  /** From `s` some O_PLUS can be reached without taking any text. */
  ghost predicate CanLoop(strip: Ops, s: nat) {
    forall X: iset<nat> :: s in X && ZeroClosed(strip, X) ==> exists q :: q in X && q < |strip| && strip[q].O_Plus?
  }

  /** Every + body takes some text: once back at its beginning, no O_PLUS is in reach without. */
  ghost predicate LoopsConsume(strip: Ops) {
    forall q: nat :: q < |strip| && strip[q].O_Plus? ==>
      strip[q].back <= q && strip[q].back > 0 && !CanLoop(strip, q - strip[q].back + 1)
  }

  lemma {:induction false} LoopBefore(strip: Ops, s: nat, t: nat)
    requires s < |strip| && ZeroMove(strip, s, t) && CanLoop(strip, t)
    ensures CanLoop(strip, s)
  {
    forall X: iset<nat> | s in X && ZeroClosed(strip, X)
      ensures exists q :: q in X && q < |strip| && strip[q].O_Plus?
    {
      assert t in X;
    }
  }

  lemma {:induction false} LoopHere(strip: Ops, s: nat)
    requires s < |strip| && strip[s].O_Plus?
    ensures CanLoop(strip, s)
  {
  }

  ghost function Rank(strip: Ops, s: nat): nat { if CanLoop(strip, s) then 1 else 0 }

  lemma {:induction false} RankDown(strip: Ops, s: nat, t: nat)
    requires s < |strip| && ZeroMove(strip, s, t)
    ensures Rank(strip, t) <= Rank(strip, s)
  {
    if CanLoop(strip, t) { LoopBefore(strip, s, t); }
  }

  // ----- the reference -----

  function Put(last: seq<nat>, lev: nat, sp: nat): (r: seq<nat>)
    ensures |r| == |last|
  {
    if lev < |last| then last[lev := sp] else last
  }

  /** backref from operator `ss` and position `sp`, at + nesting level `lev`. */
  ghost function Run(x: Subject, strip: Ops, stop: nat, stopst: nat, ss: nat, sp: nat, lev: nat,
        mem: Memory): (v: Trial)
    requires x.Valid() && x.begin <= sp <= stop <= x.end && LoopsConsume(strip)
    ensures |v.mem.pm| == |mem.pm| && |v.mem.last| == |mem.last|
    ensures v.end.Some? ==> v.end.value == stop
    decreases stop - sp, Rank(strip, ss), |strip| - ss, 1
  {
    if ss >= stopst then Trial(if sp == stop then Some(sp) else None, mem)
    else if ss >= |strip| then Trial(None, mem)
    else
      match EasyStep(x, strip, stop, ss, sp) {
        case No => Trial(None, mem)
        case To(ss', sp') =>
          EasyRank(x, strip, stop, ss, sp);
          Run(x, strip, stop, stopst, ss', sp', lev, mem)
        case Hard =>
          match strip[ss] {
            case OBack_(i) =>
              var q := FindBack(strip, ss, i);
              if i >= |mem.pm| || q.None? || !Repeats(x, stop, sp, mem.pm[i]) then Trial(None, mem)
              else
                RankDown(strip, ss, q.value + 1);
                Run(x, strip, stop, stopst, q.value + 1, sp + (mem.pm[i].eo - mem.pm[i].so), lev, mem)
            case OQuest_(n) =>
              RankDown(strip, ss, ss + 1);
              RankDown(strip, ss, ss + n + 1);
              var v := Run(x, strip, stop, stopst, ss + 1, sp, lev, mem);
              if v.end.Some? then v else Run(x, strip, stop, stopst, ss + n + 1, sp, lev, v.mem)
            case OPlus_(_) =>
              RankDown(strip, ss, ss + 1);
              Run(x, strip, stop, stopst, ss + 1, sp, lev + 1, mem.(last := Put(mem.last, lev + 1, sp)))
            case O_Plus(n) =>
              LoopHere(strip, ss);
              RankDown(strip, ss, ss + 1);
              if lev == 0 || lev >= |mem.last| then Trial(None, mem)
              else if sp == mem.last[lev] then Run(x, strip, stop, stopst, ss + 1, sp, lev - 1, mem)
              else
                var v := Run(x, strip, stop, stopst, ss - n + 1, sp, lev, mem.(last := Put(mem.last, lev, sp)));
                if v.end.Some? then v else Run(x, strip, stop, stopst, ss + 1, sp, lev - 1, v.mem)
            case OCh_(_) => RunBranches(x, strip, stop, ss, sp, lev, mem)
            case OLParen(i) =>
              RankDown(strip, ss, ss + 1);
              if i >= |mem.pm| then Trial(None, mem)
              else
                var v := Run(x, strip, stop, stopst, ss + 1, sp, lev, mem.(pm := SetSo(mem.pm, i, sp)));
                if v.end.Some? then v else Trial(None, v.mem.(pm := SetSo(v.mem.pm, i, mem.pm[i].so)))
            case ORParen(i) =>
              RankDown(strip, ss, ss + 1);
              if i >= |mem.pm| then Trial(None, mem)
              else
                var v := Run(x, strip, stop, stopst, ss + 1, sp, lev, mem.(pm := SetEo(mem.pm, i, sp)));
                if v.end.Some? then v else Trial(None, v.mem.(pm := SetEo(v.mem.pm, i, mem.pm[i].eo)))
            case _ => Trial(None, mem)
          }
      }
  }

  /** The branches of a choice from the one headed at `h`: each is held to the whole of what is
      left, up to `stop`, and what follows the choice is not looked at (lines 640-660). */
  ghost function RunBranches(x: Subject, strip: Ops, stop: nat, h: nat, sp: nat, lev: nat, mem: Memory): (v: Trial)
    requires x.Valid() && x.begin <= sp <= stop <= x.end && LoopsConsume(strip) && h < |strip|
    ensures |v.mem.pm| == |mem.pm| && |v.mem.last| == |mem.last|
    ensures v.end.Some? ==> v.end.value == stop
    decreases stop - sp, Rank(strip, h), |strip| - h, 0
  {
    var e := BranchEnd(strip, h);
    if e.None? then Trial(None, mem)
    else
      RankDown(strip, h, h + 1);
      var v := Run(x, strip, stop, e.value, h + 1, sp, lev, mem);
      if v.end.Some? then v
      else if strip[e.value].O_Ch? then Trial(None, v.mem)
      else
        RankDown(strip, h, e.value + 1);
        RunBranches(x, strip, stop, e.value + 1, sp, lev, v.mem)
  }

  lemma {:induction false} EasyRank(x: Subject, strip: Ops, stop: nat, ss: nat, sp: nat)
    requires x.Valid() && x.begin <= sp <= stop <= x.end && ss < |strip|
    ensures var e := EasyStep(x, strip, stop, ss, sp);
            e.To? && e.sp == sp ==> Rank(strip, e.ss) <= Rank(strip, ss)
  {
    var e := EasyStep(x, strip, stop, ss, sp);
    if e.To? && e.sp == sp {
      RankDown(strip, ss, e.ss);
    }
  }
}
