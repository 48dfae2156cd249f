/** One step of the state-set simulation (include/regex/engine.c, `step`).
    State sets are values, as in the one-word representation of regexec.c, so `bef` keeps its
    value while `aft` grows. */
module Stepper {
  import opened Strip
  import opened Text

  /** FWD: "if I'm here, I can also be there". */
  function Fwd(dst: set<nat>, src: set<nat>, here: nat, n: nat): set<nat> {
    if here in src then dst + {here + n} else dst
  }

  /** BACK: the same towards the front of the strip. */
  function Back(dst: set<nat>, src: set<nat>, here: nat, n: nat): set<nat>
    requires n <= here
  {
    if here in src then dst + {here - n} else dst
  }

  /** What a set must hold to be an answer: what was already known, a move of every state of
      `bef` the symbol fires, and whatever those reach by empty moves. */
  ghost predicate Admits(strip: Ops, sets: seq<set<char>>, start: nat, stop: nat, bef: set<nat>, ch: Symbol,
        aft: set<nat>, X: set<nat>)
    requires start <= stop <= |strip|
  {
    EpsClosed(strip, start, stop, X) && aft <= X
    && forall s :: start <= s < stop && s in bef && Fires(sets, strip[s], ch) ==> s + 1 in X
  }

  ghost predicate IsStep(strip: Ops, sets: seq<set<char>>, start: nat, stop: nat, bef: set<nat>, ch: Symbol,
        aft: set<nat>, r: set<nat>)
    requires start <= stop <= |strip|
  {
    Admits(strip, sets, start, stop, bef, ch, aft, r)
    && Least(strip, sets, start, stop, bef, ch, aft, r)
  }

  /** The states before `pc` have been dealt with. */
  ghost predicate Swept(strip: Ops, sets: seq<set<char>>, start: nat, pc: nat, bef: set<nat>, ch: Symbol, aft: set<nat>)
    requires start <= pc <= |strip|
  {
    (forall s, t :: start <= s < pc && s in aft && EpsEdge(strip, s, t) ==> t in aft)
    && forall s :: start <= s < pc && s in bef && Fires(sets, strip[s], ch) ==> s + 1 in aft
  }

  /** The look-ahead of OOR1: from the OOR2 at `pc + 1` along the chain to the O_CH. */
  method LookForOCh(strip: Ops, pc: nat) returns (look: nat)
    requires ChEnd(strip, pc + 1).Some?
    ensures look > 0 && ChEnd(strip, pc + 1) == Some(pc + look)
  {
    look := 1;
    while !strip[pc + look].O_Ch?
      invariant look > 0 && pc + look < |strip|
      invariant ChEnd(strip, pc + look) == ChEnd(strip, pc + 1)
      decreases |strip| - look
    {
      look := look + strip[pc + look].fwd;
    }
  }

  /** The operators that consult the input (lines 908-938). */
  method SymbolMove(sets: seq<set<char>>, op: Sop, pc: nat, bef: set<nat>, ch: Symbol, aft0: set<nat>)
    returns (aft: set<nat>)
    ensures aft == aft0 + if pc in bef && Fires(sets, op, ch) then {pc + 1} else {}
    ensures pc in bef && pc + 1 !in aft0 ==>
      match op
      case OChar(c) => pc + 1 in aft <==> ch == Ch(c)
      case OAny => pc + 1 in aft <==> ch.Ch?
      case OAnyOf(n) => pc + 1 in aft <==> ch.Ch? && n < |sets| && ch.c in sets[n]
      case OBol => pc + 1 in aft <==> ch == Bol || ch == BolEol
      case OEol => pc + 1 in aft <==> ch == Eol || ch == BolEol
      case OBow => pc + 1 in aft <==> ch == Bow
      case OEow => pc + 1 in aft <==> ch == Eow
      case _ => true
  {
    aft := aft0;
    if Fires(sets, op, ch) {
      aft := Fwd(aft, bef, pc, 1);
    }
  }

  lemma {:induction false} FiresOnly(sets: seq<set<char>>, op: Sop, ch: Symbol)
    requires Fires(sets, op, ch)
    ensures op.OChar? || op.OAny? || op.OAnyOf? || op.OBol? || op.OEol? || op.OBow? || op.OEow?
  {
  }

  /** The effect of the operator at `pc`: the states that follow from it, all but the backward
      jump of O_PLUS, which the sweep itself deals with. */
  method Effect(strip: Ops, sets: seq<set<char>>, start: nat, stop: nat, pc: nat, bef: set<nat>, ch: Symbol,
        aft0: set<nat>) returns (aft: set<nat>)
    requires start <= pc < stop <= |strip| && SopOk(strip, start, stop, pc)
    ensures aft0 <= aft && forall t :: t in aft && t !in aft0 ==> t >= pc
    ensures pc in aft <==> pc in aft0
    ensures pc in bef && Fires(sets, strip[pc], ch) ==> pc + 1 in aft
    ensures pc in aft0 ==> forall t: nat :: EpsEdge(strip, pc, t) && t > pc ==> t in aft
    ensures forall t :: t in aft && t !in aft0 ==>
      (pc in aft0 && EpsEdge(strip, pc, t)) || (t == pc + 1 && pc in bef && Fires(sets, strip[pc], ch))
    ensures strip[pc].OAnyOf? && pc in bef && pc + 1 !in aft0 ==>
      (pc + 1 in aft <==> ch.Ch? && strip[pc].setno < |sets| && ch.c in sets[strip[pc].setno])
  {
    hide ChEnd, Fires;
    if Fires(sets, strip[pc], ch) { FiresOnly(sets, strip[pc], ch); }
    aft := aft0;
    match strip[pc] {
      case OEnd =>
      case OChar(_) | OBol | OEol | OBow | OEow | OAny | OAnyOf(_) =>
        aft := SymbolMove(sets, strip[pc], pc, bef, ch, aft);
      case OBack_(_) | O_Back(_) | OPlus_(_) | O_Quest(_) | OLParen(_) | ORParen(_) | O_Ch(_) | O_Plus(_) =>
        aft := Fwd(aft, aft, pc, 1);
      case OQuest_(n) =>
        aft := Fwd(aft, aft, pc, 1);
        aft := Fwd(aft, aft, pc, n);
      case OCh_(n) =>
        aft := Fwd(aft, aft, pc, 1);
        assert strip[pc + n].OOr2?;
        aft := Fwd(aft, aft, pc, n);
      case OOr1(_) =>
        if pc in aft {
          var look := LookForOCh(strip, pc);
          aft := Fwd(aft, aft, pc, look);
        }
      case OOr2(n) =>
        aft := Fwd(aft, aft, pc, 1);
        if !strip[pc + n].O_Ch? {
          assert strip[pc + n].OOr2?;
          aft := Fwd(aft, aft, pc, n);
        }
    }
  }

  ghost function UpTo(n: nat): (U: set<nat>)
    ensures forall s: nat :: s in U <==> s <= n
  {
    if n == 0 then {0} else UpTo(n - 1) + {n}
  }

  /** One turn of the sweep: the operator at `pc`, and where to go next. Re-entering a loop body
      through O_PLUS sends the sweep back, and then some state of the range is new. */
  method Turn(strip: Ops, sets: seq<set<char>>, start: nat, stop: nat, pc: nat, bef: set<nat>, ch: Symbol,
        ghost aft0: set<nat>, before: set<nat>) returns (aft: set<nat>, next: nat)
    requires start <= pc < stop <= |strip| && SopOk(strip, start, stop, pc)
    requires Swept(strip, sets, start, pc, bef, ch, before) && Least(strip, sets, start, stop, bef, ch, aft0, before)
    ensures before <= aft && start <= next <= stop
    ensures Swept(strip, sets, start, next, bef, ch, aft) && Least(strip, sets, start, stop, bef, ch, aft0, aft)
    ensures next == pc + 1 || (next <= pc && next in aft && next !in before)
  {
    hide EpsEdge, Fires, Swept, Least;
    aft := Effect(strip, sets, start, stop, pc, bef, ch, before);
    ghost var mid := aft;
    LeastStill(strip, sets, start, stop, pc, bef, ch, aft0, before, mid);
    next := pc + 1;
    if strip[pc].O_Plus? {
      PlusEdges(strip, pc);
      var n := strip[pc].back;
      var i := pc - n in aft;
      aft := Back(aft, aft, pc, n);
      LeastStill(strip, sets, start, stop, pc, bef, ch, aft0, mid, aft);
      if !i && pc - n in aft {
        SweptBack(strip, sets, start, pc, bef, ch, before, aft, pc - n);
        next := pc - n;
      } else {
        SweptNext(strip, sets, start, pc, bef, ch, before, aft);
      }
    } else {
      ForwardOnly(strip, pc);
      SweptNext(strip, sets, start, pc, bef, ch, before, aft);
    }
  }

  /** step: a single sweep, with a re-sweep of a loop body whenever O_PLUS newly re-enters it. */
  method Step(strip: Ops, sets: seq<set<char>>, start: nat, stop: nat, bef: set<nat>, ch: Symbol, aft0: set<nat>)
    returns (aft: set<nat>)
    requires RangeOk(strip, start, stop)
    ensures IsStep(strip, sets, start, stop, bef, ch, aft0, aft)
  {
    hide Swept, Least, Admits, SopOk;
    aft := aft0;
    var pc := start;
    ghost var U := UpTo(stop);
    Beginning(strip, sets, start, stop, bef, ch, aft);
    while pc != stop
      invariant start <= pc <= stop
      invariant aft0 <= aft && Swept(strip, sets, start, pc, bef, ch, aft)
      invariant Least(strip, sets, start, stop, bef, ch, aft0, aft)
      decreases |U - aft|, stop - pc
    {
      ghost var before := aft;
      aft, pc := Turn(strip, sets, start, stop, pc, bef, ch, aft0, aft);
      Shrinks(U, before, aft);
    }
    Finished(strip, sets, start, stop, bef, ch, aft0, aft);
  }

  lemma {:induction false} Beginning(strip: Ops, sets: seq<set<char>>, start: nat, stop: nat, bef: set<nat>,
        ch: Symbol, aft0: set<nat>)
    requires start <= stop <= |strip|
    ensures Swept(strip, sets, start, start, bef, ch, aft0) && Least(strip, sets, start, stop, bef, ch, aft0, aft0)
  {
  }

  lemma {:induction false} Finished(strip: Ops, sets: seq<set<char>>, start: nat, stop: nat, bef: set<nat>,
        ch: Symbol, aft0: set<nat>, aft: set<nat>)
    requires start <= stop <= |strip| && aft0 <= aft
    requires Swept(strip, sets, start, stop, bef, ch, aft) && Least(strip, sets, start, stop, bef, ch, aft0, aft)
    ensures IsStep(strip, sets, start, stop, bef, ch, aft0, aft)
  {
  }

  lemma {:induction false} PlusEdges(strip: Ops, pc: nat)
    requires pc < |strip| && strip[pc].O_Plus?
    ensures forall t: nat :: EpsEdge(strip, pc, t) <==> t == pc + 1 || t + strip[pc].back == pc
  {
  }

  lemma {:induction false} ForwardOnly(strip: Ops, pc: nat)
    requires pc < |strip| && !strip[pc].O_Plus?
    ensures forall t: nat :: EpsEdge(strip, pc, t) ==> t >= pc
  {
  }

  lemma {:induction false} SweptNext(strip: Ops, sets: seq<set<char>>, start: nat, pc: nat, bef: set<nat>, ch: Symbol,
        before: set<nat>, aft: set<nat>)
    requires start <= pc < |strip| && Swept(strip, sets, start, pc, bef, ch, before) && before <= aft
    requires forall t :: t in aft && t !in before ==> t >= pc
    requires pc in aft ==> forall t: nat :: EpsEdge(strip, pc, t) ==> t in aft
    requires pc in bef && Fires(sets, strip[pc], ch) ==> pc + 1 in aft
    ensures Swept(strip, sets, start, pc + 1, bef, ch, aft)
  {
  }

  lemma {:induction false} SweptBack(strip: Ops, sets: seq<set<char>>, start: nat, pc: nat, bef: set<nat>, ch: Symbol,
        before: set<nat>, aft: set<nat>, q: nat)
    requires start <= q <= pc < |strip| && Swept(strip, sets, start, pc, bef, ch, before) && before <= aft
    requires forall t :: t in aft && t !in before ==> t >= q
    ensures Swept(strip, sets, start, q, bef, ch, aft)
  {
  }

  ghost predicate Least(strip: Ops, sets: seq<set<char>>, start: nat, stop: nat, bef: set<nat>, ch: Symbol,
        aft0: set<nat>, aft: set<nat>)
    requires start <= stop <= |strip|
  {
    forall X :: Admits(strip, sets, start, stop, bef, ch, aft0, X) ==> aft <= X
  }

  lemma {:induction false} LeastStill(strip: Ops, sets: seq<set<char>>, start: nat, stop: nat, pc: nat, bef: set<nat>,
        ch: Symbol, aft0: set<nat>, before: set<nat>, aft: set<nat>)
    requires start <= pc < stop <= |strip|
    requires Least(strip, sets, start, stop, bef, ch, aft0, before)
    requires forall t :: t in aft && t !in before ==>
      (pc in before && EpsEdge(strip, pc, t)) || (t == pc + 1 && pc in bef && Fires(sets, strip[pc], ch))
    ensures Least(strip, sets, start, stop, bef, ch, aft0, aft)
  {
  }

  lemma {:induction false} Shrinks(U: set<nat>, a: set<nat>, b: set<nat>)
    requires a <= b
    ensures |U - b| <= |U - a| && ((exists t :: t in U && t in b && t !in a) ==> |U - b| < |U - a|)
  {
    Subset(U - b, U - a);
  }

  lemma {:induction false} Subset(a: set<nat>, b: set<nat>)
    requires a <= b
    ensures |a| <= |b| && (a != b ==> |a| < |b|)
  {
    assert b == a + (b - a);
  }
}
