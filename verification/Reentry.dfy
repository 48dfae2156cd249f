/** When the search for the leftmost match is right (engine.c, lines 727-728 and 777-779): no
    operator that takes a character may lead into a state a fresh attempt begins in. Which
    expressions that holds of. */
module Reentry {
  import opened Strip
  import opened Text
  import opened Regex
  import opened Paths
  import opened Simulation
  import opened Thompson
  import opened Syntax
  import Stepper

  /** A text that lets no operator through: what it matches is matched by empty moves alone. */
  const BLANK := Subject([], 0, 0, false, true, true, [])

  lemma {:induction false} BlankBlocks(op: Sop, a: At)
    requires In(BLANK, a)
    ensures BLANK.Consume(op, a) == None
  {
  }

  /** Can `r` be crossed by empty moves? */
  predicate EpsNull(r: Re) {
    match r
    case Eps => true
    case Leaf(atom, k) => atom.Paren() && EpsNull(k)
    case Plus(b, k) => EpsNull(b) && EpsNull(k)
    case Quest(_, k) => EpsNull(k)
    case Choice(f, alts, k) => (EpsNull(f) || EpsNullAlts(alts)) && EpsNull(k)
    case Back(_, b, k) => EpsNull(b) && EpsNull(k)
  }

  predicate EpsNullAlts(alts: Alts) {
    match alts
    case Last(b) => EpsNull(b)
    case Or(b, m) => EpsNull(b) || EpsNullAlts(m)
  }

  /** Does the code of `r` end in an operator that takes a character? */
  predicate EndsTaking(r: Re) {
    match r
    case Eps => false
    case Leaf(atom, k) => if k == Eps then Taking(atom.Code()) else EndsTaking(k)
    case Plus(_, k) => EndsTaking(k)
    case Quest(_, k) => EndsTaking(k)
    case Choice(_, _, k) => EndsTaking(k)
    case Back(_, _, k) => EndsTaking(k)
  }

  function FinalBranch(alts: Alts): Re {
    match alts
    case Last(b) => b
    case Or(_, m) => FinalBranch(m)
  }

  /** In the part a fresh attempt can reach, nothing that takes a character stands right before a
      place empty moves jump to: the end of a ?, or the end of a choice that can be crossed. */
  predicate Safe(r: Re) {
    match r
    case Eps => true
    case Leaf(atom, k) => atom.Paren() ==> Safe(k)
    case Plus(b, k) => Safe(b) && (EpsNull(b) ==> Safe(k))
    case Quest(b, k) => Safe(b) && !EndsTaking(b) && Safe(k)
    case Choice(f, alts, k) =>
      Safe(f) && SafeAlts(alts)
      && (EpsNull(f) || EpsNullAlts(alts) ==> Safe(k) && !EndsTaking(FinalBranch(alts)))
    case Back(_, b, k) => Safe(b) && (EpsNull(b) ==> Safe(k))
  }

  predicate SafeAlts(alts: Alts) {
    match alts
    case Last(b) => Safe(b)
    case Or(b, m) => Safe(b) && SafeAlts(m)
  }

  lemma {:induction false} NullOnly(r: Re, a: At, b: At)
    requires Match(BLANK, r, a, b)
    ensures EpsNull(r)
    decreases r, 1
  {
    hide Match, Iter, Repeated;
    MatchIsIn(BLANK, r, a, b);
    match r
    case Eps =>
    case Leaf(atom, k) =>
      LeafSplit(BLANK, atom, k, a, b);
      BlankBlocks(atom.Code(), a);
      NullOnly(k, a, b);
    case Plus(body, k) =>
      var m, n := PlusSplit(BLANK, body, k, a, b);
      var l := IterSplit(BLANK, body, n, a, m);
      NullOnly(body, l, m);
      NullOnly(k, m, b);
    case Quest(body, k) =>
      var m := QuestSplit(BLANK, body, k, a, b);
      NullOnly(k, m, b);
    case Choice(f, alts, k) =>
      var m := ChoiceSplit(BLANK, f, alts, k, a, b);
      NullChoice(f, alts, k, a, m);
      NullOnly(k, m, b);
    case Back(i, body, k) =>
      var m := BackSplit(BLANK, i, body, k, a, b);
      NullOnly(body, a, m);
      NullOnly(k, m, b);
  }

  lemma {:induction false} NullChoice(f: Re, alts: Alts, k: Re, a: At, b: At)
    requires MatchChoice(BLANK, f, alts, a, b)
    ensures EpsNull(f) || EpsNullAlts(alts)
    decreases Choice(f, alts, k), 0
  {
    hide Match, MatchAlts;
    if Match(BLANK, f, a, b) { NullOnly(f, a, b); } else { NullAlts(alts, a, b); }
  }

  lemma {:induction false} NullAlts(alts: Alts, a: At, b: At)
    requires MatchAlts(BLANK, alts, a, b)
    ensures EpsNullAlts(alts)
    decreases alts, 0
  {
    hide Match;
    match alts
    case Last(r) => NullOnly(r, a, b);
    case Or(r, m) => if Match(BLANK, r, a, b) { NullOnly(r, a, b); } else { NullAlts(m, a, b); }
  }

  lemma {:induction false} EndIsTaking(strip: Ops, o: nat, r: Re)
    requires Laid(strip, o, r) && Len(r) > 0 && o + Len(r) <= |strip| && Taking(strip[o + Len(r) - 1])
    ensures EndsTaking(r)
    decreases r
  {
    hide Laid, LaidAlts, ChEnd, Len, LenAlts, Layout, LayoutAlts;
    LayoutOf(r);
    match r
    case Leaf(atom, k) =>
      LaidLeaf(strip, o, atom, k);
      LenZero(k);
      LenOfEps();
      if k != Eps { EndIsTaking(strip, o + 1, k); }
    case Plus(b, k) =>
      LaidPlus(strip, o, b, k);
      if Len(k) > 0 { EndIsTaking(strip, o + 2 + Len(b), k); }
    case Quest(b, k) =>
      LaidQuest(strip, o, b, k);
      if Len(k) > 0 { EndIsTaking(strip, o + 2 + Len(b), k); }
    case Choice(f, alts, k) =>
      var c := LaidChoice(strip, o, f, alts, k);
      if Len(k) > 0 { EndIsTaking(strip, c + 1, k); }
    case Back(i, b, k) =>
      LaidBack(strip, o, i, b, k);
      if Len(k) > 0 { EndIsTaking(strip, o + 2 + Len(b), k); }
  }

  lemma {:induction false} LenZero(r: Re)
    ensures r != Eps ==> Len(r) > 0
  {
  }

  /** The last operator before the O_CH belongs to the final branch. */
  lemma {:induction false} FinalIsTaking(strip: Ops, o: nat, alts: Alts)
    requires LaidAlts(strip, o, alts) && o + LenAlts(alts) <= |strip| && Taking(strip[o + LenAlts(alts) - 2])
    ensures EndsTaking(FinalBranch(alts))
    decreases alts
  {
    hide Laid, LaidAlts, ChEnd, Len, LenAlts, EndsTaking;
    match alts
    case Last(b) =>
      LaidLast(strip, o, b);
      LenOfLast(b);
      EndIsTaking(strip, o + 1, b);
    case Or(b, m) =>
      LaidOr(strip, o, b, m);
      LenOfOr(b, m);
      FinalIsTaking(strip, o + 2 + Len(b), m);
  }

  /** Past an operator that takes a character there is no empty way. */
  lemma {:induction false} NoCross(strip: Ops, o: nat, r: Re, s: nat, a: At, c: At)
    requires Safe(r) && Laid(strip, o, r) && s < Len(r) && o + s < |strip| && Taking(strip[o + s])
    ensures !Partial(BLANK, r, s + 1, a, c)
    decreases r, 1
  {
    hide Partial, Laid, LaidAlts, ChEnd, Len, LenAlts, Safe, Layout;
    LayoutOf(r);
    match r
    case Eps =>
    case Leaf(atom, k) => LeafNoCross(strip, o, atom, k, s, a, c);
    case Plus(b, k) => PlusNoCross(strip, o, b, k, s, a, c);
    case Quest(b, k) => QuestNoCross(strip, o, b, k, s, a, c);
    case Choice(f, alts, k) => ChoiceNoCross(strip, o, f, alts, k, s, a, c);
    case Back(i, b, k) => BackNoCross(strip, o, i, b, k, s, a, c);
  }

  lemma {:induction false} LeafNoCross(strip: Ops, o: nat, atom: Atom, k: Re, s: nat, a: At, c: At)
    requires Safe(Leaf(atom, k)) && Laid(strip, o, Leaf(atom, k)) && s < Len(Leaf(atom, k)) && o + s < |strip|
    requires Taking(strip[o + s])
    ensures !Partial(BLANK, Leaf(atom, k), s + 1, a, c)
    decreases Leaf(atom, k), 0
  {
    hide Partial, Laid, Len;
    LenOfLeaf(atom, k);
    if Partial(BLANK, Leaf(atom, k), s + 1, a, c) {
      PartialIsIn(BLANK, Leaf(atom, k), s + 1, a, c);
      LaidLeaf(strip, o, atom, k);
      LeafNext(BLANK, atom, k, s, a, c);
      BlankBlocks(atom.Code(), a);
      if s > 0 { NoCross(strip, o + 1, k, s - 1, a, c); }
    }
  }

  lemma {:induction false} PlusNoCross(strip: Ops, o: nat, b: Re, k: Re, s: nat, a: At, c: At)
    requires Safe(Plus(b, k)) && Laid(strip, o, Plus(b, k)) && s < 2 + Len(b) + Len(k) && o + s < |strip|
    requires Taking(strip[o + s])
    ensures !Partial(BLANK, Plus(b, k), s + 1, a, c)
    decreases Plus(b, k), 0
  {
    hide Partial, Laid, Len, Iter, Match, Repeated;
    LenOfPlus(b, k);
    LaidPlus(strip, o, b, k);
    if Partial(BLANK, Plus(b, k), s + 1, a, c) {
      if s <= Len(b) {
        var m := PlusOut(BLANK, b, k, s, a, c);
        NoCross(strip, o + 1, b, s - 1, m, c);
      } else {
        var m := PlusBefore(BLANK, b, k, s - 1 - Len(b), a, c);
        var n := RepeatedTimes(b, a, m);
        var l := IterSplit(BLANK, b, n, a, m);
        NullOnly(b, l, m);
        NoCross(strip, o + 2 + Len(b), k, s - 2 - Len(b), m, c);
      }
    }
  }

  lemma {:induction false} RepeatedTimes(b: Re, a: At, m: At) returns (n: nat)
    requires Repeated(BLANK, b, a, m)
    ensures n > 0 && Iter(BLANK, b, n, a, m)
  {
    n :| n > 0 && Iter(BLANK, b, n, a, m);
  }

  lemma {:induction false} QuestNoCross(strip: Ops, o: nat, b: Re, k: Re, s: nat, a: At, c: At)
    requires Safe(Quest(b, k)) && Laid(strip, o, Quest(b, k)) && s < 2 + Len(b) + Len(k) && o + s < |strip|
    requires Taking(strip[o + s])
    ensures !Partial(BLANK, Quest(b, k), s + 1, a, c)
    decreases Quest(b, k), 0
  {
    hide Partial, Laid, Len, Match, EndsTaking;
    LenOfQuest(b, k);
    LaidQuest(strip, o, b, k);
    if Partial(BLANK, Quest(b, k), s + 1, a, c) {
      if s <= Len(b) {
        if s == Len(b) { EndIsTaking(strip, o + 1, b); }
        QuestOut(BLANK, b, k, s, a, c);
        NoCross(strip, o + 1, b, s - 1, a, c);
      } else {
        var m := QuestBefore(BLANK, b, k, s - 1 - Len(b), a, c);
        NoCross(strip, o + 2 + Len(b), k, s - 2 - Len(b), m, c);
      }
    }
  }

  lemma {:induction false} BackNoCross(strip: Ops, o: nat, i: nat, b: Re, k: Re, s: nat, a: At, c: At)
    requires Safe(Back(i, b, k)) && Laid(strip, o, Back(i, b, k)) && s < 2 + Len(b) + Len(k) && o + s < |strip|
    requires Taking(strip[o + s])
    ensures !Partial(BLANK, Back(i, b, k), s + 1, a, c)
    decreases Back(i, b, k), 0
  {
    hide Partial, Laid, Len, Match;
    LenOfBack(i, b, k);
    LaidBack(strip, o, i, b, k);
    if Partial(BLANK, Back(i, b, k), s + 1, a, c) {
      if s <= Len(b) {
        BackOut(BLANK, i, b, k, s, a, c);
        NoCross(strip, o + 1, b, s - 1, a, c);
      } else {
        var m := BackBefore(BLANK, i, b, k, s - 1 - Len(b), a, c);
        NullOnly(b, a, m);
        NoCross(strip, o + 2 + Len(b), k, s - 2 - Len(b), m, c);
      }
    }
  }

  lemma {:induction false} ChoiceNoCross(strip: Ops, o: nat, f: Re, alts: Alts, k: Re, s: nat, a: At, c: At)
    requires Safe(Choice(f, alts, k)) && Laid(strip, o, Choice(f, alts, k))
    requires s < 2 + Len(f) + LenAlts(alts) + Len(k) && o + s < |strip| && Taking(strip[o + s])
    ensures !Partial(BLANK, Choice(f, alts, k), s + 1, a, c)
    decreases Choice(f, alts, k), 0
  {
    hide Partial, PartialAlts, Laid, LaidAlts, Len, LenAlts, Match, MatchAlts, MatchChoice, EndsTaking, ChEnd;
    LenOfChoice(f, alts, k);
    var L, R := Len(f), LenAlts(alts);
    var e := LaidChoice(strip, o, f, alts, k);
    if Partial(BLANK, Choice(f, alts, k), s + 1, a, c) {
      PartialIsIn(BLANK, Choice(f, alts, k), s + 1, a, c);
      if s <= L {
        ChoiceOut(BLANK, f, alts, k, s, a, c);
        NoCross(strip, o + 1, f, s - 1, a, c);
      } else if s + 1 < 1 + L + R {
        ChoiceInAlts(BLANK, f, alts, k, s - 1 - L, a, c);
        AltsNoCross(strip, o + 2 + L, alts, s - 2 - L, a, c);
      } else if s + 1 == 1 + L + R {
        ChoiceAtEnd(BLANK, f, alts, k, a, c);
        NullChoice(f, alts, k, a, c);
        FinalIsTaking(strip, o + 2 + L, alts);
      } else {
        var m := ChoiceBefore(BLANK, f, alts, k, s - 1 - L - R, a, c);
        NullChoice(f, alts, k, a, m);
        NoCross(strip, e + 1, k, s - 2 - L - R, m, c);
      }
    }
  }

  lemma {:induction false} AltsNoCross(strip: Ops, o: nat, alts: Alts, s: nat, a: At, c: At)
    requires SafeAlts(alts) && LaidAlts(strip, o, alts) && s + 1 < LenAlts(alts) - 1 && o + s < |strip|
    requires Taking(strip[o + s])
    requires In(BLANK, a) && In(BLANK, c)
    ensures !PartialAlts(BLANK, alts, s + 1, a, c)
    decreases alts, 0
  {
    hide Partial, PartialAlts, Laid, LaidAlts, Len, LenAlts, ChEnd;
    match alts
    case Last(r) =>
      LaidLast(strip, o, r);
      LenOfLast(r);
      LastIn(BLANK, r, s, a, c);
      NoCross(strip, o + 1, r, s - 1, a, c);
    case Or(r, m) =>
      LaidOr(strip, o, r, m);
      LenOfOr(r, m);
      if s <= Len(r) {
        OrIn(BLANK, r, m, s, a, c);
        NoCross(strip, o + 1, r, s - 1, a, c);
      } else {
        OrPast(BLANK, r, m, s - 1 - Len(r), a, c);
        AltsNoCross(strip, o + 2 + Len(r), m, s - 2 - Len(r), a, c);
      }
  }

  /** A safe expression's code has no way back into its fresh states. */
  lemma {:induction false} SafeIsNoReentry(strip: Ops, o: nat, r: Re)
    requires Safe(r) && Laid(strip, o, r) && o + Len(r) <= |strip|
    ensures NoReentry(strip, o, o + Len(r))
  {
    hide Safe, Laid, Len, Partial, EpsEdge;
    var hi, z := o + Len(r), At(0, false);
    var X := ReachedByEmpty(strip, o, r);
    forall F: set<nat>, s | IsFresh(strip, o, hi, F) && o <= s < hi && Taking(strip[s])
      ensures s + 1 !in F
    {
      NoCross(strip, o, r, s - o, z, z);
      assert F <= X;
    }
  }

  // ----- the converse: where the condition fails there is a way back -----

  /** Empty moves from the states of `X` within [lo, hi) stay in `X`. */
  ghost predicate Holds(strip: Ops, lo: nat, hi: nat, X: set<nat>, o: nat, r: Re)
    requires lo <= hi <= |strip|
  {
    EpsClosed(strip, lo, hi, X) && o in X && lo <= o && o + Len(r) <= hi && Laid(strip, o, r)
  }

  lemma {:induction false} NullReaches(strip: Ops, lo: nat, hi: nat, X: set<nat>, o: nat, r: Re)
    requires lo <= hi <= |strip| && Holds(strip, lo, hi, X, o, r) && EpsNull(r)
    ensures o + Len(r) in X
    decreases r, 1
  {
    hide Laid, LaidAlts, ChEnd, Len, LenAlts;
    match r
    case Eps => LenOfEps();
    case Leaf(atom, k) =>
      LenOfLeaf(atom, k);
      LaidLeaf(strip, o, atom, k);
      assert EpsEdge(strip, o, o + 1);
      NullReaches(strip, lo, hi, X, o + 1, k);
    case Plus(b, k) =>
      LenOfPlus(b, k);
      LaidPlus(strip, o, b, k);
      PairReaches(strip, lo, hi, X, o, r, b, k);
    case Back(i, b, k) =>
      LenOfBack(i, b, k);
      LaidBack(strip, o, i, b, k);
      PairReaches(strip, lo, hi, X, o, r, b, k);
    case Quest(b, k) =>
      LenOfQuest(b, k);
      LaidQuest(strip, o, b, k);
      assert EpsEdge(strip, o, o + 1 + Len(b)) && EpsEdge(strip, o + 1 + Len(b), o + 2 + Len(b));
      NullReaches(strip, lo, hi, X, o + 2 + Len(b), k);
    case Choice(f, alts, k) =>
      LenOfChoice(f, alts, k);
      var c := LaidChoice(strip, o, f, alts, k);
      ChoiceReaches(strip, lo, hi, X, o, f, alts, k);
      NullReaches(strip, lo, hi, X, c + 1, k);
  }

  lemma {:induction false} PairReaches(strip: Ops, lo: nat, hi: nat, X: set<nat>, o: nat, r: Re, b: Re, k: Re)
    requires r == Plus(b, k) || (r.Back? && r.body == b && r.next == k)
    requires lo <= hi <= |strip| && EpsClosed(strip, lo, hi, X) && o in X && lo <= o && o + 2 + Len(b) + Len(k) <= hi
    requires Laid(strip, o + 1, b) && Laid(strip, o + 2 + Len(b), k) && EpsNull(b) && EpsNull(k)
    requires strip[o].OPlus_? || strip[o].OBack_?
    requires strip[o + 1 + Len(b)].O_Plus? || strip[o + 1 + Len(b)].O_Back?
    ensures o + 2 + Len(b) + Len(k) in X
    decreases r, 0
  {
    hide Laid, Len;
    BodyReaches(strip, lo, hi, X, o, r, b);
    NullReaches(strip, lo, hi, X, o + 2 + Len(b), k);
  }

  /** Through the brackets around a body that can be crossed. */
  lemma {:induction false} BodyReaches(strip: Ops, lo: nat, hi: nat, X: set<nat>, o: nat, r: Re, b: Re)
    requires b < r && lo <= hi <= |strip| && EpsClosed(strip, lo, hi, X) && o in X && lo <= o && o + 2 + Len(b) <= hi
    requires Laid(strip, o + 1, b) && (strip[o].OPlus_? || strip[o].OBack_?)
    requires strip[o + 1 + Len(b)].O_Plus? || strip[o + 1 + Len(b)].O_Back?
    ensures o + 1 in X && (EpsNull(b) ==> o + 2 + Len(b) in X)
    decreases b, 2
  {
    hide Laid, Len;
    assert EpsEdge(strip, o, o + 1);
    if EpsNull(b) {
      NullReaches(strip, lo, hi, X, o + 1, b);
      assert EpsEdge(strip, o + 1 + Len(b), o + 2 + Len(b));
    }
  }

  /** Into every branch, and out at the end if a branch can be crossed. */
  lemma {:induction false} ChoiceReaches(strip: Ops, lo: nat, hi: nat, X: set<nat>, o: nat, f: Re, alts: Alts, k: Re)
    requires lo <= hi <= |strip| && Holds(strip, lo, hi, X, o, Choice(f, alts, k))
    ensures o + 1 in X && o + 2 + Len(f) in X
    ensures EpsNull(f) || EpsNullAlts(alts) ==>
      o + 1 + Len(f) + LenAlts(alts) in X && o + 2 + Len(f) + LenAlts(alts) in X
    decreases Choice(f, alts, k), 0
  {
    hide Laid, LaidAlts, ChEnd, Len, LenAlts;
    LenOfChoice(f, alts, k);
    var c := LaidChoice(strip, o, f, alts, k);
    assert EpsEdge(strip, o, o + 1) && EpsEdge(strip, o, o + 2 + Len(f));
    if EpsNull(f) {
      NullReaches(strip, lo, hi, X, o + 1, f);
      assert EpsEdge(strip, o + 1 + Len(f), c);
    } else if EpsNullAlts(alts) {
      AltsReach(strip, lo, hi, X, o + 2 + Len(f), alts);
    }
    assert EpsEdge(strip, c, c + 1);
  }

  lemma {:induction false} AltsReach(strip: Ops, lo: nat, hi: nat, X: set<nat>, o: nat, alts: Alts)
    requires lo <= o && o + LenAlts(alts) <= hi <= |strip| && EpsClosed(strip, lo, hi, X) && o in X
    requires LaidAlts(strip, o, alts) && EpsNullAlts(alts)
    ensures o + LenAlts(alts) - 1 in X
    decreases alts, 0
  {
    hide Laid, LaidAlts, ChEnd, Len, LenAlts;
    var b := alts.b;
    if alts.Last? {
      LaidLast(strip, o, b);
      LenOfLast(b);
      assert EpsEdge(strip, o, o + 1);
      NullReaches(strip, lo, hi, X, o + 1, b);
    } else {
      LaidOr(strip, o, b, alts.more);
      LenOfOr(b, alts.more);
      assert EpsEdge(strip, o, o + 1) && EpsEdge(strip, o, o + 2 + Len(b));
      if EpsNull(b) {
        NullReaches(strip, lo, hi, X, o + 1, b);
        assert EpsEdge(strip, o + 1 + Len(b), o + 1 + Len(b) + LenAlts(alts.more));
      } else {
        AltsReach(strip, lo, hi, X, o + 2 + Len(b), alts.more);
      }
    }
  }

  lemma {:induction false} TakingEnd(strip: Ops, o: nat, r: Re)
    requires Laid(strip, o, r) && EndsTaking(r) && o + Len(r) <= |strip|
    ensures Len(r) > 0 && Taking(strip[o + Len(r) - 1])
    decreases r
  {
    hide Laid, LaidAlts, ChEnd, Len, LenAlts;
    match r
    case Leaf(atom, k) =>
      LaidLeaf(strip, o, atom, k);
      LenOfLeaf(atom, k);
      LenOfEps();
      if k != Eps { TakingEnd(strip, o + 1, k); }
    case Plus(b, k) =>
      LenOfPlus(b, k);
      LaidPlus(strip, o, b, k);
      TakingEnd(strip, o + 2 + Len(b), k);
    case Quest(b, k) =>
      LenOfQuest(b, k);
      LaidQuest(strip, o, b, k);
      TakingEnd(strip, o + 2 + Len(b), k);
    case Choice(f, alts, k) =>
      LenOfChoice(f, alts, k);
      var c := LaidChoice(strip, o, f, alts, k);
      TakingEnd(strip, c + 1, k);
    case Back(i, b, k) =>
      LenOfBack(i, b, k);
      LaidBack(strip, o, i, b, k);
      TakingEnd(strip, o + 2 + Len(b), k);
  }

  lemma {:induction false} FinalTakingEnd(strip: Ops, o: nat, alts: Alts)
    requires LaidAlts(strip, o, alts) && EndsTaking(FinalBranch(alts)) && o + LenAlts(alts) <= |strip|
    ensures Taking(strip[o + LenAlts(alts) - 2])
    decreases alts
  {
    hide Laid, LaidAlts, ChEnd, Len, LenAlts, EndsTaking;
    match alts
    case Last(b) =>
      LaidLast(strip, o, b);
      LenOfLast(b);
      TakingEnd(strip, o + 1, b);
    case Or(b, m) =>
      LaidOr(strip, o, b, m);
      LenOfOr(b, m);
      FinalTakingEnd(strip, o + 2 + Len(b), m);
  }

  /** An operator that takes a character and leads into `X`. */
  ghost predicate Returns(strip: Ops, o: nat, hi: nat, X: set<nat>, s: nat) {
    o <= s < hi <= |strip| && Taking(strip[s]) && s + 1 in X
  }

  lemma {:induction false} WayBack(strip: Ops, lo: nat, hi: nat, X: set<nat>, o: nat, r: Re) returns (s: nat)
    requires lo <= hi <= |strip| && Holds(strip, lo, hi, X, o, r) && !Safe(r)
    ensures Returns(strip, lo, hi, X, s)
    decreases r, 1
  {
    hide Laid, LaidAlts, ChEnd, Len, LenAlts, EndsTaking, EpsNull, EpsNullAlts;
    match r
    case Leaf(atom, k) =>
      LenOfLeaf(atom, k);
      LaidLeaf(strip, o, atom, k);
      assert EpsEdge(strip, o, o + 1);
      s := WayBack(strip, lo, hi, X, o + 1, k);
    case Plus(b, k) =>
      LenOfPlus(b, k);
      LaidPlus(strip, o, b, k);
      BodyReaches(strip, lo, hi, X, o, r, b);
      if !Safe(b) {
        s := WayBack(strip, lo, hi, X, o + 1, b);
      } else {
        s := WayBack(strip, lo, hi, X, o + 2 + Len(b), k);
      }
    case Back(i, b, k) =>
      LenOfBack(i, b, k);
      LaidBack(strip, o, i, b, k);
      BodyReaches(strip, lo, hi, X, o, r, b);
      if !Safe(b) {
        s := WayBack(strip, lo, hi, X, o + 1, b);
      } else {
        s := WayBack(strip, lo, hi, X, o + 2 + Len(b), k);
      }
    case Quest(b, k) => s := QuestWayBack(strip, lo, hi, X, o, b, k);
    case Choice(f, alts, k) => s := ChoiceWayBack(strip, lo, hi, X, o, f, alts, k);
  }

  lemma {:induction false} QuestWayBack(strip: Ops, lo: nat, hi: nat, X: set<nat>, o: nat, b: Re, k: Re)
    returns (s: nat)
    requires lo <= hi <= |strip| && Holds(strip, lo, hi, X, o, Quest(b, k)) && !Safe(Quest(b, k))
    ensures Returns(strip, lo, hi, X, s)
    decreases Quest(b, k), 0
  {
    hide Laid, ChEnd, Len, EndsTaking;
    LenOfQuest(b, k);
    LaidQuest(strip, o, b, k);
    var e := o + 1 + Len(b);
    assert EpsEdge(strip, o, o + 1) && EpsEdge(strip, o, e) && EpsEdge(strip, e, e + 1);
    if !Safe(b) {
      s := WayBack(strip, lo, hi, X, o + 1, b);
    } else if EndsTaking(b) {
      TakingEnd(strip, o + 1, b);
      s := o + Len(b);
    } else {
      s := WayBack(strip, lo, hi, X, e + 1, k);
    }
  }

  lemma {:induction false} ChoiceWayBack(strip: Ops, lo: nat, hi: nat, X: set<nat>, o: nat, f: Re, alts: Alts, k: Re)
    returns (s: nat)
    requires lo <= hi <= |strip| && Holds(strip, lo, hi, X, o, Choice(f, alts, k)) && !Safe(Choice(f, alts, k))
    ensures Returns(strip, lo, hi, X, s)
    decreases Choice(f, alts, k), 0
  {
    hide Laid, LaidAlts, ChEnd, Len, LenAlts, EndsTaking, EpsNull, EpsNullAlts;
    LenOfChoice(f, alts, k);
    var c := LaidChoice(strip, o, f, alts, k);
    ChoiceReaches(strip, lo, hi, X, o, f, alts, k);
    if !Safe(f) {
      s := WayBack(strip, lo, hi, X, o + 1, f);
    } else if !SafeAlts(alts) {
      s := AltsWayBack(strip, lo, hi, X, o + 2 + Len(f), alts);
    } else if !Safe(k) {
      s := WayBack(strip, lo, hi, X, c + 1, k);
    } else {
      FinalTakingEnd(strip, o + 2 + Len(f), alts);
      s := c - 1;
    }
  }

  lemma {:induction false} AltsWayBack(strip: Ops, lo: nat, hi: nat, X: set<nat>, o: nat, alts: Alts) returns (s: nat)
    requires lo <= o && o + LenAlts(alts) <= hi <= |strip| && EpsClosed(strip, lo, hi, X) && o in X
    requires LaidAlts(strip, o, alts) && !SafeAlts(alts)
    ensures Returns(strip, lo, hi, X, s)
    decreases alts, 0
  {
    hide Laid, LaidAlts, ChEnd, Len, LenAlts, Safe;
    var b := alts.b;
    if alts.Last? {
      LaidLast(strip, o, b);
      LenOfLast(b);
    } else {
      LaidOr(strip, o, b, alts.more);
      LenOfOr(b, alts.more);
    }
    assert EpsEdge(strip, o, o + 1);
    if !Safe(b) {
      s := WayBack(strip, lo, hi, X, o + 1, b);
    } else {
      assert EpsEdge(strip, o, o + 2 + Len(b));
      s := AltsWayBack(strip, lo, hi, X, o + 2 + Len(b), alts.more);
    }
  }

  /** There is a least closed set. */
  lemma {:induction false} FreshExists(strip: Ops, lo: nat, hi: nat, U: set<nat>) returns (F: set<nat>)
    requires lo <= hi <= |strip| && EpsClosed(strip, lo, hi, U) && lo in U
    ensures IsFresh(strip, lo, hi, F)
  {
    F := set s | s in U && forall X: set<nat> :: EpsClosed(strip, lo, hi, X) && lo in X ==> s in X;
    forall s, t | lo <= s < hi && s in F && EpsEdge(strip, s, t)
      ensures t in F
    {
      forall X: set<nat> | EpsClosed(strip, lo, hi, X) && lo in X
        ensures t in X
      {
        assert s in X;
      }
    }
  }

  /** The condition is exact: the code of an expression has no way back into its fresh states if and
      only if the expression is safe. */
  lemma {:induction false} SafeIffNoReentry(strip: Ops, o: nat, r: Re)
    requires Laid(strip, o, r) && o + Len(r) <= |strip|
    ensures NoReentry(strip, o, o + Len(r)) <==> Safe(r)
  {
    hide Safe, Laid, Len, Partial, EpsEdge, EpsClosed;
    var hi, z := o + Len(r), At(0, false);
    if Safe(r) {
      SafeIsNoReentry(strip, o, r);
    } else {
      var U := ReachedByEmpty(strip, o, r);
      var F := FreshExists(strip, o, hi, U);
      var s := WayBack(strip, o, hi, F, o, r);
    }
  }

  lemma {:induction false} ReachedByEmpty(strip: Ops, o: nat, r: Re) returns (X: set<nat>)
    requires Laid(strip, o, r) && o + Len(r) <= |strip|
    ensures EpsClosed(strip, o, o + Len(r), X) && o in X
    ensures forall s :: s in X ==> o <= s <= o + Len(r) && Partial(BLANK, r, s - o, At(0, false), At(0, false))
  {
    hide Laid, Len, Partial, EpsEdge;
    var hi, z := o + Len(r), At(0, false);
    X := set s | s in Stepper.UpTo(hi) && s >= o && Partial(BLANK, r, s - o, z, z);
    forall s, t | o <= s < hi && s in X && EpsEdge(strip, s, t)
      ensures t in X
    {
      PartialStep(BLANK, strip, o, r, s - o, z, Conf(s, z), Conf(t, z));
    }
    PartialStart(BLANK, r, z);
  }

  // ----- expressions -----

  /** No alternation. (y? and y* are fine: the first is emitted as (y|), whose final branch is
      empty, and the second closes on an O_PLUS.) */
  predicate UnionFree(e: Expr) {
    match e
    case Empty => true
    case Sym(atom) => !atom.Paren()
    case Cat(l, r) => UnionFree(l) && UnionFree(r)
    case Union(_, _) => false
    case Star(d) => UnionFree(d)
    case Some1(d) => UnionFree(d)
    case Opt(d) => UnionFree(d)
    case Group(_, d) => UnionFree(d)
  }

  lemma {:induction false} UnionFreeIsSafe(e: Expr, k: Re)
    requires UnionFree(e) && Safe(k)
    ensures Safe(Emit(e, k))
    decreases e
  {
    match e
    case Empty =>
    case Sym(atom) =>
    case Cat(l, r) => UnionFreeIsSafe(r, k); UnionFreeIsSafe(l, Emit(r, k));
    case Star(d) => UnionFreeIsSafe(d, Eps);
    case Some1(d) => UnionFreeIsSafe(d, Eps);
    case Opt(d) => UnionFreeIsSafe(d, Eps);
    case Group(n, d) => UnionFreeIsSafe(d, Leaf(RParen(n), k));
  }
}
