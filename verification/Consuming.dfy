/** When every + body must take some text: a condition on expressions under which the backtracking
    matcher terminates and is sound on their code. */
module Consuming {
  import opened Strip
  import opened Text
  import opened Regex
  import opened Thompson
  import opened Captures
  import opened Backtrack
  import opened BackrefSound

  // ----- the condition -----

  /** May match without taking any text. (A back reference may: what it refers to may be empty.) */
  predicate Nullable(r: Re) {
    match r
    case Eps => true
    case Leaf(atom, k) => !Takes(atom) && Nullable(k)
    case Plus(b, k) => Nullable(b) && Nullable(k)
    case Quest(_, k) => Nullable(k)
    case Choice(f, alts, k) => (Nullable(f) || NullableAlts(alts)) && Nullable(k)
    case Back(_, _, k) => Nullable(k)
  }

  predicate NullableAlts(alts: Alts) {
    match alts
    case Last(b) => Nullable(b)
    case Or(b, m) => Nullable(b) || NullableAlts(m)
  }

  /** No + body is nullable, and no back reference stands within a copy of its own group. */
  predicate Consumes(r: Re) {
    match r
    case Eps => true
    case Leaf(_, k) => Consumes(k)
    case Plus(b, k) => !Nullable(b) && Consumes(b) && Consumes(k)
    case Quest(b, k) => Consumes(b) && Consumes(k)
    case Choice(f, alts, k) => Consumes(f) && ConsumesAlts(alts) && Consumes(k)
    case Back(n, b, k) => NoBack(n, b) && Consumes(b) && Consumes(k)
  }

  predicate ConsumesAlts(alts: Alts) {
    match alts
    case Last(b) => Consumes(b)
    case Or(b, m) => Consumes(b) && ConsumesAlts(m)
  }

  predicate NoBack(n: nat, r: Re) {
    match r
    case Eps => true
    case Leaf(_, k) => NoBack(n, k)
    case Plus(b, k) => NoBack(n, b) && NoBack(n, k)
    case Quest(b, k) => NoBack(n, b) && NoBack(n, k)
    case Choice(f, alts, k) => NoBack(n, f) && NoBackAlts(n, alts) && NoBack(n, k)
    case Back(i, b, k) => i != n && NoBack(n, b) && NoBack(n, k)
  }

  predicate NoBackAlts(n: nat, alts: Alts) {
    match alts
    case Last(b) => NoBack(n, b)
    case Or(b, m) => NoBack(n, b) && NoBackAlts(n, m)
  }

  // ----- what is near the beginning -----

  /** The state `s` of the code of `r`, counted from its first, can be reached from the first without
      taking text. */
  predicate Near(r: Re, s: nat) {
    s == 0 ||
    match r
    case Eps => false
    case Leaf(atom, k) => !Takes(atom) && Near(k, s - 1)
    case Plus(b, k) => if s <= 1 + Len(b) then Near(b, s - 1) else Nullable(b) && Near(k, s - 2 - Len(b))
    case Quest(b, k) => if s <= 1 + Len(b) then Near(b, s - 1) else Near(k, s - 2 - Len(b))
    case Back(_, b, k) => s >= 2 + Len(b) && Near(k, s - 2 - Len(b))
    case Choice(f, alts, k) =>
      if s <= 1 + Len(f) then Near(f, s - 1)
      else if s < 2 + Len(f) + LenAlts(alts) then NearAlts(alts, s - 2 - Len(f))
      else (Nullable(f) || NullableAlts(alts)) && Near(k, s - 2 - Len(f) - LenAlts(alts))
  }

  predicate NearAlts(alts: Alts, s: nat) {
    s == 0 ||
    match alts
    case Last(b) => s == 1 + Len(b) || (s <= 1 + Len(b) && Near(b, s - 1))
    case Or(b, m) => if s <= 1 + Len(b) then Near(b, s - 1) else NearAlts(m, s - 2 - Len(b))
  }

  lemma {:induction false} NearEnd(r: Re)
    ensures Near(r, Len(r)) ==> Nullable(r)
    decreases r
  {
    match r
    case Eps =>
    case Leaf(_, k) => NearEnd(k);
    case Plus(b, k) => NearEnd(k);
    case Quest(b, k) => NearEnd(k);
    case Back(_, b, k) => NearEnd(k);
    case Choice(f, alts, k) => NearEnd(k);
  }

  lemma {:induction false} NoBackThere(strip: Ops, o: nat, r: Re, n: nat, q: nat)
    requires Laid(strip, o, r) && NoBack(n, r) && o <= q < o + Len(r) && q < |strip|
    ensures strip[q] != O_Back(n)
    decreases r
  {
    hide Laid, LaidAlts, Len, LenAlts;
    match r
    case Eps => LenOfEps();
    case Leaf(atom, k) =>
      LaidLeaf(strip, o, atom, k);
      LenOfLeaf(atom, k);
      if q > o { NoBackThere(strip, o + 1, k, n, q); }
    case Plus(b, k) =>
      LaidPlus(strip, o, b, k);
      LenOfPlus(b, k);
      NoBackPair(strip, o, r, b, k, n, q);
    case Quest(b, k) =>
      LaidQuest(strip, o, b, k);
      LenOfQuest(b, k);
      NoBackPair(strip, o, r, b, k, n, q);
    case Back(i, b, k) =>
      LaidBack(strip, o, i, b, k);
      LenOfBack(i, b, k);
      NoBackPair(strip, o, r, b, k, n, q);
    case Choice(f, alts, k) =>
      var c := LaidChoice(strip, o, f, alts, k);
      LenOfChoice(f, alts, k);
      if o < q < o + 1 + Len(f) { NoBackThere(strip, o + 1, f, n, q); }
      else if o + 1 + Len(f) < q <= c { NoBackInAlts(strip, o + 2 + Len(f), alts, n, q); }
      else if q > c { NoBackThere(strip, c + 1, k, n, q); }
  }

  lemma {:induction false} NoBackPair(strip: Ops, o: nat, r: Re, b: Re, k: Re, n: nat, q: nat)
    requires r == Plus(b, k) || r == Quest(b, k) || (r.Back? && r.body == b && r.next == k)
    requires o + 2 + Len(b) + Len(k) <= |strip| && Laid(strip, o + 1, b) && Laid(strip, o + 2 + Len(b), k)
    requires strip[o] != O_Back(n) && strip[o + 1 + Len(b)] != O_Back(n)
    requires NoBack(n, b) && NoBack(n, k) && o <= q < o + 2 + Len(b) + Len(k)
    ensures strip[q] != O_Back(n)
    decreases r, 0
  {
    hide Laid, Len, NoBack;
    if o < q < o + 1 + Len(b) { NoBackThere(strip, o + 1, b, n, q); }
    else if q > o + 1 + Len(b) { NoBackThere(strip, o + 2 + Len(b), k, n, q); }
  }

  lemma {:induction false} NoBackInAlts(strip: Ops, o: nat, alts: Alts, n: nat, q: nat)
    requires LaidAlts(strip, o, alts) && NoBackAlts(n, alts) && o <= q < o + LenAlts(alts) && q < |strip|
    ensures strip[q] != O_Back(n)
    decreases alts
  {
    hide Laid, LaidAlts, Len, LenAlts;
    match alts
    case Last(b) =>
      LaidLast(strip, o, b);
      LenOfLast(b);
      if o < q < o + 1 + Len(b) { NoBackThere(strip, o + 1, b, n, q); }
    case Or(b, m) =>
      LaidOr(strip, o, b, m);
      LenOfOr(b, m);
      if o < q < o + 1 + Len(b) { NoBackThere(strip, o + 1, b, n, q); }
      else if q > o + 1 + Len(b) { NoBackInAlts(strip, o + 2 + Len(b), m, n, q); }
  }

  lemma {:induction false} FindBackIs(strip: Ops, q: nat, e: nat, n: nat)
    requires q <= e < |strip| && strip[e] == O_Back(n) && forall s :: q <= s < e ==> strip[s] != O_Back(n)
    ensures FindBack(strip, q, n) == Some(e)
    decreases e - q
  {
    if q < e { FindBackIs(strip, q + 1, e, n); }
  }

  /** Where a back reference ends: behind its copy of the group. */
  lemma {:induction false} BackEnds(strip: Ops, o: nat, n: nat, b: Re, k: Re)
    requires Laid(strip, o, Back(n, b, k)) && NoBack(n, b)
    ensures FindBack(strip, o, n) == Some(o + 1 + Len(b))
  {
    hide Laid, Len;
    LaidBack(strip, o, n, b, k);
    forall s | o <= s < o + 1 + Len(b)
      ensures strip[s] != O_Back(n)
    {
      if s > o { NoBackThere(strip, o + 1, b, n, s); }
    }
    FindBackIs(strip, o, o + 1 + Len(b), n);
  }

  // ----- what is near stays near, and is no O_PLUS -----

  /** The near parts of a part are near. */
  lemma {:induction false} InBody(r: Re, u: nat)
    requires r.Plus? || r.Quest? || r.Choice?
    requires u <= Len(if r.Choice? then r.first else r.body) && Near(if r.Choice? then r.first else r.body, u)
    ensures Near(r, u + 1)
  {
  }

  lemma {:induction false} InAlts(r: Re, u: nat)
    requires r.Choice? && u < LenAlts(r.rest) && NearAlts(r.rest, u)
    ensures Near(r, u + 2 + Len(r.first))
  {
  }

  /** The length of what stands before the rest. */
  function Before(r: Re): nat
    requires r != Eps
  {
    match r
    case Leaf(_, _) => 1
    case Plus(b, _) => 2 + Len(b)
    case Quest(b, _) => 2 + Len(b)
    case Back(_, b, _) => 2 + Len(b)
    case Choice(f, alts, _) => 2 + Len(f) + LenAlts(alts)
  }

  /** What stands before the rest can be passed without taking text. */
  predicate Passes(r: Re)
    requires r != Eps
  {
    match r
    case Leaf(atom, _) => !Takes(atom)
    case Plus(b, _) => Nullable(b)
    case Quest(b, _) => true
    case Back(_, b, _) => true
    case Choice(f, alts, _) => Nullable(f) || NullableAlts(alts)
  }

  lemma {:induction false} InRest(r: Re, u: nat)
    requires r != Eps
    ensures Passes(r) && Near(r.next, u) ==> Near(r, u + Before(r))
  {
  }

  lemma {:induction false} NearRest(r: Re, s: nat)
    requires r != Eps && s >= Before(r) && Near(r, s)
    ensures Passes(r) && Near(r.next, s - Before(r))
  {
  }

  /** A textless move from `q` in the code of `r` leads to a near state. */
  ghost predicate Steps(strip: Ops, o: nat, r: Re, q: nat, t: nat) {
    q < |strip| && !strip[q].O_Plus? && (ZeroMove(strip, q, t) ==> o <= t <= o + Len(r) && Near(r, t - o))
  }

  lemma {:induction false} NearStep(strip: Ops, o: nat, r: Re, q: nat, t: nat)
    requires Laid(strip, o, r) && Consumes(r) && o <= q < o + Len(r) && Near(r, q - o)
    ensures Steps(strip, o, r, q, t)
    decreases r, 2
  {
    hide Laid, LaidAlts, Len, LenAlts, ZeroMove, Near, Nullable;
    match r
    case Eps => LenOfEps();
    case Leaf(atom, k) =>
      LaidLeaf(strip, o, atom, k);
      LenOfLeaf(atom, k);
      if q == o {
        LeafMove(strip, o, atom, t);
        NearFirst(k);
        InRest(r, 0);
      } else {
        RestNear(strip, o, r, q, t);
      }
    case Plus(b, k) => PlusNear(strip, o, b, k, q, t);
    case Quest(b, k) => QuestNear(strip, o, b, k, q, t);
    case Back(i, b, k) => BackNear(strip, o, i, b, k, q, t);
    case Choice(f, alts, k) => ChoiceNear(strip, o, f, alts, k, q, t);
  }

  lemma {:induction false} NearFirst(r: Re)
    ensures Near(r, 0)
  {
  }

  lemma {:induction false} RestNear(strip: Ops, o: nat, r: Re, q: nat, t: nat)
    requires r != Eps && Consumes(r) && Laid(strip, o + Before(r), r.next) && Len(r) == Before(r) + Len(r.next)
    requires o + Before(r) <= q < o + Len(r) && Near(r, q - o)
    ensures Steps(strip, o, r, q, t)
    decreases r, 0
  {
    hide Laid, Len, Before, ZeroMove, Near, Passes;
    NearRest(r, q - o);
    NearStep(strip, o + Before(r), r.next, q, t);
    if ZeroMove(strip, q, t) {
      InRest(r, t - o - Before(r));
    }
  }

  lemma {:induction false} LeafMove(strip: Ops, o: nat, atom: Atom, t: nat)
    requires o < |strip| && strip[o] == atom.Code()
    ensures !strip[o].O_Plus? && (ZeroMove(strip, o, t) ==> !Takes(atom) && t == o + 1)
  {
  }

  lemma {:induction false} PlusNear(strip: Ops, o: nat, b: Re, k: Re, q: nat, t: nat)
    requires Laid(strip, o, Plus(b, k)) && Consumes(Plus(b, k)) && o <= q < o + Len(Plus(b, k))
    requires Near(Plus(b, k), q - o)
    ensures Steps(strip, o, Plus(b, k), q, t)
    decreases Plus(b, k), 1
  {
    hide Laid, Len, Near, Nullable;
    var r := Plus(b, k);
    LaidPlus(strip, o, b, k);
    LenOfPlus(b, k);
    NearFirst(b);
    InBody(r, 0);
    if q > o {
      BodyOf(r, q - o);
      NearStep(strip, o + 1, b, q, t);
      if ZeroMove(strip, q, t) { InBody(r, t - o - 1); }
    }
  }

  lemma {:induction false} BodyOf(r: Re, s: nat)
    requires s > 0 && Near(r, s)
    ensures r.Plus? && s <= 1 + Len(r.body) ==> Near(r.body, s - 1)
    ensures r.Plus? && !Nullable(r.body) ==> s <= Len(r.body)
    ensures r.Quest? && s <= 1 + Len(r.body) ==> Near(r.body, s - 1)
    ensures r.Back? ==> s >= Before(r)
    ensures r.Choice? && s <= 1 + Len(r.first) ==> Near(r.first, s - 1)
    ensures r.Choice? && 1 + Len(r.first) < s < Before(r) ==> NearAlts(r.rest, s - 2 - Len(r.first))
  {
    if r.Plus? { NearEnd(r.body); }
  }

  lemma {:induction false} QuestNear(strip: Ops, o: nat, b: Re, k: Re, q: nat, t: nat)
    requires Laid(strip, o, Quest(b, k)) && Consumes(Quest(b, k)) && o <= q < o + Len(Quest(b, k))
    requires Near(Quest(b, k), q - o)
    ensures Steps(strip, o, Quest(b, k), q, t)
    decreases Quest(b, k), 1
  {
    hide Laid, Len, Near, Nullable;
    var r := Quest(b, k);
    LaidQuest(strip, o, b, k);
    LenOfQuest(b, k);
    NearFirst(b);
    NearFirst(k);
    InBody(r, 0);
    InRest(r, 0);
    if o < q {
      BodyOf(r, q - o);
      if q < o + 1 + Len(b) {
        NearStep(strip, o + 1, b, q, t);
        if ZeroMove(strip, q, t) { InBody(r, t - o - 1); }
      } else if q > o + 1 + Len(b) {
        RestNear(strip, o, r, q, t);
      }
    }
  }

  lemma {:induction false} BackNear(strip: Ops, o: nat, i: nat, b: Re, k: Re, q: nat, t: nat)
    requires Laid(strip, o, Back(i, b, k)) && Consumes(Back(i, b, k)) && o <= q < o + Len(Back(i, b, k))
    requires Near(Back(i, b, k), q - o)
    ensures Steps(strip, o, Back(i, b, k), q, t)
    decreases Back(i, b, k), 1
  {
    hide Laid, Len, FindBack, Near, Nullable;
    var r := Back(i, b, k);
    LaidBack(strip, o, i, b, k);
    LenOfBack(i, b, k);
    BackEnds(strip, o, i, b, k);
    NearFirst(k);
    InRest(r, 0);
    if o < q {
      BodyOf(r, q - o);
      RestNear(strip, o, r, q, t);
    }
  }

  lemma {:induction false} ChoiceNear(strip: Ops, o: nat, f: Re, alts: Alts, k: Re, q: nat, t: nat)
    requires Laid(strip, o, Choice(f, alts, k)) && Consumes(Choice(f, alts, k))
    requires o <= q < o + Len(Choice(f, alts, k)) && Near(Choice(f, alts, k), q - o)
    ensures Steps(strip, o, Choice(f, alts, k), q, t)
    decreases Choice(f, alts, k), 1
  {
    hide Laid, LaidAlts, Len, LenAlts, ChEnd, Near, NearAlts, Nullable, NullableAlts;
    var r := Choice(f, alts, k);
    var c := LaidChoice(strip, o, f, alts, k);
    LenOfChoice(f, alts, k);
    NearFirst(f);
    NearFirst(k);
    NearFirstAlts(alts);
    InBody(r, 0);
    InAlts(r, 0);
    InRest(r, 0);
    if q == o {
    } else if q < o + 2 + Len(f) {
      BodyOf(r, q - o);
      NearEnd(f);
      if q < o + 1 + Len(f) {
        NearStep(strip, o + 1, f, q, t);
        if ZeroMove(strip, q, t) { InBody(r, t - o - 1); }
      }
    } else if q <= c {
      BodyOf(r, q - o);
      AltsNear(strip, o + 2 + Len(f), alts, q, t);
      if ZeroMove(strip, q, t) && t <= c { InAlts(r, t - o - 2 - Len(f)); }
    } else {
      RestNear(strip, o, r, q, t);
    }
  }

  lemma {:induction false} NearFirstAlts(alts: Alts)
    ensures NearAlts(alts, 0)
  {
  }

  /** From among the branches a move stays there, or leaves them at the end. */
  ghost predicate AltsSteps(strip: Ops, o: nat, alts: Alts, q: nat, t: nat) {
    q < |strip| && !strip[q].O_Plus?
    && (ZeroMove(strip, q, t) ==>
          (o <= t < o + LenAlts(alts) && NearAlts(alts, t - o)) || (t == o + LenAlts(alts) && NullableAlts(alts)))
  }

  lemma {:induction false} AltsNear(strip: Ops, o: nat, alts: Alts, q: nat, t: nat)
    requires LaidAlts(strip, o, alts) && ConsumesAlts(alts) && o <= q < o + LenAlts(alts) && NearAlts(alts, q - o)
    ensures AltsSteps(strip, o, alts, q, t)
    decreases alts, 0
  {
    hide Laid, LaidAlts, Len, LenAlts, ChEnd, Near, Nullable;
    NearFirst(alts.b);
    NearEnd(alts.b);
    InBranch(alts, 0);
    match alts
    case Last(b) =>
      LaidLast(strip, o, b);
      LenOfLast(b);
      if o < q <= o + Len(b) {
        assert Near(b, q - o - 1);
        NearStep(strip, o + 1, b, q, t);
        if ZeroMove(strip, q, t) { InBranch(alts, t - o - 1); }
      }
    case Or(b, m) =>
      LaidOr(strip, o, b, m);
      LenOfOr(b, m);
      NearFirstAlts(m);
      InLater(alts, 0);
      if q == o + 1 + Len(b) { assert Near(b, Len(b)); }
      if o < q <= o + Len(b) {
        assert Near(b, q - o - 1);
        NearStep(strip, o + 1, b, q, t);
        if ZeroMove(strip, q, t) { InBranch(alts, t - o - 1); }
      } else if q > o + 1 + Len(b) {
        assert NearAlts(m, q - o - 2 - Len(b));
        AltsNear(strip, o + 2 + Len(b), m, q, t);
        if ZeroMove(strip, q, t) && t < o + LenAlts(alts) { InLater(alts, t - o - 2 - Len(b)); }
      }
  }

  lemma {:induction false} InBranch(alts: Alts, u: nat)
    requires u <= Len(alts.b) && Near(alts.b, u)
    ensures NearAlts(alts, u + 1)
  {
  }

  lemma {:induction false} InLater(alts: Alts, u: nat)
    requires alts.Or? && NearAlts(alts.more, u)
    ensures NearAlts(alts, u + 2 + Len(alts.b))
  {
  }

  // ----- the code of such an expression -----

  predicate NoChoice(r: Re) {
    match r
    case Eps => true
    case Leaf(_, k) => NoChoice(k)
    case Plus(b, k) => NoChoice(b) && NoChoice(k)
    case Quest(b, k) => NoChoice(b) && NoChoice(k)
    case Choice(_, _, _) => false
    case Back(_, b, k) => NoChoice(b) && NoChoice(k)
  }

  predicate NearAt(b: Re, o: nat, q: nat) { o <= q && Near(b, q - o) }

  lemma {:induction false} BodyCannotLoop(strip: Ops, o: nat, b: Re)
    requires Laid(strip, o, b) && Consumes(b) && !Nullable(b)
    ensures !CanLoop(strip, o)
  {
    hide Laid, Len, Near, Nullable, ZeroMove, Consumes;
    var X := iset q | o <= q < o + Len(b) && NearAt(b, o, q);
    NearFirst(b);
    NearEnd(b);
    forall q, t | q in X && q < |strip| && ZeroMove(strip, q, t)
      ensures t in X
    {
      NearStep(strip, o, b, q, t);
    }
    forall q | q in X
      ensures q < |strip| && !strip[q].O_Plus?
    {
      NearStep(strip, o, b, q, q);
    }
    assert o in X && ZeroClosed(strip, X);
  }

  /** What an operator of the range that ends at `hi` owes. */
  ghost predicate Fine(strip: Ops, hi: nat, q: nat, choice: bool)
    requires q < |strip|
  {
    (strip[q].O_Plus? ==> strip[q].back <= q && strip[q].back > 0 && !CanLoop(strip, q - strip[q].back + 1))
    && StaysWithin(strip, hi, q) && (strip[q].OCh_? || strip[q].OOr2? ==> choice)
  }

  lemma {:induction false} OpIsFine(strip: Ops, o: nat, r: Re, hi: nat, q: nat)
    requires Laid(strip, o, r) && Consumes(r) && o <= q < o + Len(r) <= hi <= |strip|
    ensures Fine(strip, hi, q, !NoChoice(r))
    decreases r, 2
  {
    hide Laid, LaidAlts, Len, LenAlts, ChEnd, FindBack, CanLoop, Nullable, StaysWithin;
    match r
    case Eps => LenOfEps();
    case Leaf(atom, k) =>
      LaidLeaf(strip, o, atom, k);
      LenOfLeaf(atom, k);
      if q == o { AtomIsFine(strip, hi, q, atom); } else { OpIsFine(strip, o + 1, k, hi, q); }
    case Plus(b, k) =>
      LaidPlus(strip, o, b, k);
      LenOfPlus(b, k);
      BodyCannotLoop(strip, o + 1, b);
      PairIsFine(strip, o, r, hi, q);
    case Quest(b, k) =>
      LaidQuest(strip, o, b, k);
      LenOfQuest(b, k);
      PairIsFine(strip, o, r, hi, q);
    case Back(i, b, k) =>
      LaidBack(strip, o, i, b, k);
      LenOfBack(i, b, k);
      BackEnds(strip, o, i, b, k);
      PairIsFine(strip, o, r, hi, q);
    case Choice(f, alts, k) =>
      var c := LaidChoice(strip, o, f, alts, k);
      LenOfChoice(f, alts, k);
      if q == o || q == o + 1 + Len(f) { BranchIsFine(strip, hi, q); }
      else if q < o + 1 + Len(f) { OpIsFine(strip, o + 1, f, hi, q); }
      else if q <= c { AltIsFine(strip, o + 2 + Len(f), alts, hi, q); }
      else { OpIsFine(strip, c + 1, k, hi, q); }
  }

  lemma {:induction false} AtomIsFine(strip: Ops, hi: nat, q: nat, atom: Atom)
    requires q < |strip| && strip[q] == atom.Code()
    ensures Fine(strip, hi, q, false)
  {
    hide CanLoop, FindBack;
  }

  lemma {:induction false} BranchIsFine(strip: Ops, hi: nat, q: nat)
    requires q < hi <= |strip| && (strip[q].OCh_? || strip[q].OOr2? || strip[q].O_Ch? || strip[q].OOr1?)
    requires strip[q].OOr1? ==> ChEnd(strip, q + 1).Some? && ChEnd(strip, q + 1).value < hi
    requires strip[q].OCh_? || strip[q].OOr2? ==> q + strip[q].fwd < hi
    ensures Fine(strip, hi, q, true)
  {
    hide CanLoop, FindBack, ChEnd;
  }

  lemma {:induction false} PairIsFine(strip: Ops, o: nat, r: Re, hi: nat, q: nat)
    requires (r.Plus? || r.Quest? || r.Back?) && Consumes(r)
    requires var L := Len(r.body);
             o <= q < o + 2 + L + Len(r.next) <= hi <= |strip| && Laid(strip, o + 1, r.body)
               && Laid(strip, o + 2 + L, r.next)
    requires var L := Len(r.body);
             match r
             case Plus(_, _) => strip[o].OPlus_? && strip[o + 1 + L] == O_Plus(L + 1) && !CanLoop(strip, o + 1)
             case Quest(_, _) => strip[o] == OQuest_(L + 1) && strip[o + 1 + L].O_Quest?
             case Back(i, _, _) =>
               strip[o] == OBack_(i) && strip[o + 1 + L].O_Back? && FindBack(strip, o, i) == Some(o + 1 + L)
    ensures Fine(strip, hi, q, !NoChoice(r))
    decreases r, 1
  {
    hide Laid, Len, FindBack, CanLoop, Nullable;
    if o < q <= o + Len(r.body) { OpIsFine(strip, o + 1, r.body, hi, q); }
    else if q > o + 1 + Len(r.body) { OpIsFine(strip, o + 2 + Len(r.body), r.next, hi, q); }
  }

  lemma {:induction false} AltIsFine(strip: Ops, o: nat, alts: Alts, hi: nat, q: nat)
    requires LaidAlts(strip, o, alts) && ConsumesAlts(alts) && o <= q < o + LenAlts(alts) <= hi <= |strip|
    ensures Fine(strip, hi, q, true)
    decreases alts, 1
  {
    hide Laid, LaidAlts, Len, LenAlts, ChEnd, FindBack, CanLoop, Nullable, StaysWithin;
    match alts
    case Last(b) =>
      LaidLast(strip, o, b);
      LenOfLast(b);
      if q == o || q == o + 1 + Len(b) { BranchIsFine(strip, hi, q); } else { OpIsFine(strip, o + 1, b, hi, q); }
    case Or(b, m) =>
      LaidOr(strip, o, b, m);
      LenOfOr(b, m);
      if q == o || q == o + 1 + Len(b) { BranchIsFine(strip, hi, q); }
      else if q < o + 1 + Len(b) { OpIsFine(strip, o + 1, b, hi, q); }
      else { AltIsFine(strip, o + 2 + Len(b), m, hi, q); }
  }

  /** The hypotheses under which the matcher's backtracking was studied hold of the code of every
      expression whose loops consume. */
  lemma {:induction false} CodeIsFine(strip: Ops, o: nat, r: Re)
    requires Laid(strip, o, r) && Consumes(r) && o + Len(r) < |strip|
    requires forall q :: 0 <= q < |strip| && (q < o || o + Len(r) <= q) ==> strip[q].OEnd?
    ensures LoopsConsume(strip) && Within(strip, o + Len(r)) && (NoChoice(r) ==> ChoiceFree(strip))
  {
    hide Laid, Len, CanLoop, Consumes, NoChoice, FindBack, ChEnd;
    var hi := o + Len(r);
    forall q: nat | q < |strip|
      ensures strip[q].O_Plus? ==> strip[q].back <= q && strip[q].back > 0 && !CanLoop(strip, q - strip[q].back + 1)
      ensures StaysWithin(strip, hi, q)
      ensures NoChoice(r) ==> !strip[q].OCh_?
    {
      if o <= q < hi { OpIsFine(strip, o, r, hi, q); } else { assert strip[q].OEnd?; }
    }
  }
}
