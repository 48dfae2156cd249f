/** The strip of a regular expression does what the expression means: paths through its range
    spell exactly its matches. */
module Thompson {
  import opened Strip
  import opened Text
  import opened Regex
  import opened Paths

  // ----- what being in the middle of a construct means -----

  ghost predicate Star(x: Subject, r: Re, a: At, b: At) {
    exists n: nat :: Iter(x, r, n, a, b)
  }

  ghost predicate MatchChoice(x: Subject, f: Re, alts: Alts, a: At, b: At) {
    Match(x, f, a, b) || MatchAlts(x, alts, a, b)
  }

  /** Begun at `a`, the layout of `r` can be in its k-th state at `b`. */
  ghost predicate Partial(x: Subject, r: Re, k: nat, a: At, b: At)
    requires k <= Len(r)
    decreases r
  {
    In(x, a) && In(x, b) &&
    match r
    case Eps => a == b
    case Leaf(atom, n) =>
      if k == 0 then a == b
      else Moves(x, atom, a).Some? && Partial(x, n, k - 1, Moves(x, atom, a).value, b)
    case Plus(body, n) =>
      var L := Len(body);
      if k == 0 then Star(x, body, a, b)
      else if k <= 1 + L then exists m :: Star(x, body, a, m) && Partial(x, body, k - 1, m, b)
      else exists m :: Repeated(x, body, a, m) && Partial(x, n, k - 2 - L, m, b)
    case Quest(body, n) =>
      var L := Len(body);
      if k == 0 then a == b
      else if k <= 1 + L then Partial(x, body, k - 1, a, b) || (k == 1 + L && a == b)
      else Partial(x, n, k - 2 - L, a, b) || exists m :: Match(x, body, a, m) && Partial(x, n, k - 2 - L, m, b)
    case Choice(f, alts, n) =>
      var L, R := Len(f), LenAlts(alts);
      if k == 0 then a == b
      else if k <= 1 + L then Partial(x, f, k - 1, a, b)
      else if k < 1 + L + R then PartialAlts(x, alts, k - 2 - L, a, b)
      else if k == 1 + L + R then MatchChoice(x, f, alts, a, b)
      else exists m :: MatchChoice(x, f, alts, a, m) && Partial(x, n, k - 2 - L - R, m, b)
    case Back(_, body, n) =>
      var L := Len(body);
      if k == 0 then a == b
      else if k <= 1 + L then Partial(x, body, k - 1, a, b)
      else exists m :: Match(x, body, a, m) && Partial(x, n, k - 2 - L, m, b)
  }

  /** The same inside the later branches of a choice, short of the closing O_CH. */
  ghost predicate PartialAlts(x: Subject, alts: Alts, k: nat, a: At, b: At)
    requires k < LenAlts(alts) - 1
    decreases alts
  {
    if k == 0 then a == b && In(x, a)
    else match alts
      case Last(r) => Partial(x, r, k - 1, a, b)
      case Or(r, m) =>
        if k <= 1 + Len(r) then Partial(x, r, k - 1, a, b) else PartialAlts(x, m, k - 2 - Len(r), a, b)
  }

  // ----- taking layouts and matches apart -----

  lemma {:induction false} LaidLeaf(strip: Ops, o: nat, atom: Atom, n: Re)
    requires Laid(strip, o, Leaf(atom, n))
    ensures o < |strip| && strip[o] == atom.Code() && Laid(strip, o + 1, n)
  {
    hide Len;
  }

  lemma {:induction false} LaidPlus(strip: Ops, o: nat, body: Re, n: Re)
    requires Laid(strip, o, Plus(body, n))
    ensures o + 2 + Len(body) + Len(n) <= |strip|
    ensures strip[o] == OPlus_(Len(body) + 1) && strip[o + 1 + Len(body)] == O_Plus(Len(body) + 1)
    ensures Laid(strip, o + 1, body) && Laid(strip, o + 2 + Len(body), n)
  {
    hide Len, LenAlts;
    LenOfPlus(body, n);
  }

  lemma {:induction false} LaidQuest(strip: Ops, o: nat, body: Re, n: Re)
    requires Laid(strip, o, Quest(body, n))
    ensures o + 2 + Len(body) + Len(n) <= |strip|
    ensures strip[o] == OQuest_(Len(body) + 1) && strip[o + 1 + Len(body)] == O_Quest(Len(body) + 1)
    ensures Laid(strip, o + 1, body) && Laid(strip, o + 2 + Len(body), n)
  {
    hide Len, LenAlts;
    LenOfQuest(body, n);
  }

  lemma {:induction false} LaidBack(strip: Ops, o: nat, i: nat, body: Re, n: Re)
    requires Laid(strip, o, Back(i, body, n))
    ensures o + 2 + Len(body) + Len(n) <= |strip|
    ensures strip[o] == OBack_(i) && strip[o + 1 + Len(body)] == O_Back(i)
    ensures Laid(strip, o + 1, body) && Laid(strip, o + 2 + Len(body), n)
  {
    hide Len, LenAlts;
    LenOfBack(i, body, n);
  }

  /** `c` is where the O_CH of the choice stands. */
  lemma {:induction false} LaidChoice(strip: Ops, o: nat, f: Re, alts: Alts, n: Re) returns (c: nat)
    requires Laid(strip, o, Choice(f, alts, n))
    ensures c == o + 1 + Len(f) + LenAlts(alts) && c + 1 + Len(n) <= |strip|
    ensures strip[o] == OCh_(Len(f) + 2) && strip[o + 2 + Len(f)].OOr2?
    ensures strip[o + 1 + Len(f)] == OOr1(Len(f) + 1) && ChEnd(strip, o + 2 + Len(f)) == Some(c)
    ensures strip[c].O_Ch?
    ensures Laid(strip, o + 1, f) && LaidAlts(strip, o + 2 + Len(f), alts) && Laid(strip, c + 1, n)
  {
    hide Len, LenAlts, LaidAlts, ChEnd;
    LenOfChoice(f, alts, n);
    c := o + 1 + Len(f) + LenAlts(alts);
    ChEndOfAlts(strip, o + 2 + Len(f), alts);
    AltsHead(strip, o + 2 + Len(f), alts);
  }

  lemma {:induction false} AltsHead(strip: Ops, o: nat, alts: Alts)
    requires LaidAlts(strip, o, alts)
    ensures o + LenAlts(alts) <= |strip| && strip[o].OOr2?
  {
    hide Laid, Len;
  }

  lemma {:induction false} LaidLast(strip: Ops, o: nat, r: Re)
    requires LaidAlts(strip, o, Last(r))
    ensures o + 2 + Len(r) <= |strip|
    ensures strip[o] == OOr2(Len(r) + 1) && Laid(strip, o + 1, r) && strip[o + 1 + Len(r)].O_Ch?
  {
    hide Len, Laid;
    LenOfLast(r);
  }

  lemma {:induction false} LaidOr(strip: Ops, o: nat, r: Re, m: Alts)
    requires LaidAlts(strip, o, Or(r, m))
    ensures o + 2 + Len(r) + LenAlts(m) <= |strip|
    ensures strip[o] == OOr2(Len(r) + 2) && Laid(strip, o + 1, r) && strip[o + 1 + Len(r)].OOr1?
    ensures strip[o + 2 + Len(r)].OOr2? && LaidAlts(strip, o + 2 + Len(r), m)
    ensures ChEnd(strip, o + 2 + Len(r)) == Some(o + 1 + Len(r) + LenAlts(m))
  {
    hide Len, LenAlts, Laid, ChEnd;
    LenOfOr(r, m);
    ChEndOfAlts(strip, o + 2 + Len(r), m);
    AltsHead(strip, o + 2 + Len(r), m);
  }

  lemma {:induction false} ChEndOfAlts(strip: Ops, o: nat, alts: Alts)
    requires LaidAlts(strip, o, alts)
    ensures ChEnd(strip, o) == Some(o + LenAlts(alts) - 1)
    decreases alts
  {
    hide Laid, Len;
    match alts
    case Last(b) =>
    case Or(b, m) => ChEndOfAlts(strip, o + 2 + Len(b), m);
  }

  lemma {:induction false} MatchIsIn(x: Subject, r: Re, a: At, b: At)
    requires Match(x, r, a, b)
    ensures In(x, a) && In(x, b)
  {
  }

  lemma {:induction false} PlusSplit(x: Subject, body: Re, n: Re, a: At, b: At) returns (m: At, k: nat)
    requires Match(x, Plus(body, n), a, b)
    ensures k > 0 && Iter(x, body, k, a, m) && Match(x, n, m, b) && Repeated(x, body, a, m)
  {
    m :| Repeated(x, body, a, m) && Match(x, n, m, b);
    assert Repeated(x, body, a, m);
    k :| k > 0 && Iter(x, body, k, a, m);
  }

  lemma {:induction false} QuestSplit(x: Subject, body: Re, n: Re, a: At, b: At) returns (m: At)
    requires Match(x, Quest(body, n), a, b)
    ensures (m == a || Match(x, body, a, m)) && Match(x, n, m, b)
  {
    m := a;
    if !Match(x, n, a, b) {
      m :| Match(x, body, a, m) && Match(x, n, m, b);
    }
  }

  lemma {:induction false} BackSplit(x: Subject, i: nat, body: Re, n: Re, a: At, b: At) returns (m: At)
    requires Match(x, Back(i, body, n), a, b)
    ensures Match(x, body, a, m) && Match(x, n, m, b)
  {
    m :| Match(x, body, a, m) && Match(x, n, m, b);
  }

  lemma {:induction false} ChoiceSplit(x: Subject, f: Re, alts: Alts, n: Re, a: At, b: At) returns (m: At)
    requires Match(x, Choice(f, alts, n), a, b)
    ensures MatchChoice(x, f, alts, a, m) && Match(x, n, m, b)
  {
    m :| (Match(x, f, a, m) || MatchAlts(x, alts, a, m)) && Match(x, n, m, b);
    assert Match(x, f, a, m) || MatchAlts(x, alts, a, m);
  }

  lemma {:induction false} IterSplit(x: Subject, r: Re, k: nat, a: At, b: At) returns (m: At)
    requires k > 0 && Iter(x, r, k, a, b)
    ensures Iter(x, r, k - 1, a, m) && Match(x, r, m, b) && (k == 1 ==> m == a)
  {
    m :| Iter(x, r, k - 1, a, m) && Match(x, r, m, b);
  }

  lemma {:induction false} MatchChoiceIsIn(x: Subject, f: Re, alts: Alts, a: At, b: At)
    requires MatchChoice(x, f, alts, a, b)
    ensures In(x, a) && In(x, b)
    decreases alts
  {
    if Match(x, f, a, b) {
      MatchIsIn(x, f, a, b);
    } else {
      match alts
      case Last(r) => MatchIsIn(x, r, a, b);
      case Or(r, m) => MatchChoiceIsIn(x, r, m, a, b);
    }
  }

  lemma {:induction false} AltsOfOr(x: Subject, r: Re, m: Alts, a: At, b: At)
    ensures MatchAlts(x, Or(r, m), a, b) <==> Match(x, r, a, b) || MatchAlts(x, m, a, b)
  {
  }

  lemma {:induction false} AltsOfLast(x: Subject, r: Re, a: At, b: At)
    ensures MatchAlts(x, Last(r), a, b) <==> Match(x, r, a, b)
  {
  }

  // ----- moving in and out of Partial -----

  lemma {:induction false} PartialIsIn(x: Subject, r: Re, k: nat, a: At, b: At)
    requires k <= Len(r) && Partial(x, r, k, a, b)
    ensures In(x, a) && In(x, b)
  {
  }

  lemma {:induction false} PartialStart(x: Subject, r: Re, a: At)
    requires In(x, a)
    ensures Partial(x, r, 0, a, a)
  {
    if r.Plus? {
      assert Iter(x, r.body, 0, a, a);
    }
  }

  lemma {:induction false} RepeatedIsStarThenMatch(x: Subject, r: Re, a: At, m: At, b: At)
    requires Star(x, r, a, m) && Match(x, r, m, b)
    ensures Repeated(x, r, a, b) && Star(x, r, a, b)
  {
    var n: nat :| Iter(x, r, n, a, m);
    assert Iter(x, r, n + 1, a, b);
  }

  lemma {:induction false} PartialEnd(x: Subject, r: Re, a: At, b: At)
    requires Partial(x, r, Len(r), a, b)
    ensures Match(x, r, a, b)
    decreases r
  {
    hide Partial, Iter, Repeated, MatchAlts;
    PartialIsIn(x, r, Len(r), a, b);
    match r
    case Eps => EpsEnd(x, a, b);
    case Leaf(atom, n) =>
      LeafNext(x, atom, n, Len(n), a, b);
      PartialEnd(x, n, Moves(x, atom, a).value, b);
    case Plus(body, n) =>
      var m := PlusBefore(x, body, n, Len(n), a, b);
      PartialEnd(x, n, m, b);
    case Quest(body, n) =>
      var m := QuestBefore(x, body, n, Len(n), a, b);
      PartialEnd(x, n, m, b);
    case Choice(f, alts, n) =>
      var m := ChoiceBefore(x, f, alts, n, Len(n), a, b);
      PartialEnd(x, n, m, b);
    case Back(i, body, n) =>
      var m := BackBefore(x, i, body, n, Len(n), a, b);
      PartialEnd(x, n, m, b);
  }

  lemma {:induction false} EpsEnd(x: Subject, a: At, b: At)
    requires Partial(x, Eps, 0, a, b)
    ensures a == b
  {
  }

  lemma {:induction false} PlusStart(x: Subject, body: Re, n: Re, a: At, b: At)
    requires In(x, a) && In(x, b)
    ensures Partial(x, Plus(body, n), 0, a, b) <==> Star(x, body, a, b)
  {
    hide Len, LenAlts;
  }

  lemma {:induction false} PlusIn(x: Subject, body: Re, n: Re, k: nat, a: At, m: At, b: At)
    requires k <= Len(body) && Star(x, body, a, m) && Partial(x, body, k, m, b) && In(x, a)
    ensures Partial(x, Plus(body, n), k + 1, a, b)
  {
    hide Len, LenAlts;
  }

  lemma {:induction false} PlusOut(x: Subject, body: Re, n: Re, k: nat, a: At, b: At) returns (m: At)
    requires k <= Len(body) && Partial(x, Plus(body, n), k + 1, a, b)
    ensures Star(x, body, a, m) && Partial(x, body, k, m, b) && In(x, a)
  {
    hide Len, LenAlts;
    m :| Star(x, body, a, m) && Partial(x, body, k, m, b);
  }

  lemma {:induction false} PlusPast(x: Subject, body: Re, n: Re, k: nat, a: At, m: At, b: At)
    requires k <= Len(n) && Repeated(x, body, a, m) && Partial(x, n, k, m, b) && In(x, a)
    ensures Partial(x, Plus(body, n), k + 2 + Len(body), a, b)
  {
    hide Match, Iter, Repeated, Len, LenAlts;
  }

  lemma {:induction false} PlusBefore(x: Subject, body: Re, n: Re, k: nat, a: At, b: At) returns (m: At)
    requires k <= Len(n) && Partial(x, Plus(body, n), k + 2 + Len(body), a, b)
    ensures Repeated(x, body, a, m) && Partial(x, n, k, m, b) && In(x, a)
  {
    hide Len, LenAlts;
    m :| Repeated(x, body, a, m) && Partial(x, n, k, m, b);
  }

  lemma {:induction false} QuestStart(x: Subject, body: Re, n: Re, a: At, b: At)
    requires In(x, a) && In(x, b)
    ensures Partial(x, Quest(body, n), 0, a, b) <==> a == b
    ensures a == b ==> Partial(x, Quest(body, n), 1 + Len(body), a, b)
  {
    hide Len, LenAlts;
  }

  lemma {:induction false} QuestIn(x: Subject, body: Re, n: Re, k: nat, a: At, b: At)
    requires k <= Len(body) && Partial(x, body, k, a, b)
    ensures Partial(x, Quest(body, n), k + 1, a, b)
  {
    hide Len, LenAlts;
    PartialIsIn(x, body, k, a, b);
  }

  lemma {:induction false} QuestOut(x: Subject, body: Re, n: Re, k: nat, a: At, b: At)
    requires k <= Len(body) && Partial(x, Quest(body, n), k + 1, a, b)
    ensures Partial(x, body, k, a, b) || (k == Len(body) && a == b)
    ensures In(x, a) && In(x, b)
  {
    hide Len, LenAlts;
  }

  lemma {:induction false} QuestPast(x: Subject, body: Re, n: Re, k: nat, a: At, m: At, b: At)
    requires k <= Len(n) && (a == m || Match(x, body, a, m)) && Partial(x, n, k, m, b) && In(x, a)
    ensures Partial(x, Quest(body, n), k + 2 + Len(body), a, b)
  {
    hide Match, MatchAlts, Iter, Repeated, Len, LenAlts;
  }

  lemma {:induction false} QuestBefore(x: Subject, body: Re, n: Re, k: nat, a: At, b: At) returns (m: At)
    requires k <= Len(n) && Partial(x, Quest(body, n), k + 2 + Len(body), a, b)
    ensures (a == m || Match(x, body, a, m)) && Partial(x, n, k, m, b) && In(x, a)
  {
    hide Len, LenAlts;
    m := a;
    if !Partial(x, n, k, a, b) {
      m :| Match(x, body, a, m) && Partial(x, n, k, m, b);
    }
  }

  lemma {:induction false} BackStart(x: Subject, i: nat, body: Re, n: Re, a: At, b: At)
    requires Partial(x, Back(i, body, n), 0, a, b)
    ensures a == b
  {
    hide Len, LenAlts;
  }

  lemma {:induction false} BackIn(x: Subject, i: nat, body: Re, n: Re, k: nat, a: At, b: At)
    requires k <= Len(body) && Partial(x, body, k, a, b)
    ensures Partial(x, Back(i, body, n), k + 1, a, b)
  {
    hide Len, LenAlts;
    PartialIsIn(x, body, k, a, b);
  }

  lemma {:induction false} BackOut(x: Subject, i: nat, body: Re, n: Re, k: nat, a: At, b: At)
    requires k <= Len(body) && Partial(x, Back(i, body, n), k + 1, a, b)
    ensures Partial(x, body, k, a, b)
  {
    hide Len, LenAlts;
  }

  lemma {:induction false} BackPast(x: Subject, i: nat, body: Re, n: Re, k: nat, a: At, m: At, b: At)
    requires k <= Len(n) && Match(x, body, a, m) && Partial(x, n, k, m, b)
    ensures Partial(x, Back(i, body, n), k + 2 + Len(body), a, b)
  {
    hide Match, Len, LenAlts;
    MatchIsIn(x, body, a, m);
    PartialIsIn(x, n, k, m, b);
  }

  lemma {:induction false} BackBefore(x: Subject, i: nat, body: Re, n: Re, k: nat, a: At, b: At) returns (m: At)
    requires k <= Len(n) && Partial(x, Back(i, body, n), k + 2 + Len(body), a, b)
    ensures Match(x, body, a, m) && Partial(x, n, k, m, b)
  {
    hide Len, LenAlts;
    m :| Match(x, body, a, m) && Partial(x, n, k, m, b);
  }

  lemma {:induction false} ChoiceStart(x: Subject, f: Re, alts: Alts, n: Re, a: At, b: At)
    requires Partial(x, Choice(f, alts, n), 0, a, b)
    ensures a == b && In(x, a) && PartialAlts(x, alts, 0, a, b)
  {
    hide Len, LenAlts;
  }

  lemma {:induction false} ChoiceIn(x: Subject, f: Re, alts: Alts, n: Re, k: nat, a: At, b: At)
    requires k <= Len(f) && Partial(x, f, k, a, b)
    ensures Partial(x, Choice(f, alts, n), k + 1, a, b)
  {
    hide Len, LenAlts;
    PartialIsIn(x, f, k, a, b);
  }

  lemma {:induction false} ChoiceOut(x: Subject, f: Re, alts: Alts, n: Re, k: nat, a: At, b: At)
    requires k <= Len(f) && Partial(x, Choice(f, alts, n), k + 1, a, b)
    ensures Partial(x, f, k, a, b)
  {
    hide Len, LenAlts;
  }

  lemma {:induction false} ChoiceInAlts(x: Subject, f: Re, alts: Alts, n: Re, k: nat, a: At, b: At)
    requires k < LenAlts(alts) - 1 && In(x, a) && In(x, b)
    ensures Partial(x, Choice(f, alts, n), k + 2 + Len(f), a, b) <==> PartialAlts(x, alts, k, a, b)
  {
    hide Len, LenAlts;
  }

  lemma {:induction false} ChoiceAtEnd(x: Subject, f: Re, alts: Alts, n: Re, a: At, b: At)
    requires In(x, a) && In(x, b)
    ensures Partial(x, Choice(f, alts, n), 1 + Len(f) + LenAlts(alts), a, b) <==> MatchChoice(x, f, alts, a, b)
  {
    hide MatchChoice, Len, LenAlts;
  }

  lemma {:induction false} ChoicePast(x: Subject, f: Re, alts: Alts, n: Re, k: nat, a: At, m: At, b: At)
    requires k <= Len(n) && MatchChoice(x, f, alts, a, m) && Partial(x, n, k, m, b)
    ensures Partial(x, Choice(f, alts, n), k + 2 + Len(f) + LenAlts(alts), a, b)
  {
    hide MatchChoice, Len, LenAlts;
    MatchChoiceIsIn(x, f, alts, a, m);
    PartialIsIn(x, n, k, m, b);
  }

  lemma {:induction false} ChoiceBefore(x: Subject, f: Re, alts: Alts, n: Re, k: nat, a: At, b: At) returns (m: At)
    requires k <= Len(n) && Partial(x, Choice(f, alts, n), k + 2 + Len(f) + LenAlts(alts), a, b)
    ensures MatchChoice(x, f, alts, a, m) && Partial(x, n, k, m, b)
  {
    hide Len, LenAlts;
    m :| MatchChoice(x, f, alts, a, m) && Partial(x, n, k, m, b);
  }

  lemma {:induction false} AltsStart(x: Subject, alts: Alts, a: At, b: At)
    requires PartialAlts(x, alts, 0, a, b)
    ensures a == b && In(x, a)
  {
  }

  lemma {:induction false} LastIn(x: Subject, r: Re, k: nat, a: At, b: At)
    requires k < Len(r)
    ensures PartialAlts(x, Last(r), k + 1, a, b) <==> Partial(x, r, k, a, b)
  {
  }

  lemma {:induction false} OrIn(x: Subject, r: Re, m: Alts, k: nat, a: At, b: At)
    requires k <= Len(r)
    ensures PartialAlts(x, Or(r, m), k + 1, a, b) <==> Partial(x, r, k, a, b)
  {
  }

  lemma {:induction false} OrPast(x: Subject, r: Re, m: Alts, k: nat, a: At, b: At)
    requires k < LenAlts(m) - 1 && In(x, a) && In(x, b)
    ensures PartialAlts(x, Or(r, m), k + 2 + Len(r), a, b) <==> PartialAlts(x, m, k, a, b)
  {
  }

  lemma {:induction false} OrStart(x: Subject, alts: Alts, a: At)
    requires In(x, a)
    ensures PartialAlts(x, alts, 0, a, a)
  {
  }

  // ----- soundness: one move keeps the meaning -----

  lemma {:induction false} PartialStep(x: Subject, strip: Ops, o: nat, r: Re, k: nat, a: At, c: Conf, d: Conf)
    requires Laid(strip, o, r) && k < Len(r) && c.s == o + k
    requires Partial(x, r, k, a, c.at) && Go(x, strip, c, d)
    ensures o <= d.s <= o + Len(r) && Partial(x, r, d.s - o, a, d.at)
    decreases r, 1
  {
    hide Laid, LaidAlts, Partial, PartialAlts, Match, MatchAlts, Iter, Repeated, Star, MatchChoice, Go;
    PartialIsIn(x, r, k, a, c.at);
    match r
    case Leaf(atom, n) => LeafStep(x, strip, o, atom, n, k, a, c, d);
    case Plus(body, n) => PlusStep(x, strip, o, body, n, k, a, c, d);
    case Quest(body, n) => QuestStep(x, strip, o, body, n, k, a, c, d);
    case Choice(f, alts, n) => ChoiceStep(x, strip, o, f, alts, n, k, a, c, d);
    case Back(i, body, n) => BackStep(x, strip, o, i, body, n, k, a, c, d);
  }

  lemma {:induction false} LeafHere(x: Subject, strip: Ops, atom: Atom, n: Re, a: At, c: Conf, d: Conf)
    requires c.s < |strip| && strip[c.s] == atom.Code()
    requires Partial(x, Leaf(atom, n), 0, a, c.at) && Go(x, strip, c, d)
    ensures d.s == c.s + 1 && a == c.at && Moves(x, atom, a) == Some(d.at) && In(x, a) && In(x, d.at)
  {
  }

  lemma {:induction false} LeafNext(x: Subject, atom: Atom, n: Re, k: nat, a: At, b: At)
    requires k <= Len(n) && In(x, a)
    ensures Partial(x, Leaf(atom, n), k + 1, a, b) <==>
      In(x, b) && Moves(x, atom, a).Some? && Partial(x, n, k, Moves(x, atom, a).value, b)
  {
  }

  lemma {:induction false} LeafStep(x: Subject, strip: Ops, o: nat, atom: Atom, n: Re, k: nat, a: At, c: Conf, d: Conf)
    requires Laid(strip, o, Leaf(atom, n)) && k < 1 + Len(n) && c.s == o + k
    requires Partial(x, Leaf(atom, n), k, a, c.at) && Go(x, strip, c, d) && In(x, a) && In(x, c.at)
    ensures o <= d.s <= o + 1 + Len(n) && Partial(x, Leaf(atom, n), d.s - o, a, d.at)
    decreases Leaf(atom, n), 0
  {
    hide Laid, LaidAlts, Partial, PartialAlts, Match, MatchAlts, Iter, Repeated, Star, MatchChoice, Go, Len, LenAlts;
    LaidLeaf(strip, o, atom, n);
    if k == 0 {
      LeafHere(x, strip, atom, n, a, c, d);
      PartialStart(x, n, d.at);
      LeafNext(x, atom, n, 0, a, d.at);
    } else {
      LeafNext(x, atom, n, k - 1, a, c.at);
      var m := Moves(x, atom, a).value;
      PartialStep(x, strip, o + 1, n, k - 1, m, c, d);
      PartialIsIn(x, n, d.s - (o + 1), m, d.at);
      LeafNext(x, atom, n, d.s - (o + 1), a, d.at);
    }
  }

  lemma {:induction false} PlusStep(x: Subject, strip: Ops, o: nat, body: Re, n: Re, k: nat, a: At, c: Conf, d: Conf)
    requires Laid(strip, o, Plus(body, n)) && k < 2 + Len(body) + Len(n) && c.s == o + k
    requires Partial(x, Plus(body, n), k, a, c.at) && Go(x, strip, c, d) && In(x, a) && In(x, c.at)
    ensures o <= d.s <= o + 2 + Len(body) + Len(n) && Partial(x, Plus(body, n), d.s - o, a, d.at)
    decreases Plus(body, n), 0
  {
    hide Laid, LaidAlts, Partial, PartialAlts, Match, MatchAlts, Iter, Repeated, Star, MatchChoice, Len, LenAlts;
    var L := Len(body);
    LaidPlus(strip, o, body, n);
    if k == 0 {
      PlusStart(x, body, n, a, c.at);
      PartialStart(x, body, c.at);
      PlusIn(x, body, n, 0, a, c.at, c.at);
    } else if k <= L {
      var m := PlusOut(x, body, n, k - 1, a, c.at);
      PartialStep(x, strip, o + 1, body, k - 1, m, c, d);
      PlusIn(x, body, n, d.s - (o + 1), a, m, d.at);
    } else if k == 1 + L {
      var m := PlusOut(x, body, n, L, a, c.at);
      PartialEnd(x, body, m, c.at);
      RepeatedIsStarThenMatch(x, body, a, m, c.at);
      PartialStart(x, n, c.at);
      PlusPast(x, body, n, 0, a, c.at, c.at);
      PlusStart(x, body, n, a, c.at);
    } else {
      var m := PlusBefore(x, body, n, k - 2 - L, a, c.at);
      PartialStep(x, strip, o + 2 + L, n, k - 2 - L, m, c, d);
      PlusPast(x, body, n, d.s - (o + 2 + L), a, m, d.at);
    }
  }

  lemma {:induction false} QuestStep(x: Subject, strip: Ops, o: nat, body: Re, n: Re, k: nat, a: At, c: Conf, d: Conf)
    requires Laid(strip, o, Quest(body, n)) && k < 2 + Len(body) + Len(n) && c.s == o + k
    requires Partial(x, Quest(body, n), k, a, c.at) && Go(x, strip, c, d) && In(x, a) && In(x, c.at)
    ensures o <= d.s <= o + 2 + Len(body) + Len(n) && Partial(x, Quest(body, n), d.s - o, a, d.at)
    decreases Quest(body, n), 0
  {
    hide Laid, LaidAlts, Partial, PartialAlts, Match, MatchAlts, Iter, Repeated, Star, MatchChoice, Len, LenAlts;
    var L := Len(body);
    LaidQuest(strip, o, body, n);
    if k == 0 {
      QuestStart(x, body, n, a, c.at);
      PartialStart(x, body, a);
      QuestIn(x, body, n, 0, a, a);
    } else if k <= L {
      QuestOut(x, body, n, k - 1, a, c.at);
      PartialStep(x, strip, o + 1, body, k - 1, a, c, d);
      QuestIn(x, body, n, d.s - (o + 1), a, d.at);
    } else if k == 1 + L {
      QuestOut(x, body, n, L, a, c.at);
      if a != c.at {
        PartialEnd(x, body, a, c.at);
      }
      PartialStart(x, n, c.at);
      QuestPast(x, body, n, 0, a, c.at, c.at);
    } else {
      var m := QuestBefore(x, body, n, k - 2 - L, a, c.at);
      PartialStep(x, strip, o + 2 + L, n, k - 2 - L, m, c, d);
      QuestPast(x, body, n, d.s - (o + 2 + L), a, m, d.at);
    }
  }

  lemma {:induction false} BackStep(x: Subject, strip: Ops, o: nat, i: nat, body: Re, n: Re, k: nat, a: At, c: Conf,
        d: Conf)
    requires Laid(strip, o, Back(i, body, n)) && k < 2 + Len(body) + Len(n) && c.s == o + k
    requires Partial(x, Back(i, body, n), k, a, c.at) && Go(x, strip, c, d) && In(x, a) && In(x, c.at)
    ensures o <= d.s <= o + 2 + Len(body) + Len(n) && Partial(x, Back(i, body, n), d.s - o, a, d.at)
    decreases Back(i, body, n), 0
  {
    hide Laid, LaidAlts, Partial, PartialAlts, Match, MatchAlts, Iter, Repeated, Star, MatchChoice, Len, LenAlts;
    var L := Len(body);
    LaidBack(strip, o, i, body, n);
    if k == 0 {
      BackStart(x, i, body, n, a, c.at);
      PartialStart(x, body, a);
      BackIn(x, i, body, n, 0, a, a);
    } else if k <= L {
      BackOut(x, i, body, n, k - 1, a, c.at);
      PartialStep(x, strip, o + 1, body, k - 1, a, c, d);
      BackIn(x, i, body, n, d.s - (o + 1), a, d.at);
    } else if k == 1 + L {
      BackOut(x, i, body, n, L, a, c.at);
      PartialEnd(x, body, a, c.at);
      PartialStart(x, n, c.at);
      BackPast(x, i, body, n, 0, a, c.at, c.at);
    } else {
      var m := BackBefore(x, i, body, n, k - 2 - L, a, c.at);
      PartialStep(x, strip, o + 2 + L, n, k - 2 - L, m, c, d);
      BackPast(x, i, body, n, d.s - (o + 2 + L), a, m, d.at);
    }
  }

  lemma {:induction false} ChoiceStep(x: Subject, strip: Ops, o: nat, f: Re, alts: Alts, n: Re, k: nat, a: At,
        c: Conf, d: Conf)
    requires Laid(strip, o, Choice(f, alts, n)) && k < 2 + Len(f) + LenAlts(alts) + Len(n) && c.s == o + k
    requires Partial(x, Choice(f, alts, n), k, a, c.at) && Go(x, strip, c, d) && In(x, a) && In(x, c.at)
    ensures o <= d.s <= o + 2 + Len(f) + LenAlts(alts) + Len(n) && Partial(x, Choice(f, alts, n), d.s - o, a, d.at)
    decreases Choice(f, alts, n), 0
  {
    hide Laid, LaidAlts, Partial, PartialAlts, Match, MatchAlts, MatchChoice, Go, Len, LenAlts;
    var L, R := Len(f), LenAlts(alts);
    var e := LaidChoice(strip, o, f, alts, n);
    if k == 0 || k == 1 + L || k == 1 + L + R {
      ChoiceOwn(x, strip, o, f, alts, n, k, a, c, d);
    } else if k <= L {
      ChoiceOut(x, f, alts, n, k - 1, a, c.at);
      PartialStep(x, strip, o + 1, f, k - 1, a, c, d);
      ChoiceIn(x, f, alts, n, d.s - (o + 1), a, d.at);
    } else if k < 1 + L + R {
      ChoiceInAlts(x, f, alts, n, k - 2 - L, a, c.at);
      AltsStep(x, strip, o + 2 + L, alts, k - 2 - L, a, c, d);
      if d.s == e {
        LaterMatches(x, f, alts, a, d.at);
        ChoiceAtEnd(x, f, alts, n, a, d.at);
      } else {
        ChoiceInAlts(x, f, alts, n, d.s - (o + 2 + L), a, d.at);
      }
    } else {
      var m := ChoiceBefore(x, f, alts, n, k - 2 - L - R, a, c.at);
      PartialStep(x, strip, e + 1, n, k - 2 - L - R, m, c, d);
      ChoicePast(x, f, alts, n, d.s - (e + 1), a, m, d.at);
    }
  }

  /** The operators of the choice itself: OCH_, the first OOR1, O_CH. */
  lemma {:induction false} ChoiceOwn(x: Subject, strip: Ops, o: nat, f: Re, alts: Alts, n: Re, k: nat, a: At, c: Conf,
        d: Conf)
    requires Laid(strip, o, Choice(f, alts, n)) && c.s == o + k
    requires k == 0 || k == 1 + Len(f) || k == 1 + Len(f) + LenAlts(alts)
    requires Partial(x, Choice(f, alts, n), k, a, c.at) && Go(x, strip, c, d) && In(x, a) && In(x, c.at)
    ensures o <= d.s <= o + 2 + Len(f) + LenAlts(alts) + Len(n) && Partial(x, Choice(f, alts, n), d.s - o, a, d.at)
  {
    hide Laid, LaidAlts, Partial, PartialAlts, Match, MatchAlts, MatchChoice, Len, LenAlts;
    var e := LaidChoice(strip, o, f, alts, n);
    if k == 0 {
      ChoiceStart(x, f, alts, n, a, c.at);
      PartialStart(x, f, a);
      ChoiceIn(x, f, alts, n, 0, a, a);
      ChoiceInAlts(x, f, alts, n, 0, a, a);
    } else if k == 1 + Len(f) {
      ChoiceOut(x, f, alts, n, Len(f), a, c.at);
      PartialEnd(x, f, a, c.at);
      FirstMatches(x, f, alts, a, c.at);
      ChoiceAtEnd(x, f, alts, n, a, c.at);
    } else {
      ChoiceAtEnd(x, f, alts, n, a, c.at);
      PartialStart(x, n, c.at);
      ChoicePast(x, f, alts, n, 0, a, c.at, c.at);
    }
  }

  lemma {:induction false} FirstMatches(x: Subject, f: Re, alts: Alts, a: At, b: At)
    requires Match(x, f, a, b)
    ensures MatchChoice(x, f, alts, a, b)
  {
    hide Match;
  }

  lemma {:induction false} LaterMatches(x: Subject, f: Re, alts: Alts, a: At, b: At)
    requires MatchAlts(x, alts, a, b)
    ensures MatchChoice(x, f, alts, a, b)
  {
    hide MatchAlts;
  }

  lemma {:induction false} AltsStep(x: Subject, strip: Ops, o: nat, alts: Alts, k: nat, a: At, c: Conf, d: Conf)
    requires LaidAlts(strip, o, alts) && k < LenAlts(alts) - 1 && c.s == o + k && In(x, a)
    requires PartialAlts(x, alts, k, a, c.at) && Go(x, strip, c, d)
    ensures o <= d.s < o + LenAlts(alts) && In(x, d.at)
    ensures d.s - o == LenAlts(alts) - 1 ==> MatchAlts(x, alts, a, d.at)
    ensures d.s - o < LenAlts(alts) - 1 ==> PartialAlts(x, alts, d.s - o, a, d.at)
    decreases alts, 0
  {
    hide Laid, LaidAlts, Partial, PartialAlts, Match, MatchAlts, Iter, Repeated, Star, MatchChoice, Go;
    match alts
    case Last(r) => LastStep(x, strip, o, r, k, a, c, d);
    case Or(r, m) =>
      if k <= 1 + Len(r) {
        OrStep(x, strip, o, r, m, k, a, c, d);
      } else {
        LaidOr(strip, o, r, m);
        GoIsIn(x, strip, c, d);
        OrPast(x, r, m, k - 2 - Len(r), a, c.at);
        AltsStep(x, strip, o + 2 + Len(r), m, k - 2 - Len(r), a, c, d);
        AltsOfOr(x, r, m, a, d.at);
        if d.s - (o + 2 + Len(r)) < LenAlts(m) - 1 {
          OrPast(x, r, m, d.s - (o + 2 + Len(r)), a, d.at);
        }
      }
  }

  lemma {:induction false} GoIsIn(x: Subject, strip: Ops, c: Conf, d: Conf)
    requires c.s < |strip| && Go(x, strip, c, d)
    ensures In(x, c.at) && In(x, d.at)
  {
  }

  lemma {:induction false} LastStep(x: Subject, strip: Ops, o: nat, r: Re, k: nat, a: At, c: Conf, d: Conf)
    requires LaidAlts(strip, o, Last(r)) && k < 1 + Len(r) && c.s == o + k && In(x, a)
    requires PartialAlts(x, Last(r), k, a, c.at) && Go(x, strip, c, d)
    ensures o <= d.s < o + 2 + Len(r) && In(x, d.at)
    ensures d.s - o == 1 + Len(r) ==> MatchAlts(x, Last(r), a, d.at)
    ensures d.s - o < 1 + Len(r) ==> PartialAlts(x, Last(r), d.s - o, a, d.at)
    decreases r, 2
  {
    hide Laid, LaidAlts, Partial, PartialAlts, Match, MatchAlts, Iter, Repeated, Star, MatchChoice, Len, LenAlts;
    LaidLast(strip, o, r);
    if k == 0 {
      AltsStart(x, Last(r), a, c.at);
      PartialStart(x, r, a);
    } else {
      LastIn(x, r, k - 1, a, c.at);
      PartialStep(x, strip, o + 1, r, k - 1, a, c, d);
    }
    PartialIsIn(x, r, d.s - (o + 1), a, d.at);
    if d.s == o + 1 + Len(r) {
      PartialEnd(x, r, a, d.at);
      AltsOfLast(x, r, a, d.at);
    } else {
      LastIn(x, r, d.s - (o + 1), a, d.at);
    }
  }

  lemma {:induction false} OrStep(x: Subject, strip: Ops, o: nat, r: Re, m: Alts, k: nat, a: At, c: Conf, d: Conf)
    requires LaidAlts(strip, o, Or(r, m)) && k <= 1 + Len(r) && c.s == o + k && In(x, a)
    requires PartialAlts(x, Or(r, m), k, a, c.at) && Go(x, strip, c, d)
    ensures o <= d.s < o + 2 + Len(r) + LenAlts(m) && In(x, d.at)
    ensures d.s - o == 1 + Len(r) + LenAlts(m) ==> MatchAlts(x, Or(r, m), a, d.at)
    ensures d.s - o < 1 + Len(r) + LenAlts(m) ==> PartialAlts(x, Or(r, m), d.s - o, a, d.at)
    decreases r, 2
  {
    hide Laid, LaidAlts, Partial, PartialAlts, Match, MatchAlts, Iter, Repeated, Star, MatchChoice, Len, LenAlts;
    LaidOr(strip, o, r, m);
    if k == 0 {
      AltsStart(x, Or(r, m), a, c.at);
      PartialStart(x, r, a);
      OrIn(x, r, m, 0, a, a);
      OrStart(x, m, a);
      OrPast(x, r, m, 0, a, a);
    } else if k <= Len(r) {
      OrIn(x, r, m, k - 1, a, c.at);
      PartialStep(x, strip, o + 1, r, k - 1, a, c, d);
      PartialIsIn(x, r, d.s - (o + 1), a, d.at);
      OrIn(x, r, m, d.s - (o + 1), a, d.at);
    } else {
      OrIn(x, r, m, Len(r), a, c.at);
      PartialEnd(x, r, a, c.at);
      AltsOfOr(x, r, m, a, c.at);
    }
  }

  // ----- completeness: a match drives the strip from its first state to its last -----

  lemma {:induction false} Follow(x: Subject, strip: Ops, lo: nat, hi: nat, X: iset<Conf>, s: nat, t: nat, a: At)
    requires lo <= s < hi <= |strip| && Closed(x, strip, lo, hi, X) && Conf(s, a) in X
    requires In(x, a) && EpsEdge(strip, s, t)
    ensures Conf(t, a) in X
  {
    hide EpsEdge;
    assert Edge(x, strip, lo, hi, Conf(s, a), Conf(t, a));
  }

  lemma {:induction false} Drive(x: Subject, strip: Ops, lo: nat, hi: nat, X: iset<Conf>, o: nat, r: Re, a: At, b: At)
    requires lo <= o && o + Len(r) <= hi <= |strip| && Laid(strip, o, r)
    requires Closed(x, strip, lo, hi, X) && Conf(o, a) in X && Match(x, r, a, b)
    ensures Conf(o + Len(r), b) in X
    decreases r, 1
  {
    hide Laid, Closed, Iter;
    match r
    case Eps =>
    case Leaf(atom, n) => DriveLeaf(x, strip, lo, hi, X, o, atom, n, a, b);
    case Plus(body, n) => DrivePlus(x, strip, lo, hi, X, o, body, n, a, b);
    case Quest(body, n) => DriveQuest(x, strip, lo, hi, X, o, body, n, a, b);
    case Choice(f, alts, n) => DriveChoice(x, strip, lo, hi, X, o, f, alts, n, a, b);
    case Back(i, body, n) => DriveBack(x, strip, lo, hi, X, o, i, body, n, a, b);
  }

  lemma {:induction false} LeafEdge(x: Subject, strip: Ops, lo: nat, hi: nat, o: nat, atom: Atom, a: At)
    requires lo <= o < hi <= |strip| && strip[o] == atom.Code() && In(x, a) && Moves(x, atom, a).Some?
    ensures Edge(x, strip, lo, hi, Conf(o, a), Conf(o + 1, Moves(x, atom, a).value))
  {
  }

  lemma {:induction false} LeafSplit(x: Subject, atom: Atom, n: Re, a: At, b: At)
    requires Match(x, Leaf(atom, n), a, b)
    ensures In(x, a) && Moves(x, atom, a).Some? && Match(x, n, Moves(x, atom, a).value, b)
  {
  }

  lemma {:induction false} DriveLeaf(x: Subject, strip: Ops, lo: nat, hi: nat, X: iset<Conf>, o: nat, atom: Atom,
        n: Re, a: At, b: At)
    requires lo <= o && o + 1 + Len(n) <= hi <= |strip| && Laid(strip, o, Leaf(atom, n))
    requires Closed(x, strip, lo, hi, X) && Conf(o, a) in X && Match(x, Leaf(atom, n), a, b)
    ensures Conf(o + 1 + Len(n), b) in X
    decreases Leaf(atom, n), 0
  {
    hide Laid, Match, Edge, Len, LenAlts;
    LaidLeaf(strip, o, atom, n);
    LeafSplit(x, atom, n, a, b);
    LeafEdge(x, strip, lo, hi, o, atom, a);
    Drive(x, strip, lo, hi, X, o + 1, n, Moves(x, atom, a).value, b);
  }

  lemma {:induction false} DrivePlus(x: Subject, strip: Ops, lo: nat, hi: nat, X: iset<Conf>, o: nat, body: Re, n: Re,
        a: At, b: At)
    requires lo <= o && o + 2 + Len(body) + Len(n) <= hi <= |strip| && Laid(strip, o, Plus(body, n))
    requires Closed(x, strip, lo, hi, X) && Conf(o, a) in X && Match(x, Plus(body, n), a, b)
    ensures Conf(o + 2 + Len(body) + Len(n), b) in X
    decreases Plus(body, n), 0
  {
    hide Laid, Match, Iter, Repeated, Closed, Len, LenAlts;
    var e := o + 1 + Len(body);
    LaidPlus(strip, o, body, n);
    var m, k := PlusSplit(x, body, n, a, b);
    DriveIter(x, strip, lo, hi, X, o, body, k, a, m);
    MatchIsIn(x, n, m, b);
    Follow(x, strip, lo, hi, X, e, e + 1, m);
    Drive(x, strip, lo, hi, X, e + 1, n, m, b);
  }

  lemma {:induction false} DriveIter(x: Subject, strip: Ops, lo: nat, hi: nat, X: iset<Conf>, o: nat, body: Re,
        k: nat, a: At, b: At)
    requires lo <= o && o + 2 + Len(body) <= hi <= |strip|
    requires strip[o].OPlus_? && strip[o + 1 + Len(body)] == O_Plus(Len(body) + 1) && Laid(strip, o + 1, body)
    requires Closed(x, strip, lo, hi, X) && Conf(o, a) in X && k > 0 && Iter(x, body, k, a, b)
    ensures Conf(o + 1 + Len(body), b) in X
    decreases body, 2, k
  {
    hide Laid, Match, Iter, Closed, Len, LenAlts;
    var m := IterSplit(x, body, k, a, b);
    MatchIsIn(x, body, m, b);
    if k > 1 {
      DriveIter(x, strip, lo, hi, X, o, body, k - 1, a, m);
      Follow(x, strip, lo, hi, X, o + 1 + Len(body), o, m);
    }
    Follow(x, strip, lo, hi, X, o, o + 1, m);
    Drive(x, strip, lo, hi, X, o + 1, body, m, b);
  }

  lemma {:induction false} DriveQuest(x: Subject, strip: Ops, lo: nat, hi: nat, X: iset<Conf>, o: nat, body: Re,
        n: Re, a: At, b: At)
    requires lo <= o && o + 2 + Len(body) + Len(n) <= hi <= |strip| && Laid(strip, o, Quest(body, n))
    requires Closed(x, strip, lo, hi, X) && Conf(o, a) in X && Match(x, Quest(body, n), a, b)
    ensures Conf(o + 2 + Len(body) + Len(n), b) in X
    decreases Quest(body, n), 0
  {
    hide Laid, Match, Closed, Len, LenAlts;
    var e := o + 1 + Len(body);
    LaidQuest(strip, o, body, n);
    MatchIsIn(x, Quest(body, n), a, b);
    var m := QuestSplit(x, body, n, a, b);
    if m == a {
      Follow(x, strip, lo, hi, X, o, e, a);
    } else {
      Follow(x, strip, lo, hi, X, o, o + 1, a);
      Drive(x, strip, lo, hi, X, o + 1, body, a, m);
    }
    MatchIsIn(x, n, m, b);
    Follow(x, strip, lo, hi, X, e, e + 1, m);
    Drive(x, strip, lo, hi, X, e + 1, n, m, b);
  }

  lemma {:induction false} DriveBack(x: Subject, strip: Ops, lo: nat, hi: nat, X: iset<Conf>, o: nat, i: nat,
        body: Re, n: Re, a: At, b: At)
    requires lo <= o && o + 2 + Len(body) + Len(n) <= hi <= |strip| && Laid(strip, o, Back(i, body, n))
    requires Closed(x, strip, lo, hi, X) && Conf(o, a) in X && Match(x, Back(i, body, n), a, b)
    ensures Conf(o + 2 + Len(body) + Len(n), b) in X
    decreases Back(i, body, n), 0
  {
    hide Laid, Match, Closed, Len, LenAlts;
    var e := o + 1 + Len(body);
    LaidBack(strip, o, i, body, n);
    MatchIsIn(x, Back(i, body, n), a, b);
    var m := BackSplit(x, i, body, n, a, b);
    Follow(x, strip, lo, hi, X, o, o + 1, a);
    Drive(x, strip, lo, hi, X, o + 1, body, a, m);
    MatchIsIn(x, n, m, b);
    Follow(x, strip, lo, hi, X, e, e + 1, m);
    Drive(x, strip, lo, hi, X, e + 1, n, m, b);
  }

  lemma {:induction false} DriveChoice(x: Subject, strip: Ops, lo: nat, hi: nat, X: iset<Conf>, o: nat, f: Re,
        alts: Alts, n: Re, a: At, b: At)
    requires lo <= o && o + 2 + Len(f) + LenAlts(alts) + Len(n) <= hi <= |strip| && Laid(strip, o, Choice(f, alts, n))
    requires Closed(x, strip, lo, hi, X) && Conf(o, a) in X && Match(x, Choice(f, alts, n), a, b)
    ensures Conf(o + 2 + Len(f) + LenAlts(alts) + Len(n), b) in X
    decreases Choice(f, alts, n), 0
  {
    hide Laid, LaidAlts, Match, MatchAlts, Closed, Len, LenAlts;
    MatchIsIn(x, Choice(f, alts, n), a, b);
    var m := ChoiceSplit(x, f, alts, n, a, b);
    var c := LaidChoice(strip, o, f, alts, n);
    if Match(x, f, a, m) {
      Follow(x, strip, lo, hi, X, o, o + 1, a);
      DriveBranch(x, strip, lo, hi, X, o + 1, f, c, a, m);
    } else {
      Follow(x, strip, lo, hi, X, o, o + 2 + Len(f), a);
      DriveAlts(x, strip, lo, hi, X, o + 2 + Len(f), alts, a, m);
    }
    MatchIsIn(x, n, m, b);
    Follow(x, strip, lo, hi, X, c, c + 1, m);
    Drive(x, strip, lo, hi, X, c + 1, n, m, b);
  }

  /** A branch that is followed by an OOR1. */
  lemma {:induction false} DriveBranch(x: Subject, strip: Ops, lo: nat, hi: nat, X: iset<Conf>, o: nat, f: Re, c: nat,
        a: At, m: At)
    requires lo <= o && o + 1 + Len(f) <= hi <= |strip|
    requires Laid(strip, o, f) && EpsEdge(strip, o + Len(f), c)
    requires Closed(x, strip, lo, hi, X) && Conf(o, a) in X && Match(x, f, a, m)
    ensures Conf(c, m) in X
    decreases f, 2
  {
    hide Laid, Match, Closed, EpsEdge, Len, LenAlts;
    MatchIsIn(x, f, a, m);
    Drive(x, strip, lo, hi, X, o, f, a, m);
    Follow(x, strip, lo, hi, X, o + Len(f), c, m);
  }

  lemma {:induction false} DriveAlts(x: Subject, strip: Ops, lo: nat, hi: nat, X: iset<Conf>, o: nat, alts: Alts,
        a: At, b: At)
    requires lo <= o && o + LenAlts(alts) <= hi <= |strip| && LaidAlts(strip, o, alts)
    requires Closed(x, strip, lo, hi, X) && Conf(o, a) in X && In(x, a) && MatchAlts(x, alts, a, b)
    ensures Conf(o + LenAlts(alts) - 1, b) in X
    decreases alts, 1
  {
    hide Laid, LaidAlts, Match, MatchAlts, Closed;
    match alts
    case Last(r) =>
      LaidLast(strip, o, r);
      AltsOfLast(x, r, a, b);
      Follow(x, strip, lo, hi, X, o, o + 1, a);
      Drive(x, strip, lo, hi, X, o + 1, r, a, b);
    case Or(r, m) => DriveOr(x, strip, lo, hi, X, o, r, m, a, b);
  }

  lemma {:induction false} DriveOr(x: Subject, strip: Ops, lo: nat, hi: nat, X: iset<Conf>, o: nat, r: Re, m: Alts,
        a: At, b: At)
    requires lo <= o && o + 2 + Len(r) + LenAlts(m) <= hi <= |strip| && LaidAlts(strip, o, Or(r, m))
    requires Closed(x, strip, lo, hi, X) && Conf(o, a) in X && In(x, a) && MatchAlts(x, Or(r, m), a, b)
    ensures Conf(o + 1 + Len(r) + LenAlts(m), b) in X
    decreases Or(r, m), 0
  {
    hide Laid, LaidAlts, Match, MatchAlts, Closed, Len, LenAlts;
    var e := o + 1 + Len(r);
    LaidOr(strip, o, r, m);
    AltsOfOr(x, r, m, a, b);
    if Match(x, r, a, b) {
      Follow(x, strip, lo, hi, X, o, o + 1, a);
      DriveBranch(x, strip, lo, hi, X, o + 1, r, e + LenAlts(m), a, b);
    } else {
      Follow(x, strip, lo, hi, X, o, e + 1, a);
      DriveAlts(x, strip, lo, hi, X, e + 1, m, a, b);
    }
  }

  // ----- the theorem -----

  lemma {:induction false} LaidFits(strip: Ops, o: nat, r: Re)
    requires Laid(strip, o, r)
    ensures o + Len(r) <= |strip|
  {
  }

  lemma {:induction false} EdgeIsGo(x: Subject, strip: Ops, lo: nat, hi: nat, c: Conf, d: Conf)
    requires lo <= hi <= |strip| && Edge(x, strip, lo, hi, c, d)
    ensures lo <= c.s < hi && Go(x, strip, c, d)
  {
  }

  lemma {:induction false} PathsAreMatchesAt(x: Subject, strip: Ops, o: nat, r: Re, i: nat, b: At)
    requires Laid(strip, o, r) && In(x, At(i, false))
    ensures o + Len(r) <= |strip|
    ensures Reach(x, strip, o, o + Len(r), i, i, Conf(o + Len(r), b)) <==> Match(x, r, At(i, false), b)
  {
    hide Laid, Len, Match, Reach;
    LaidFits(strip, o, r);
    if Match(x, r, At(i, false), b) {
      MatchIsReached(x, strip, o, r, i, b);
    }
    if Reach(x, strip, o, o + Len(r), i, i, Conf(o + Len(r), b)) {
      ReachedIsMatch(x, strip, o, r, i, b);
    }
  }

  lemma {:induction false} MatchIsReached(x: Subject, strip: Ops, o: nat, r: Re, i: nat, b: At)
    requires Laid(strip, o, r) && o + Len(r) <= |strip| && Match(x, r, At(i, false), b)
    ensures Reach(x, strip, o, o + Len(r), i, i, Conf(o + Len(r), b))
  {
    hide Laid, Match, Edge, Len;
    forall X: iset<Conf> | Closed(x, strip, o, o + Len(r), X) && Starts(o, i, i, X)
      ensures Conf(o + Len(r), b) in X
    {
      Drive(x, strip, o, o + Len(r), X, o, r, At(i, false), b);
    }
  }

  lemma {:induction false} ReachedIsMatch(x: Subject, strip: Ops, o: nat, r: Re, i: nat, b: At)
    requires Laid(strip, o, r) && o + Len(r) <= |strip| && In(x, At(i, false))
    requires Reach(x, strip, o, o + Len(r), i, i, Conf(o + Len(r), b))
    ensures Match(x, r, At(i, false), b)
  {
    hide Laid, Match, Partial, Edge, Len;
    var hi, a := o + Len(r), At(i, false);
    var X := iset c: Conf | o <= c.s <= hi && Partial(x, r, c.s - o, a, c.at);
    forall c, d | c in X && Edge(x, strip, o, hi, c, d)
      ensures d in X
    {
      EdgeIsGo(x, strip, o, hi, c, d);
      PartialStep(x, strip, o, r, c.s - o, a, c, d);
    }
    PartialStart(x, r, a);
    assert Closed(x, strip, o, hi, X) && Starts(o, i, i, X);
    PartialEnd(x, r, a, b);
  }

  /** Paths through the strip of an expression from its first to its last state spell exactly the
      texts the expression matches, where they stand. */
  lemma {:induction false} PathsAreMatches(x: Subject, strip: Ops, o: nat, r: Re, i: nat, j: nat)
    requires Laid(strip, o, r) && In(x, At(i, false))
    ensures Path(x, strip, o, o + Len(r), i, j) <==> Spans(x, r, i, j)
  {
    hide Laid, Len, Match, Reach;
    PathsAreMatchesAt(x, strip, o, r, i, At(j, false));
    PathsAreMatchesAt(x, strip, o, r, i, At(j, true));
  }

  // ----- layouts are well-formed ranges -----

  ghost predicate SopsOk(strip: Ops, lo: nat, o: nat, e: nat) {
    lo <= o <= e <= |strip|
    && forall s :: o <= s < e ==> SopOk(strip, lo, |strip|, s) && !strip[s].OEnd? && OptionalOk(strip, s)
  }

  lemma {:induction false} JoinSops(strip: Ops, lo: nat, o: nat, m: nat, e: nat)
    requires SopsOk(strip, lo, o, m) && SopsOk(strip, lo, m, e)
    ensures SopsOk(strip, lo, o, e)
  {
  }

  /** opener, body, closer, and the rest. */
  lemma {:induction false} BracketSops(strip: Ops, lo: nat, o: nat, m: nat, e: nat)
    requires o < m && SopsOk(strip, lo, o, o + 1) && SopsOk(strip, lo, o + 1, m)
    requires SopsOk(strip, lo, m, m + 1) && SopsOk(strip, lo, m + 1, e)
    ensures SopsOk(strip, lo, o, e)
  {
    hide SopsOk;
    JoinSops(strip, lo, o, o + 1, m);
    JoinSops(strip, lo, o, m, m + 1);
    JoinSops(strip, lo, o, m + 1, e);
  }

  lemma {:induction false} OneSop(strip: Ops, lo: nat, o: nat)
    requires lo <= o < |strip| && SopOk(strip, lo, |strip|, o) && !strip[o].OEnd? && OptionalOk(strip, o)
    ensures SopsOk(strip, lo, o, o + 1)
  {
  }

  lemma {:induction false} LaidSops(strip: Ops, lo: nat, o: nat, r: Re)
    requires lo <= o && Laid(strip, o, r)
    ensures SopsOk(strip, lo, o, o + Len(r))
    decreases r, 1
  {
    hide Laid, LaidAlts, ChEnd, SopsOk, SopOk;
    LaidFits(strip, o, r);
    match r
    case Eps => NoSops(strip, lo, o);
    case Leaf(atom, n) => LeafSops(strip, lo, o, atom, n);
    case Plus(body, n) => PlusSops(strip, lo, o, body, n);
    case Quest(body, n) => QuestSops(strip, lo, o, body, n);
    case Choice(f, alts, n) => ChoiceSops(strip, lo, o, f, alts, n);
    case Back(i, body, n) => BackSops(strip, lo, o, i, body, n);
  }

  lemma {:induction false} NoSops(strip: Ops, lo: nat, o: nat)
    requires lo <= o <= |strip|
    ensures SopsOk(strip, lo, o, o)
  {
  }

  lemma {:induction false} LeafSops(strip: Ops, lo: nat, o: nat, atom: Atom, n: Re)
    requires lo <= o && Laid(strip, o, Leaf(atom, n))
    ensures SopsOk(strip, lo, o, o + 1 + Len(n))
    decreases Leaf(atom, n), 0
  {
    hide Laid, Len, SopsOk;
    LaidLeaf(strip, o, atom, n);
    OneSop(strip, lo, o);
    LaidSops(strip, lo, o + 1, n);
    JoinSops(strip, lo, o, o + 1, o + 1 + Len(n));
  }

  lemma {:induction false} PlusSops(strip: Ops, lo: nat, o: nat, body: Re, n: Re)
    requires lo <= o && Laid(strip, o, Plus(body, n))
    ensures SopsOk(strip, lo, o, o + 2 + Len(body) + Len(n))
    decreases Plus(body, n), 0
  {
    hide Laid, Len, SopsOk;
    LaidPlus(strip, o, body, n);
    OneSop(strip, lo, o);
    OneSop(strip, lo, o + 1 + Len(body));
    LaidSops(strip, lo, o + 1, body);
    LaidSops(strip, lo, o + 2 + Len(body), n);
    BracketSops(strip, lo, o, o + 1 + Len(body), o + 2 + Len(body) + Len(n));
  }

  lemma {:induction false} QuestSops(strip: Ops, lo: nat, o: nat, body: Re, n: Re)
    requires lo <= o && Laid(strip, o, Quest(body, n))
    ensures SopsOk(strip, lo, o, o + 2 + Len(body) + Len(n))
    decreases Quest(body, n), 0
  {
    hide Laid, Len, SopsOk;
    LaidQuest(strip, o, body, n);
    OneSop(strip, lo, o);
    OneSop(strip, lo, o + 1 + Len(body));
    LaidSops(strip, lo, o + 1, body);
    LaidSops(strip, lo, o + 2 + Len(body), n);
    BracketSops(strip, lo, o, o + 1 + Len(body), o + 2 + Len(body) + Len(n));
  }

  lemma {:induction false} BackSops(strip: Ops, lo: nat, o: nat, i: nat, body: Re, n: Re)
    requires lo <= o && Laid(strip, o, Back(i, body, n))
    ensures SopsOk(strip, lo, o, o + 2 + Len(body) + Len(n))
    decreases Back(i, body, n), 0
  {
    hide Laid, Len, SopsOk;
    LaidBack(strip, o, i, body, n);
    OneSop(strip, lo, o);
    OneSop(strip, lo, o + 1 + Len(body));
    LaidSops(strip, lo, o + 1, body);
    LaidSops(strip, lo, o + 2 + Len(body), n);
    BracketSops(strip, lo, o, o + 1 + Len(body), o + 2 + Len(body) + Len(n));
  }

  lemma {:induction false} ChoiceSops(strip: Ops, lo: nat, o: nat, f: Re, alts: Alts, n: Re)
    requires lo <= o && Laid(strip, o, Choice(f, alts, n))
    ensures SopsOk(strip, lo, o, o + 2 + Len(f) + LenAlts(alts) + Len(n))
    decreases Choice(f, alts, n), 0
  {
    hide Laid, LaidAlts, Len, LenAlts, SopsOk;
    var c := LaidChoice(strip, o, f, alts, n);
    OneSop(strip, lo, o);
    OneSop(strip, lo, o + 1 + Len(f));
    LaidSops(strip, lo, o + 1, f);
    LaidAltsSops(strip, lo, o + 2 + Len(f), alts);
    LaidSops(strip, lo, c + 1, n);
    JoinSops(strip, lo, o + 2 + Len(f), c + 1, c + 1 + Len(n));
    BracketSops(strip, lo, o, o + 1 + Len(f), c + 1 + Len(n));
  }

  lemma {:induction false} LaidAltsSops(strip: Ops, lo: nat, o: nat, alts: Alts)
    requires lo <= o && LaidAlts(strip, o, alts)
    ensures SopsOk(strip, lo, o, o + LenAlts(alts))
    decreases alts, 1
  {
    hide Laid, LaidAlts, SopsOk, ChEnd, SopOk;
    match alts
    case Last(b) => LastSops(strip, lo, o, b);
    case Or(b, m) => OrSops(strip, lo, o, b, m);
  }

  lemma {:induction false} LastSops(strip: Ops, lo: nat, o: nat, b: Re)
    requires lo <= o && LaidAlts(strip, o, Last(b))
    ensures SopsOk(strip, lo, o, o + 2 + Len(b))
    decreases Last(b), 0
  {
    hide Laid, LaidAlts, SopsOk, Len;
    LaidLast(strip, o, b);
    OneSop(strip, lo, o);
    OneSop(strip, lo, o + 1 + Len(b));
    LaidSops(strip, lo, o + 1, b);
    NoSops(strip, lo, o + 2 + Len(b));
    BracketSops(strip, lo, o, o + 1 + Len(b), o + 2 + Len(b));
  }

  lemma {:induction false} OrSops(strip: Ops, lo: nat, o: nat, b: Re, m: Alts)
    requires lo <= o && LaidAlts(strip, o, Or(b, m))
    ensures SopsOk(strip, lo, o, o + 2 + Len(b) + LenAlts(m))
    decreases Or(b, m), 0
  {
    hide Laid, LaidAlts, SopsOk, Len, LenAlts;
    LaidOr(strip, o, b, m);
    OneSop(strip, lo, o);
    OneSop(strip, lo, o + 1 + Len(b));
    LaidSops(strip, lo, o + 1, b);
    LaidAltsSops(strip, lo, o + 2 + Len(b), m);
    BracketSops(strip, lo, o, o + 1 + Len(b), o + 2 + Len(b) + LenAlts(m));
  }

  lemma {:induction false} LaidIsRange(strip: Ops, o: nat, r: Re)
    requires Laid(strip, o, r)
    ensures RangeOk(strip, o, o + Len(r))
  {
    hide Laid, Len;
    LaidSops(strip, o, o, r);
  }

  lemma {:induction false} Parts(strip: Ops, o: nat, a: Sop, B: Ops, c: Sop, N: Ops)
    requires o + 2 + |B| + |N| <= |strip| && strip[o..o + 2 + |B| + |N|] == [a] + B + [c] + N
    ensures strip[o] == a && strip[o + 1..o + 1 + |B|] == B && strip[o + 1 + |B|] == c
    ensures strip[o + 2 + |B|..o + 2 + |B| + |N|] == N
  {
    var s := strip[o..o + 2 + |B| + |N|];
    assert s[0] == a && s[1 + |B|] == c;
    assert s[1..1 + |B|] == B && s[2 + |B|..] == N;
    SliceOf(strip, o, o + 2 + |B| + |N|, 1, 1 + |B|);
    SliceOf(strip, o, o + 2 + |B| + |N|, 2 + |B|, 2 + |B| + |N|);
  }

  lemma {:induction false} SliceOf(strip: Ops, o: nat, e: nat, i: nat, j: nat)
    requires o <= e <= |strip| && i <= j <= e - o
    ensures strip[o..e][i..j] == strip[o + i..o + j]
  {
    var s, t := strip[o..e][i..j], strip[o + i..o + j];
    assert |s| == |t|;
    forall k | 0 <= k < |s|
      ensures s[k] == t[k]
    {
    }
  }

  /** Where the layout of `r` stands, `r` is laid out. */
  lemma {:induction false} LayoutIsLaid(strip: Ops, o: nat, r: Re)
    requires o + Len(r) <= |strip| && strip[o..o + Len(r)] == Layout(r)
    ensures Laid(strip, o, r)
    decreases r, 2
  {
    hide Laid, Len, Layout;
    LayoutOf(r);
    match r
    case Eps => EpsIsLaid(strip, o);
    case Leaf(a, n) => LeafIsLaid(strip, o, a, n);
    case Plus(b, n) => PlusIsLaid(strip, o, b, n);
    case Quest(b, n) => QuestIsLaid(strip, o, b, n);
    case Back(i, b, n) => BackIsLaid(strip, o, i, b, n);
    case Choice(f, alts, n) => ChoiceIsLaid(strip, o, f, alts, n);
  }

  /** The definitions of Len and Layout, as equations. */
  lemma {:induction false} LayoutOf(r: Re)
    ensures match r
            case Eps => Len(r) == 0
            case Leaf(a, n) => Len(r) == 1 + Len(n) && Layout(r) == [a.Code()] + Layout(n)
            case Plus(b, n) =>
              Len(r) == 2 + Len(b) + Len(n)
              && Layout(r) == [OPlus_(Len(b) + 1)] + Layout(b) + [O_Plus(Len(b) + 1)] + Layout(n)
            case Quest(b, n) =>
              Len(r) == 2 + Len(b) + Len(n)
              && Layout(r) == [OQuest_(Len(b) + 1)] + Layout(b) + [O_Quest(Len(b) + 1)] + Layout(n)
            case Back(i, b, n) =>
              Len(r) == 2 + Len(b) + Len(n) && Layout(r) == [OBack_(i)] + Layout(b) + [O_Back(i)] + Layout(n)
            case Choice(f, alts, n) =>
              Len(r) == 2 + Len(f) + LenAlts(alts) + Len(n)
              && Layout(r) == [OCh_(Len(f) + 2)] + Layout(f) + [OOr1(Len(f) + 1)] + LayoutAlts(alts) + Layout(n)
  {
    match r
    case Eps =>
    case Leaf(a, n) =>
    case Plus(b, n) =>
    case Quest(b, n) =>
    case Back(i, b, n) =>
    case Choice(f, alts, n) =>
  }

  lemma {:induction false} LeafIsLaid(strip: Ops, o: nat, a: Atom, n: Re)
    requires o + 1 + Len(n) <= |strip| && strip[o..o + 1 + Len(n)] == [a.Code()] + Layout(n)
    ensures Laid(strip, o, Leaf(a, n))
    decreases Leaf(a, n), 0
  {
    hide Laid, Layout, Len;
    Parts1(strip, o, a.Code(), Layout(n));
    LayoutIsLaid(strip, o + 1, n);
    JoinLeaf(strip, o, a, n);
  }

  lemma {:induction false} PlusIsLaid(strip: Ops, o: nat, b: Re, n: Re)
    requires o + 2 + Len(b) + Len(n) <= |strip|
    requires strip[o..o + 2 + Len(b) + Len(n)] == [OPlus_(Len(b) + 1)] + Layout(b) + [O_Plus(Len(b) + 1)] + Layout(n)
    ensures Laid(strip, o, Plus(b, n))
    decreases Plus(b, n), 1
  {
    hide Laid, Layout, Len;
    PairIsLaid(strip, o, Plus(b, n), OPlus_(Len(b) + 1), b, O_Plus(Len(b) + 1), n);
    LenOfPlus(b, n);
    JoinPlus(strip, o, b, n);
  }

  lemma {:induction false} QuestIsLaid(strip: Ops, o: nat, b: Re, n: Re)
    requires o + 2 + Len(b) + Len(n) <= |strip|
    requires strip[o..o + 2 + Len(b) + Len(n)] == [OQuest_(Len(b) + 1)] + Layout(b) + [O_Quest(Len(b) + 1)] + Layout(n)
    ensures Laid(strip, o, Quest(b, n))
    decreases Quest(b, n), 1
  {
    hide Laid, Layout, Len;
    PairIsLaid(strip, o, Quest(b, n), OQuest_(Len(b) + 1), b, O_Quest(Len(b) + 1), n);
    LenOfQuest(b, n);
    JoinQuest(strip, o, b, n);
  }

  lemma {:induction false} BackIsLaid(strip: Ops, o: nat, i: nat, b: Re, n: Re)
    requires o + 2 + Len(b) + Len(n) <= |strip|
    requires strip[o..o + 2 + Len(b) + Len(n)] == [OBack_(i)] + Layout(b) + [O_Back(i)] + Layout(n)
    ensures Laid(strip, o, Back(i, b, n))
    decreases Back(i, b, n), 1
  {
    hide Laid, Layout, Len;
    PairIsLaid(strip, o, Back(i, b, n), OBack_(i), b, O_Back(i), n);
    LenOfBack(i, b, n);
    JoinBack(strip, o, i, b, n);
  }

  lemma {:induction false} EpsIsLaid(strip: Ops, o: nat)
    requires o <= |strip|
    ensures Laid(strip, o, Eps)
  {
  }

  lemma {:induction false} Parts1(strip: Ops, o: nat, a: Sop, N: Ops)
    requires o + 1 + |N| <= |strip| && strip[o..o + 1 + |N|] == [a] + N
    ensures strip[o] == a && strip[o + 1..o + 1 + |N|] == N
  {
    var s := strip[o..o + 1 + |N|];
    assert s[0] == a && s[1..] == N;
  }

  lemma {:induction false} JoinLeaf(strip: Ops, o: nat, a: Atom, n: Re)
    requires o < |strip| && strip[o] == a.Code() && Laid(strip, o + 1, n)
    ensures Laid(strip, o, Leaf(a, n))
  {
    hide Len;
    LenOfLeaf(a, n);
    LaidFits(strip, o + 1, n);
  }

  lemma {:induction false} PairFolds(strip: Ops, o: nat, opener: Sop, closer: Sop, r: Re)
    requires r.Plus? || r.Quest? || r.Back?
    requires opener == (if r.Plus? then OPlus_(Len(r.body) + 1) else if r.Quest? then OQuest_(Len(r.body) + 1)
             else OBack_(r.n))
    requires closer == (if r.Plus? then O_Plus(Len(r.body) + 1) else if r.Quest? then O_Quest(Len(r.body) + 1)
             else O_Back(r.n))
    requires LaidPair(strip, o, opener, closer, r)
    ensures Laid(strip, o, r)
  {
    hide LaidPair, Len;
    PairFits(strip, o, opener, closer, r);
    match r
    case Plus(b, n) => LenOfPlus(b, n);
    case Quest(b, n) => LenOfQuest(b, n);
    case Back(i, b, n) => LenOfBack(i, b, n);
  }

  lemma {:induction false} PairFits(strip: Ops, o: nat, opener: Sop, closer: Sop, r: Re)
    requires (r.Plus? || r.Quest? || r.Back?) && LaidPair(strip, o, opener, closer, r)
    ensures o + 2 + Len(r.body) + Len(r.next) <= |strip|
  {
    hide Laid, Len;
  }

  lemma {:induction false} JoinPlus(strip: Ops, o: nat, b: Re, n: Re)
    requires o + 2 + Len(b) + Len(n) <= |strip| && o + Len(Plus(b, n)) <= |strip|
    requires strip[o] == OPlus_(Len(b) + 1) && strip[o + 1 + Len(b)] == O_Plus(Len(b) + 1)
    requires Laid(strip, o + 1, b) && Laid(strip, o + 2 + Len(b), n)
    ensures Laid(strip, o, Plus(b, n))
  {
    hide Len, Laid;
    PairFolds(strip, o, OPlus_(Len(b) + 1), O_Plus(Len(b) + 1), Plus(b, n));
  }

  lemma {:induction false} JoinQuest(strip: Ops, o: nat, b: Re, n: Re)
    requires o + 2 + Len(b) + Len(n) <= |strip| && o + Len(Quest(b, n)) <= |strip|
    requires strip[o] == OQuest_(Len(b) + 1) && strip[o + 1 + Len(b)] == O_Quest(Len(b) + 1)
    requires Laid(strip, o + 1, b) && Laid(strip, o + 2 + Len(b), n)
    ensures Laid(strip, o, Quest(b, n))
  {
    hide Len, Laid;
    PairFolds(strip, o, OQuest_(Len(b) + 1), O_Quest(Len(b) + 1), Quest(b, n));
  }

  lemma {:induction false} JoinBack(strip: Ops, o: nat, i: nat, b: Re, n: Re)
    requires o + 2 + Len(b) + Len(n) <= |strip| && o + Len(Back(i, b, n)) <= |strip|
    requires strip[o] == OBack_(i) && strip[o + 1 + Len(b)] == O_Back(i)
    requires Laid(strip, o + 1, b) && Laid(strip, o + 2 + Len(b), n)
    ensures Laid(strip, o, Back(i, b, n))
  {
    hide Len, Laid;
    PairFolds(strip, o, OBack_(i), O_Back(i), Back(i, b, n));
  }

  lemma {:induction false} PairIsLaid(strip: Ops, o: nat, r: Re, a: Sop, b: Re, c: Sop, n: Re)
    requires r == Plus(b, n) || r == Quest(b, n) || (r.Back? && r.body == b && r.next == n)
    requires o + 2 + Len(b) + Len(n) <= |strip|
    requires strip[o..o + 2 + Len(b) + Len(n)] == [a] + Layout(b) + [c] + Layout(n)
    ensures strip[o] == a && strip[o + 1 + Len(b)] == c && Laid(strip, o + 1, b) && Laid(strip, o + 2 + Len(b), n)
    decreases r, 0
  {
    hide Laid, Layout, Len;
    Parts(strip, o, a, Layout(b), c, Layout(n));
    LayoutIsLaid(strip, o + 1, b);
    LayoutIsLaid(strip, o + 2 + Len(b), n);
  }

  lemma {:induction false} ChoiceIsLaid(strip: Ops, o: nat, f: Re, alts: Alts, n: Re)
    requires o + 2 + Len(f) + LenAlts(alts) + Len(n) <= |strip|
    requires strip[o..o + 2 + Len(f) + LenAlts(alts) + Len(n)]
          == [OCh_(Len(f) + 2)] + Layout(f) + [OOr1(Len(f) + 1)] + LayoutAlts(alts) + Layout(n)
    ensures Laid(strip, o, Choice(f, alts, n))
    decreases Choice(f, alts, n), 0
  {
    hide Laid, LaidAlts, Layout, LayoutAlts, Len, LenAlts;
    var rest := LayoutAlts(alts) + Layout(n);
    var a, c := OCh_(Len(f) + 2), OOr1(Len(f) + 1);
    Regroup([a] + Layout(f) + [c], LayoutAlts(alts), Layout(n));
    Parts(strip, o, a, Layout(f), c, rest);
    var p := o + 2 + Len(f);
    Halves(strip, p, LayoutAlts(alts), Layout(n));
    LayoutIsLaid(strip, o + 1, f);
    AltsAreLaid(strip, p, alts);
    LayoutIsLaid(strip, p + LenAlts(alts), n);
    JoinChoice(strip, o, f, alts, n);
  }

  lemma {:induction false} Regroup(A: Ops, B: Ops, C: Ops)
    ensures A + B + C == A + (B + C)
  {
  }

  lemma {:induction false} Halves(strip: Ops, o: nat, A: Ops, B: Ops)
    requires o + |A| + |B| <= |strip| && strip[o..o + (|A| + |B|)] == A + B
    ensures strip[o..o + |A|] == A && strip[o + |A|..o + |A| + |B|] == B
  {
    var s := strip[o..o + (|A| + |B|)];
    assert s[..|A|] == A && s[|A|..] == B;
  }

  lemma {:induction false} JoinChoice(strip: Ops, o: nat, f: Re, alts: Alts, n: Re)
    requires o + 2 + Len(f) + LenAlts(alts) + Len(n) <= |strip|
    requires strip[o] == OCh_(Len(f) + 2) && strip[o + 1 + Len(f)] == OOr1(Len(f) + 1)
    requires Laid(strip, o + 1, f) && LaidAlts(strip, o + 2 + Len(f), alts)
    requires Laid(strip, o + 2 + Len(f) + LenAlts(alts), n)
    ensures Laid(strip, o, Choice(f, alts, n))
  {
    hide Laid, LaidAlts, Len, LenAlts;
    BranchesFold(strip, o, Choice(f, alts, n));
  }

  lemma {:induction false} BranchesFold(strip: Ops, o: nat, r: Re)
    requires r.Choice? && LaidBranches(strip, o, r)
    ensures Laid(strip, o, r)
  {
    hide LaidBranches, LaidAlts, Len, LenAlts;
    LenOfChoice(r.first, r.rest, r.next);
    BranchesFit(strip, o, r);
  }

  lemma {:induction false} BranchesFit(strip: Ops, o: nat, r: Re)
    requires r.Choice? && LaidBranches(strip, o, r)
    ensures o + 2 + Len(r.first) + LenAlts(r.rest) + Len(r.next) <= |strip|
  {
    hide Laid, LaidAlts, Len, LenAlts;
  }

  lemma {:induction false} LenOfEps()
    ensures Len(Eps) == 0
  {
  }

  lemma {:induction false} LenOfLeaf(a: Atom, n: Re)
    ensures Len(Leaf(a, n)) == 1 + Len(n)
  {
  }

  lemma {:induction false} LenOfBack(i: nat, b: Re, n: Re)
    ensures Len(Back(i, b, n)) == 2 + Len(b) + Len(n)
  {
  }

  lemma {:induction false} LenOfLast(b: Re)
    ensures LenAlts(Last(b)) == 2 + Len(b)
  {
  }

  lemma {:induction false} LenOfPlus(b: Re, n: Re)
    ensures Len(Plus(b, n)) == 2 + Len(b) + Len(n)
  {
  }

  lemma {:induction false} LenOfQuest(b: Re, n: Re)
    ensures Len(Quest(b, n)) == 2 + Len(b) + Len(n)
  {
  }

  lemma {:induction false} LenOfChoice(f: Re, alts: Alts, n: Re)
    ensures Len(Choice(f, alts, n)) == 2 + Len(f) + LenAlts(alts) + Len(n)
  {
  }

  lemma {:induction false} LenOfOr(b: Re, m: Alts)
    ensures LenAlts(Or(b, m)) == 2 + Len(b) + LenAlts(m)
  {
  }

  lemma {:induction false} AltsAreLaid(strip: Ops, o: nat, alts: Alts)
    requires o + LenAlts(alts) <= |strip| && strip[o..o + LenAlts(alts)] == LayoutAlts(alts)
    ensures LaidAlts(strip, o, alts)
    decreases alts, 1
  {
    hide Laid, LaidAlts, Layout;
    match alts
    case Last(b) => LastIsLaid(strip, o, b);
    case Or(b, m) => OrIsLaid(strip, o, b, m);
  }

  lemma {:induction false} LastIsLaid(strip: Ops, o: nat, b: Re)
    requires o + 2 + Len(b) <= |strip|
    requires strip[o..o + 2 + Len(b)] == [OOr2(Len(b) + 1)] + Layout(b) + [O_Ch(Len(b) + 2)]
    ensures LaidAlts(strip, o, Last(b))
    decreases Last(b), 0
  {
    hide Laid, LaidAlts, Layout, LayoutAlts, Len, LenAlts;
    var a, c := OOr2(Len(b) + 1), O_Ch(Len(b) + 2);
    assert [a] + Layout(b) + [c] == [a] + Layout(b) + [c] + [];
    Parts(strip, o, a, Layout(b), c, []);
    LayoutIsLaid(strip, o + 1, b);
    JoinLast(strip, o, b);
  }

  lemma {:induction false} OrIsLaid(strip: Ops, o: nat, b: Re, m: Alts)
    requires o + 2 + Len(b) + LenAlts(m) <= |strip|
    requires strip[o..o + 2 + Len(b) + LenAlts(m)]
             == [OOr2(Len(b) + 2)] + Layout(b) + [OOr1(Len(b) + 2)] + LayoutAlts(m)
    ensures LaidAlts(strip, o, Or(b, m))
    decreases Or(b, m), 0
  {
    hide Laid, LaidAlts, Layout, LayoutAlts, Len, LenAlts;
    Parts(strip, o, OOr2(Len(b) + 2), Layout(b), OOr1(Len(b) + 2), LayoutAlts(m));
    LayoutIsLaid(strip, o + 1, b);
    AltsAreLaid(strip, o + 2 + Len(b), m);
    JoinOr(strip, o, b, m);
  }

  lemma {:induction false} JoinLast(strip: Ops, o: nat, b: Re)
    requires o + 2 + Len(b) <= |strip| && strip[o] == OOr2(Len(b) + 1) && strip[o + 1 + Len(b)] == O_Ch(Len(b) + 2)
    requires Laid(strip, o + 1, b)
    ensures LaidAlts(strip, o, Last(b))
  {
    hide Laid, Len, LenAlts;
    LenOfLast(b);
  }

  lemma {:induction false} JoinOr(strip: Ops, o: nat, b: Re, m: Alts)
    requires o + 2 + Len(b) + LenAlts(m) <= |strip| && strip[o] == OOr2(Len(b) + 2)
    requires strip[o + 1 + Len(b)] == OOr1(Len(b) + 2)
    requires Laid(strip, o + 1, b) && LaidAlts(strip, o + 2 + Len(b), m)
    ensures LaidAlts(strip, o, Or(b, m))
  {
    hide Laid, Len, LenAlts;
    LenOfOr(b, m);
  }
}
