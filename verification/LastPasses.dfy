/** dissect's walk over the passes of a + (include/regex/engine.c, lines 411-430): it takes the longest
    match of the body each time, and line 425 asserts that this ends where the piece ends. When it
    does, and an example where it does not. */
module LastPasses {
  import opened Strip
  import opened Text
  import opened Regex
  import opened Captures
  import opened Syntax
  import opened CodeGen
  import opened Groups

  /** The loop matches from `i` to the end of the piece, `rest`. */
  ghost predicate Fills(x: Subject, b: Re, i: nat, rest: nat) { Spans(x, Plus(b, Eps), i, rest) }

  /** Wherever the loop could still fill the piece, a longest match of the body that falls short of
      the end moves on, to a place from which the loop can still fill what is left. */
  ghost predicate KeepsFilling(x: Subject, b: Re, rest: nat) {
    forall i: nat, q: nat :: i < rest && Fills(x, b, i, rest) && LongestEnd(x, b, i, rest) == Some(q) && q < rest ==>
      i < q && Fills(x, b, q, rest)
  }

  /** From every place from which the loop can fill the piece, the walk ends at its end. */
  ghost predicate Exhausts(x: Subject, b: Re, rest: nat) {
    forall i: nat, before: nat :: Fills(x, b, i, rest) ==> LastPass(x, b, i, before, rest).1 == rest
  }

  // ----- it suffices -----

  lemma {:induction false} WalkFills(x: Subject, b: Re, i: nat, before: nat, rest: nat)
    requires KeepsFilling(x, b, rest) && i < rest && Fills(x, b, i, rest)
    ensures LastPass(x, b, i, before, rest).1 == rest
    decreases rest - i
  {
    hide Spans;
    PlusBodyStarts(x, b, i, rest);
    var q := LongestEnd(x, b, i, rest).value;
    if q < rest { WalkFills(x, b, q, i, rest); } else { WalkEnds(x, b, i, rest); }
  }

  lemma {:induction false} WalkEnds(x: Subject, b: Re, before: nat, rest: nat)
    ensures LastPass(x, b, rest, before, rest).1 == rest
  {
    hide Spans;
  }

  lemma {:induction false} FillsForward(x: Subject, b: Re, i: nat, rest: nat)
    requires Fills(x, b, i, rest)
    ensures i <= rest
  {
    hide Spans;
    SpanIsIn(x, Plus(b, Eps), i, rest);
  }

  lemma {:induction false} KeepsFillingSuffices(x: Subject, b: Re, rest: nat)
    requires KeepsFilling(x, b, rest)
    ensures Exhausts(x, b, rest)
  {
    hide Fills, KeepsFilling, LastPass;
    forall i: nat, before: nat | Fills(x, b, i, rest)
      ensures LastPass(x, b, i, before, rest).1 == rest
    {
      FillsForward(x, b, i, rest);
      if i < rest { WalkFills(x, b, i, before, rest); } else { WalkEnds(x, b, before, rest); }
    }
  }

  // ----- and is necessary -----

  lemma {:induction false} MorePasses(x: Subject, d: Expr, i: nat, q: nat, rest: nat)
    requires Proper(d) && NoWord(d) && LangSpan(x, d, i, q) && (q == rest || LangSpan(x, Some1(d), q, rest))
    ensures LangSpan(x, Some1(d), i, rest)
  {
    hide Lang, Times;
    var a, m := At(i, false), At(q, false);
    if Lang(x, d, a, At(q, true)) { NoMark(x, d, a, At(q, true)); }
    OneTime(x, d, a, m);
    TimesIsIn(x, d, 1, a, m);
    if q == rest {
      Some1Lang(x, d, 1, a, m);
    } else {
      var b := if Lang(x, Some1(d), m, At(rest, false)) then At(rest, false) else At(rest, true);
      var n := Some1Split(x, d, m, b);
      TimesIsIn(x, d, n, m, b);
      TimesJoins(x, d, 1, n, a, m, b);
      Some1Lang(x, d, 1 + n, a, b);
    }
  }

  /** Where the walk ends at the end, it has shown a way to fill the piece. */
  lemma {:induction false} WalkedIsFilled(x: Subject, d: Expr, i: nat, before: nat, rest: nat)
    requires Proper(d) && NoWord(d) && i < rest && LastPass(x, Emit(d, Eps), i, before, rest).1 == rest
    ensures Fills(x, Emit(d, Eps), i, rest)
    decreases rest - i
  {
    hide Spans, LangSpan, NoWord, Proper, Emit;
    var b := Emit(d, Eps);
    var e := LongestEnd(x, b, i, rest);
    if e.Some? && e.value != i {
      var q := e.value;
      if q < rest { WalkedIsFilled(x, d, q, i, rest); }
      SpansAreLang(x, d, i, q);
      LoopSpans(x, d, i, rest);
      LoopSpans(x, d, q, rest);
      MorePasses(x, d, i, q, rest);
    }
  }

  lemma {:induction false} LoopSpans(x: Subject, d: Expr, i: nat, j: nat)
    ensures Fills(x, Emit(d, Eps), i, j) <==> LangSpan(x, Some1(d), i, j)
  {
    hide Spans, LangSpan;
    SpansAreLang(x, Some1(d), i, j);
  }

  /** The assertion of line 425 holds of every walk over a piece that the loop fills, exactly when
      longest matches never lead astray. */
  lemma {:induction false} ExhaustsIff(x: Subject, d: Expr, rest: nat)
    requires Proper(d) && NoWord(d)
    ensures Exhausts(x, Emit(d, Eps), rest) <==> KeepsFilling(x, Emit(d, Eps), rest)
  {
    var b := Emit(d, Eps);
    hide Fills, LangSpan, NoWord, Proper, Emit;
    if KeepsFilling(x, b, rest) { KeepsFillingSuffices(x, b, rest); }
    if Exhausts(x, b, rest) {
      forall i: nat, q: nat | i < rest && Fills(x, b, i, rest) && LongestEnd(x, b, i, rest) == Some(q) && q < rest
        ensures i < q && Fills(x, b, q, rest)
      {
        assert LastPass(x, b, i, 0, rest).1 == rest;
        WalkedIsFilled(x, d, q, i, rest);
      }
    }
  }

  // ----- bodies of one width -----

  /** The number of characters every match takes, if it is the same for all. */
  function Width(e: Expr): Option<nat> {
    match e
    case Empty => Some(0)
    case Sym(atom) => Some(if Takes(atom) then 1 else 0)
    case Cat(l, r) => if Width(l).Some? && Width(r).Some? then Some(Width(l).value + Width(r).value) else None
    case Union(f, rest) => if Width(f) == WidthAll(rest) then Width(f) else None
    case Star(d) => if Width(d) == Some(0) then Some(0) else None
    case Some1(d) => if Width(d) == Some(0) then Some(0) else None
    case Opt(d) => if Width(d) == Some(0) then Some(0) else None
    case Group(_, d) => Width(d)
  }

  function WidthAll(bs: Branches): Option<nat> {
    match bs
    case One(e) => Width(e)
    case More(e, rest) => if Width(e) == WidthAll(rest) then Width(e) else None
  }

  lemma {:induction false} TakesWidth(x: Subject, e: Expr, a: At, b: At)
    requires Width(e).Some? && Lang(x, e, a, b)
    ensures b.p == a.p + Width(e).value
    decreases e, 1
  {
    hide Times;
    match e
    case Empty =>
    case Sym(atom) =>
    case Cat(l, r) =>
      var m := CatSplit(x, l, r, a, b);
      TakesWidth(x, l, a, m);
      TakesWidth(x, r, m, b);
    case Union(f, rest) => if Lang(x, f, a, b) { TakesWidth(x, f, a, b); } else { AnyTakesWidth(x, rest, a, b); }
    case Star(d) =>
      if a != b {
        StarLang(x, d, a, b);
        var n := Some1Split(x, d, a, b);
        TimesTakeWidth(x, d, n, a, b);
      }
    case Some1(d) =>
      var n := Some1Split(x, d, a, b);
      TimesTakeWidth(x, d, n, a, b);
    case Opt(d) => if a != b { TakesWidth(x, d, a, b); }
    case Group(_, d) => TakesWidth(x, d, a, b);
  }

  lemma {:induction false} AnyTakesWidth(x: Subject, bs: Branches, a: At, b: At)
    requires WidthAll(bs).Some? && LangAny(x, bs, a, b)
    ensures b.p == a.p + WidthAll(bs).value
    decreases bs, 1
  {
    hide Lang;
    match bs
    case One(e) => TakesWidth(x, e, a, b);
    case More(e, rest) => if Lang(x, e, a, b) { TakesWidth(x, e, a, b); } else { AnyTakesWidth(x, rest, a, b); }
  }

  lemma {:induction false} TimesTakeWidth(x: Subject, d: Expr, n: nat, a: At, b: At)
    requires Width(d).Some? && Times(x, d, n, a, b)
    ensures b.p == a.p + n * Width(d).value
    decreases d, 2, n
  {
    hide Lang;
    if n > 0 {
      var m := TimesSplit(x, d, n, a, b);
      TimesTakeWidth(x, d, n - 1, a, m);
      TakesWidth(x, d, m, b);
      assert n * Width(d).value == (n - 1) * Width(d).value + Width(d).value;
    }
  }

  /** After one pass the loop can fill the rest. */
  lemma {:induction false} OnePassOn(x: Subject, d: Expr, i: nat, rest: nat)
    requires Width(d).Some? && Fills(x, Emit(d, Eps), i, rest) && i + Width(d).value < rest
    ensures Fills(x, Emit(d, Eps), i + Width(d).value, rest)
  {
    hide Spans, Lang, Times, Emit;
    LoopSpans(x, d, i, rest);
    var a := At(i, false);
    var b := if Lang(x, Some1(d), a, At(rest, false)) then At(rest, false) else At(rest, true);
    var n := Some1Split(x, d, a, b);
    TimesTakeWidth(x, d, n, a, b);
    assert n > 1;
    var m := TimesSplits(x, d, 1, n - 1, a, b);
    TimesTakeWidth(x, d, 1, a, m);
    TimesIsIn(x, d, n - 1, m, b);
    Some1Lang(x, d, n - 1, m, b);
    FromThere(x, Some1(d), m, b);
    LoopSpans(x, d, m.p, rest);
  }

  lemma {:induction false} FromThere(x: Subject, e: Expr, m: At, b: At)
    requires Lang(x, e, m, b)
    ensures LangSpan(x, e, m.p, b.p)
  {
    hide Lang, Match, Spans, Emit;
    EmitAlone(x, e, m, b);
    SpanFrom(x, Emit(e, Eps), m, b);
    SpansAreLang(x, e, m.p, b.p);
  }

  /** So the assertion holds for every body all of whose matches have one width, above none. */
  lemma {:induction false} FixedWidthExhausts(x: Subject, d: Expr, rest: nat)
    requires Width(d).Some? && Width(d).value > 0
    ensures Exhausts(x, Emit(d, Eps), rest)
  {
    hide Fills, Width, Emit;
    var b := Emit(d, Eps);
    forall i: nat, q: nat | i < rest && Fills(x, b, i, rest) && LongestEnd(x, b, i, rest) == Some(q) && q < rest
      ensures i < q && Fills(x, b, q, rest)
    {
      SpanWidth(x, d, i, q);
      OnePassOn(x, d, i, rest);
    }
    KeepsFillingSuffices(x, b, rest);
  }

  lemma {:induction false} SpanWidth(x: Subject, d: Expr, i: nat, q: nat)
    requires Width(d).Some? && Spans(x, Emit(d, Eps), i, q)
    ensures q == i + Width(d).value
  {
    hide Spans, Lang, Emit;
    SpansAreLang(x, d, i, q);
    TakesWidth(x, d, At(i, false), if Lang(x, d, At(i, false), At(q, false)) then At(q, false) else At(q, true));
  }

  // ----- an example where it fails -----

  const ABC := Subject("abc", 0, 3, false, false, false, [])

  /** a|ab|bc */
  const BODY: Expr := Union(Sym(Chr('a')),
    More(Cat(Sym(Chr('a')), Sym(Chr('b'))), One(Cat(Sym(Chr('b')), Sym(Chr('c'))))))

  lemma {:induction false} OneChar(c: char, a: At, b: At)
    ensures Lang(ABC, Sym(Chr(c)), a, b) <==> a.p < 3 && "abc"[a.p] == c && b == At(a.p + 1, false)
  {
  }

  lemma {:induction false} TwoChars(c: char, d: char, a: At, b: At)
    ensures Lang(ABC, Cat(Sym(Chr(c)), Sym(Chr(d))), a, b)
      <==> a.p < 2 && "abc"[a.p] == c && "abc"[a.p + 1] == d && b == At(a.p + 2, false)
  {
    var l, r, m := Sym(Chr(c)), Sym(Chr(d)), At(a.p + 1, false);
    OneChar(c, a, m);
    OneChar(d, m, b);
    if Lang(ABC, Cat(l, r), a, b) {
      var n := CatSplit(ABC, l, r, a, b);
      OneChar(c, a, n);
    } else if Lang(ABC, l, a, m) && Lang(ABC, r, m, b) {
      CatLang(ABC, l, r, a, m, b);
    }
  }

  lemma {:induction false} BodyLang(a: At, b: At)
    ensures Lang(ABC, BODY, a, b) <==>
      (a.p == 0 && (b == At(1, false) || b == At(2, false))) || (a.p == 1 && b == At(3, false))
  {
    UnionLang(ABC, BODY.first, BODY.rest, a, b);
    OneChar('a', a, b);
    TwoChars('a', 'b', a, b);
    TwoChars('b', 'c', a, b);
    assert LangAny(ABC, BODY.rest, a, b) <==>
      Lang(ABC, Cat(Sym(Chr('a')), Sym(Chr('b'))), a, b) || Lang(ABC, Cat(Sym(Chr('b')), Sym(Chr('c'))), a, b);
    hide Lang;
  }

  lemma {:induction false} BodySpans(i: nat, j: nat)
    ensures Spans(ABC, Emit(BODY, Eps), i, j) <==> (i == 0 && (j == 1 || j == 2)) || (i == 1 && j == 3)
  {
    SpansAreLang(ABC, BODY, i, j);
    BodyLang(At(i, false), At(j, false));
    BodyLang(At(i, false), At(j, true));
  }

  /** `(a|ab|bc)+` matches "abc" as a and bc; dissect takes ab, finds nothing from the c on, and
      settles for [0, 2], which is a match of the body but not the last of any that fill [0, 3]. */
  lemma {:induction false} PlusStopsShort()
    ensures Spans(ABC, Emit(Some1(BODY), Eps), 0, 3) && LastPass(ABC, Emit(BODY, Eps), 0, 0, 3) == (0, 2)
  {
    var a, b, c, B := At(0, false), At(1, false), At(3, false), Emit(BODY, Eps);
    BodyLang(a, b);
    BodyLang(b, c);
    hide Lang, Spans, Emit;
    TimesNone(BODY, a);
    TimesJoin(ABC, BODY, 1, a, a, b);
    TimesJoin(ABC, BODY, 2, a, b, c);
    Some1Lang(ABC, BODY, 2, a, c);
    SpansAreLang(ABC, Some1(BODY), 0, 3);
    forall i: nat, j: nat
      ensures Spans(ABC, B, i, j) <==> (i == 0 && (j == 1 || j == 2)) || (i == 1 && j == 3)
    {
      BodySpans(i, j);
    }
    assert LongestEnd(ABC, B, 0, 3) == Some(2);
    assert LongestEnd(ABC, B, 2, 3) == None;
  }

  lemma {:induction false} TimesNone(e: Expr, a: At)
    requires In(ABC, a)
    ensures Times(ABC, e, 0, a, a)
  {
  }
}
