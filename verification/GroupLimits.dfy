/** Copies of groups, and where what is reported of groups is not well nested, or not what they match
    (include/regex/engine.c, lines 365-481): examples that matcher reports on compiled code. */
module GroupLimits {
  import opened Strip
  import opened Text
  import opened Regex
  import opened Simulation
  import opened Captures
  import opened Backtrack
  import opened Must
  import opened Levels
  import opened Syntax
  import opened CodeGen
  import opened Groups
  import opened Nesting
  import opened FewRounds
  import opened Matching
  import opened C = Compile
  import Thompson

  // ----- which bounded repetitions are orderly -----

  lemma {:induction false} TopsOfBounded(d: Expr, least: nat, most: nat)
    requires least <= most <= INFINITY && least <= DUPMAX && 0 < most
    ensures GroupsIn(Bounded(d, least, most)) == GroupsIn(d) && Tops(Bounded(d, least, most)) == Tops(d)
    decreases most, if least == 0 then INFINITY else least
  {
    if least == 0 {
      TopsOfBounded(d, 1, most);
    } else if least == 1 && most > 1 && most != INFINITY {
      TopsOfBounded(d, 1, most - 1);
    } else if least > 1 {
      TopsOfBounded(d, least - 1, if most == INFINITY then most else most - 1);
    }
  }

  /** Copies of an expression are copies of its groups. */
  lemma {:induction false} BoundedIsAlike(d: Expr, least: nat, most: nat)
    requires least <= most <= INFINITY && least <= DUPMAX && Alike(d)
    ensures Alike(Bounded(d, least, most))
  {
    hide Bounded, GroupsIn, Tops;
    if most > 0 { TopsOfBounded(d, least, most); } else { NoneAtAll(d); }
  }

  lemma {:induction false} NoneAtAll(d: Expr)
    ensures Bounded(d, 0, 0) == Empty && Alike(Empty)
  {
  }

  lemma {:induction false} TopsApart(e: Expr)
    requires Orderly(e)
    ensures Apart(Tops(e), Tops(e))
    decreases e
  {
    hide Numbers, Steady;
    match e
    case Empty =>
    case Sym(_) =>
    case Cat(l, r) => TopsApart(l); TopsApart(r);
    case Union(f, rest) => TopsApart(f); TopsAllApart(rest);
    case Star(d) => TopsApart(d);
    case Some1(d) => TopsApart(d);
    case Opt(d) => TopsApart(d);
    case Group(_, _) =>
  }

  lemma {:induction false} TopsAllApart(bs: Branches)
    requires OrderlyAll(bs)
    ensures Apart(TopsAll(bs), TopsAll(bs))
    decreases bs
  {
    hide Numbers, Tops;
    TopsApart(bs.e);
    if bs.More? { TopsAllApart(bs.rest); }
  }

  /** A repetition is orderly if and only if its operand is, and either is not copied or has only groups in
      which everything takes part. */
  lemma {:induction false} BoundedIsOrderlyIff(d: Expr, least: nat, most: nat)
    requires least <= most <= INFINITY && least <= DUPMAX && 0 < most
    ensures Orderly(Bounded(d, least, most))
      <==> Orderly(d) && (Copies(least, most) <= 1 || forall a :: a in Tops(d) ==> Steady(a))
    decreases most, if least == 0 then INFINITY else least
  {
    hide Steady, Tops, GroupsIn, Numbers, Apart, Orderly;
    if Orderly(d) { TopsApart(d); }
    OrderlyParts(d, d);
    if least == 0 {
      BoundedIsOrderlyIff(d, 1, most);
      OrderlyParts(d, Bounded(d, 1, most));
    } else if least == 1 && most > 1 && most != INFINITY {
      BoundedIsOrderlyIff(d, 1, most - 1);
      TopsOfBounded(d, 1, most - 1);
      OrderlyParts(d, Bounded(d, 1, most - 1));
    } else if least > 1 {
      var rest := if most == INFINITY then most else most - 1;
      BoundedIsOrderlyIff(d, least - 1, rest);
      TopsOfBounded(d, least - 1, rest);
      OrderlyParts(d, Bounded(d, least - 1, rest));
    }
  }

  lemma {:induction false} OrderlyParts(l: Expr, r: Expr)
    ensures Orderly(Cat(l, r)) == Orderly(Cat(Opt(l), r))
      == (Orderly(l) && Orderly(r) && Apart(Tops(l), Tops(r)) && forall a :: a in Tops(l) && a in Tops(r) ==> Steady(a))
    ensures Orderly(Opt(r)) == Orderly(r) && Orderly(Some1(l)) == Orderly(l)
  {
    hide Steady, Numbers;
    assert Tops(Opt(l)) == Tops(l) && Orderly(Opt(l)) == Orderly(l);
  }

  // ----- ((a)|b){2} on "ab" -----

  /** ((a)|b) */
  const EITHER: Expr := Group(1, Union(Group(2, Sym(Chr('a'))), One(Sym(Chr('b')))))

  const TWICE: Expr := Bounded(EITHER, 2, 2)

  const AB := Subject("ab", 0, 2, false, false, false, [])

  lemma {:induction false} TwiceIs()
    ensures TWICE == Cat(EITHER, EITHER) && Proper(TWICE) && NoWord(TWICE) && Numbers(TWICE) == {1, 2}
    ensures Numbers(TWICE) <= Ids(2)
  {
  }

  /** A match of it has one character, and that decides which of the branches it is of. */
  lemma {:induction false} OneCharacter(a: At, b: At)
    requires Lang(AB, EITHER, a, b)
    ensures b.p == a.p + 1 && !b.w
  {
    var A, B := Group(2, Sym(Chr('a'))), Sym(Chr('b'));
    GroupLang(AB, 1, Union(A, One(B)), a, b);
    UnionLang(AB, A, One(B), a, b);
    GroupLang(AB, 2, Sym(Chr('a')), a, b);
    assert LangAny(AB, One(B), a, b) == Lang(AB, B, a, b);
  }

  lemma {:induction false} SpanIsOne(i: nat, j: nat)
    requires LangSpan(AB, EITHER, i, j)
    ensures j == i + 1
  {
    hide Lang;
    if Lang(AB, EITHER, At(i, false), At(j, false)) {
      OneCharacter(At(i, false), At(j, false));
    } else {
      OneCharacter(At(i, false), At(j, true));
    }
  }

  lemma {:induction false} OnlyAll(i: nat, j: nat)
    ensures Spans(AB, Emit(TWICE, Eps), i, j) <==> i == 0 && j == 2
  {
    TwiceIs();
    SpansAreLang(AB, TWICE, i, j);
    hide Spans, Emit, TWICE, EITHER;
    if LangSpan(AB, TWICE, i, j) {
      var b := At(j, !Lang(AB, TWICE, At(i, false), At(j, false)));
      LangIsIn(AB, TWICE, At(i, false), b);
      var m := CatSplit(AB, EITHER, EITHER, At(i, false), b);
      OneCharacter(At(i, false), m);
      OneCharacter(m, b);
    }
    EachMatches();
    CatLang(AB, EITHER, EITHER, At(0, false), At(1, false), At(2, false));
  }

  lemma {:induction false} EachMatches()
    ensures Lang(AB, EITHER, At(0, false), At(1, false)) && Lang(AB, EITHER, At(1, false), At(2, false))
  {
    assert LangAny(AB, One(Sym(Chr('b'))), At(1, false), At(2, false));
  }

  /** The second copy of the first group records b, and the second group still has the a of the first copy. */
  lemma {:induction false} Recorded12(pm: seq<Span>)
    requires |pm| == 3
    ensures var out := Captured(AB, Emit(TWICE, Eps), 0, 2, pm);
            |out| == 3 && out[1] == Span(1, 2) && out[2] == Span(0, 1)
  {
    OnlyAll(0, 2);
    TwiceIs();
    hide Spans, Captured, Emit, TWICE, EITHER, LangSpan, NoWord, Parsed, Write;
    var t := RecordedAlone(AB, TWICE, 0, 2, pm);
    Halves(t);
    EitherSpan(0, t.q, t.l);
    EitherSpan(t.q, 2, t.r);
    ItWrites(pm);
  }

  lemma {:induction false} Halves(t: Tree)
    requires Parsed(AB, Cat(EITHER, EITHER), 0, 2, t)
    ensures t.Both? && Parsed(AB, EITHER, 0, t.q, t.l) && Parsed(AB, EITHER, t.q, 2, t.r)
  {
    hide EITHER, LangSpan;
  }

  lemma {:induction false} ItWrites(pm: seq<Span>)
    requires |pm| == 3
    ensures Write(Both(1, Node(1, 0, 1, Node(2, 0, 1, Nil)), Node(1, 1, 2, Nil)), pm)
      == [pm[0], Span(1, 2), Span(0, 1)]
  {
    var a := Node(2, 0, 1, Nil);
    var p1 := SetSo(pm, 1, 0);
    assert p1 == [pm[0], Span(0, pm[1].eo), pm[2]];
    assert Write(a, p1) == SetEo(SetSo(p1, 2, 0), 2, 1) == [pm[0], Span(0, pm[1].eo), Span(0, 1)];
    var p2 := Write(Node(1, 0, 1, a), pm);
    assert p2 == SetEo(Write(a, p1), 1, 1) == [pm[0], Span(0, 1), Span(0, 1)];
    assert Write(Node(1, 1, 2, Nil), p2) == SetEo(SetSo(p2, 1, 1), 1, 2);
  }

  lemma {:induction false} EitherSpan(i: nat, j: nat, t: Tree)
    requires Parsed(AB, EITHER, i, j, t)
    ensures j == i + 1 && t.Node? && t.n == 1 && t.so == i && t.eo == j
    ensures i == 0 ==> t.inner == Node(2, 0, 1, Nil)
    ensures i == 1 ==> t.inner == Nil
  {
    SpanIsOne(i, j);
    BranchSpans(i, j);
    var A, B := Group(2, Sym(Chr('a'))), Sym(Chr('b'));
    assert EITHER.e == Union(A, One(B));
    hide EITHER, LangSpan;
    assert Parsed(AB, A, i, j, t.inner) || Parsed(AB, B, i, j, t.inner);
  }

  lemma {:induction false} BranchSpans(i: nat, j: nat)
    ensures LangSpan(AB, Sym(Chr('a')), i, j) ==> i == 0
    ensures LangSpan(AB, Sym(Chr('b')), i, j) ==> i == 1
  {
  }

  lemma {:induction false} TextIs()
    ensures StrLen("ab") == 2 && StrLen("xa-") == 3
  {
    var n := StrLen("ab");
    assert forall i :: 0 <= i < 2 ==> "ab"[i] != '\0';
    var m := StrLen("xa-");
    assert forall i :: 0 <= i < 3 ==> "xa-"[i] != '\0';
  }

  const PLAIN := Flags(false, false, false, false)

  /** What matcher reports if nothing but [0, end] is matched. */
  lemma {:induction false} Reported(x: Subject, g: Guts, r: Re, nm: nat, code: Outcome, s: nat, e: nat, pm: seq<Span>,
        end: nat)
    requires CanAnswer(x, g, nm, PLAIN) && !g.backrefs && Answer(x, g, r, nm, PLAIN, code, s, e, pm) && nm > 1
    requires x.begin == 0 && x.end == end && forall i: nat, j: nat :: Spans(x, r, i, j) <==> i == 0 && j == end
    requires code != InvArg
    ensures code == Ok && s == 0 && e == end
    ensures exists pm0 :: Clean(pm0, g.nsub) && pm == Captured(x, r, 0, end, pm0)
  {
    hide Spans, Captured, NoReentry, FoundDeep, AllRefused;
    assert Spans(x, r, 0, end);
    assert MatchFrom(x, r, 0);
  }

  /** Searching "ab" for `((a)|b){2}`, matcher reports b for the first group and the a before it for the
      second, which is inside the first. */
  method GroupsApart(pmatch: array<Span>) returns (code: Outcome)
    requires pmatch.Length >= 3
    modifies pmatch
    ensures code == Outcome.Ok && pmatch[0] == Span(0, 2) && pmatch[1] == Span(1, 2) && pmatch[2] == Span(0, 1)
    ensures !WellNested(AB, TWICE, 0, 2, pmatch[..3]) && Alike(TWICE) && !Orderly(TWICE)
  {
    hide Compiled, Spans, Answer, Reports, Captured, LangSpan, Lang, Emit, TWICE, Clean, CanAnswer, WellNested, Alike,
      Orderly, Numbers, Proper, Code;
    TwiceIs();
    var g := C.Compile(TWICE, [], false, false, 2);
    TextIs();
    ghost var x, s, e, pm;
    code, x, s, e, pm := RunMatcher(g, "ab", 3, pmatch, PLAIN, Emit(TWICE, Eps));
    CanSay(AB, g, 3, Emit(TWICE, Eps));
    forall i: nat, j: nat
      ensures Spans(AB, Emit(TWICE, Eps), i, j) <==> i == 0 && j == 2
    {
      OnlyAll(i, j);
    }
    Reported(AB, g, Emit(TWICE, Eps), 3, code, s, e, pm, 2);
    forall pm0 | Clean(pm0, 2)
      ensures var out := Captured(AB, Emit(TWICE, Eps), 0, 2, pm0);
              |out| == 3 && out[1] == Span(1, 2) && out[2] == Span(0, 1)
    {
      CleanSize(pm0, 2);
      Recorded12(pm0);
    }
    assert pmatch[..][0] == pmatch[0] && pmatch[..][1] == pmatch[1] && pmatch[..][2] == pmatch[2];
    ReportedThere(pmatch[..], 3, s, e, pm);
    NotNested(pmatch[..3]);
  }

  lemma {:induction false} CleanSize(pm: seq<Span>, nsub: nat)
    requires Clean(pm, nsub)
    ensures |pm| == nsub + 1
  {
  }

  lemma {:induction false} ReportedThere(user: seq<Span>, nm: nat, s: nat, e: nat, pm: seq<Span>)
    requires Reports(user, nm, s, e, pm) && nm > 0 && |pm| >= nm
    ensures |user| >= nm && user[0] == Span(s, e) && forall i :: 1 <= i < nm ==> user[i] == pm[i]
  {
  }

  lemma {:induction false} CanSay(x: Subject, g: Guts, nm: nat, r: Re)
    requires Compiled(g, r) && x.Valid() && !g.backrefs
    ensures CanAnswer(x, g, nm, PLAIN)
  {
    hide Laid, Len, Counted, Mandatory, Plain, WellGrouped, LoopsConsume;
  }

  lemma {:induction false} NotNested(pm: seq<Span>)
    requires |pm| == 3 && pm[1] == Span(1, 2) && pm[2] == Span(0, 1)
    ensures !WellNested(AB, TWICE, 0, 2, pm) && Alike(TWICE) && !Orderly(TWICE)
  {
    TwiceIs();
    assert WellNested(AB, EITHER.e.first, 1, 2, pm) == false;
    assert !WellNested(AB, EITHER, 0, 2, pm);
    BoundedIsAlike(EITHER, 2, 2);
    BoundedIsOrderlyIff(EITHER, 2, 2);
    assert EITHER in GroupsIn(EITHER) && 2 in Numbers(EITHER.e) && 2 !in Always(EITHER.e);
  }

  // ----- x((a[[:>:]])?(a-|[[:>:]]))-? on "xa-" -----

  const ENDED: Expr := Group(2, Cat(Sym(Chr('a')), Sym(Atom.Eow)))
  const REST: Expr := Group(3, Union(Cat(Sym(Chr('a')), Sym(Chr('-'))), One(Sym(Atom.Eow))))
  const BODY: Expr := Cat(Opt(ENDED), REST)
  const WORDS: Expr := Cat(Sym(Chr('x')), Cat(Group(1, BODY), Opt(Sym(Chr('-')))))

  const XA := Subject("xa-", 0, 3, false, false, false, [])

  lemma {:induction false} WordsIs()
    ensures Proper(WORDS) && Numbers(WORDS) == {1, 2, 3} && Numbers(WORDS) <= Ids(3)
  {
    assert Numbers(BODY) == {2, 3} && Proper(BODY);
    hide BODY;
  }

  /** What an a that ends a word matches. */
  lemma {:induction false} EndedIs(a: At, b: At)
    ensures Lang(XA, ENDED, a, b) <==> a.p == 1 && b == At(2, true)
  {
    var A, E := Sym(Chr('a')), Sym(Atom.Eow);
    GroupLang(XA, 2, Cat(A, E), a, b);
    if Lang(XA, Cat(A, E), a, b) { var m := CatSplit(XA, A, E, a, b); }
    if a.p == 1 && b == At(2, true) { CatLang(XA, A, E, a, At(2, false), b); }
  }

  /** And a and -, or the end of a word. */
  lemma {:induction false} RestIs(a: At, b: At)
    ensures Lang(XA, REST, a, b) <==> (a.p == 1 && b == At(3, false)) || (a == At(2, false) && b == At(2, true))
  {
    var A, D, E := Sym(Chr('a')), Sym(Chr('-')), Sym(Atom.Eow);
    GroupLang(XA, 3, Union(Cat(A, D), One(E)), a, b);
    UnionLang(XA, Cat(A, D), One(E), a, b);
    ADashIs(a, b);
    EowIs(a, b);
    hide Lang;
    assert LangAny(XA, One(E), a, b) == Lang(XA, E, a, b);
  }

  lemma {:induction false} ADashIs(a: At, b: At)
    ensures Lang(XA, Cat(Sym(Chr('a')), Sym(Chr('-'))), a, b) <==> a.p == 1 && b == At(3, false)
  {
    var A, D := Sym(Chr('a')), Sym(Chr('-'));
    if Lang(XA, Cat(A, D), a, b) { var m := CatSplit(XA, A, D, a, b); }
    if a.p == 1 && b == At(3, false) { CatLang(XA, A, D, a, At(2, false), b); }
  }

  lemma {:induction false} EowIs(a: At, b: At)
    ensures Lang(XA, Sym(Atom.Eow), a, b) <==> a == At(2, false) && b == At(2, true)
  {
  }

  lemma {:induction false} BodyIs(a: At, b: At)
    requires a.p >= 1
    ensures Lang(XA, BODY, a, b)
      <==> (a.p == 1 && b == At(3, false)) || (a == At(2, false) && b == At(2, true))
  {
    hide Lang;
    if Lang(XA, BODY, a, b) {
      var m := CatSplit(XA, Opt(ENDED), REST, a, b);
      OptLang(XA, ENDED, a, m);
      EndedIs(a, m);
      RestIs(m, b);
    }
    if (a.p == 1 && b == At(3, false)) || (a == At(2, false) && b == At(2, true)) {
      RestIs(a, b);
      LangIsIn(XA, REST, a, b);
      OptLang(XA, ENDED, a, a);
      CatLang(XA, Opt(ENDED), REST, a, a, b);
    }
  }

  lemma {:induction false} DashIs(a: At, b: At)
    ensures Lang(XA, Opt(Sym(Chr('-'))), a, b) <==> (a == b && In(XA, a)) || (a.p == 2 && b == At(3, false))
  {
    OptLang(XA, Sym(Chr('-')), a, b);
  }

  lemma {:induction false} XIs(a: At, b: At)
    ensures Lang(XA, Sym(Chr('x')), a, b) <==> a.p == 0 && b == At(1, false)
  {
  }

  lemma {:induction false} WordsMatchAll(i: nat, j: nat)
    ensures Spans(XA, Emit(WORDS, Eps), i, j) <==> i == 0 && j == 3
  {
    SpansAreLang(XA, WORDS, i, j);
    hide Spans, Emit, Lang, BODY;
    var K, dash := Cat(Group(1, BODY), Opt(Sym(Chr('-')))), Opt(Sym(Chr('-')));
    if LangSpan(XA, WORDS, i, j) {
      var a, b := At(i, false), At(j, !Lang(XA, WORDS, At(i, false), At(j, false)));
      var m := CatSplit(XA, Sym(Chr('x')), K, a, b);
      XIs(a, m);
      var q := CatSplit(XA, Group(1, BODY), dash, m, b);
      GroupLang(XA, 1, BODY, m, q);
      BodyIs(m, q);
      DashIs(q, b);
    }
    var a, b, c := At(0, false), At(1, false), At(3, false);
    XIs(a, b);
    BodyIs(b, c);
    GroupLang(XA, 1, BODY, b, c);
    DashIs(c, c);
    CatLang(XA, Group(1, BODY), dash, b, c, c);
    CatLang(XA, Sym(Chr('x')), K, a, b, c);
  }

  // its code, from the end
  const DASH: Re := Choice(Leaf(Chr('-'), Eps), Last(Eps), Eps)
  const AFTER: Re := Leaf(RParen(3), Leaf(RParen(1), DASH))
  const PICK: Re := Choice(Leaf(Chr('a'), Leaf(Chr('-'), Eps)), Last(Leaf(Atom.Eow, Eps)), AFTER)
  const SECOND: Re := Leaf(LParen(3), PICK)
  const FIRST: Re := Choice(Leaf(LParen(2), Leaf(Chr('a'), Leaf(Atom.Eow, Leaf(RParen(2), Eps)))), Last(Eps), SECOND)
  const ALL: Re := Leaf(Chr('x'), Leaf(LParen(1), FIRST))

  lemma {:induction false} AllIs()
    ensures Emit(WORDS, Eps) == ALL
    ensures Emit(REST, Leaf(RParen(1), DASH)) == SECOND && Emit(Opt(ENDED), Eps) == Head(FIRST)
    ensures Emit(Opt(Sym(Chr('-'))), Eps) == DASH
  {
  }

  lemma {:induction false} PickIs(a: At, b: At)
    ensures Emit(REST.e, Eps) == Head(PICK) && Emit(REST.e, AFTER) == PICK
    ensures Lang(XA, REST.e, a, b) <==> (a.p == 1 && b == At(3, false)) || (a == At(2, false) && b == At(2, true))
  {
    RestIs(a, b);
    GroupLang(XA, 3, REST.e, a, b);
    hide Lang;
  }

  /** The - that is left for the option, also behind the end of a word. */
  lemma {:induction false} AfterMatches(w: bool)
    ensures Match(XA, AFTER, At(2, w), At(3, false))
  {
    var a, c := At(2, w), At(3, false);
    AllIs();
    DashIs(a, c);
    EmitAlone(XA, Opt(Sym(Chr('-'))), a, c);
    hide Match, Lang, Emit, DASH;
    ParenMatch(XA, RParen(1), DASH, a, c);
    ParenMatch(XA, RParen(3), Leaf(RParen(1), DASH), a, c);
  }

  /** From 2 on: nothing for the third group, and the - for the option. */
  lemma {:induction false} SecondSplits()
    ensures Spans(XA, SECOND, 2, 3) && SplitPoint(XA, Head(PICK), AFTER, 2, 3, 3) == Some(2)
  {
    var a, b, c := At(2, false), At(2, true), At(3, false);
    forall q: nat
      ensures Spans(XA, Head(PICK), 2, q) <==> q == 2
    {
      PickIs(a, At(q, false));
      PickIs(a, At(q, true));
      SpansAreLang(XA, REST.e, 2, q);
    }
    AfterMatches(false);
    AfterMatches(true);
    PickIs(a, b);
    hide Lang, Match, Emit, PICK, AFTER, REST;
    SpanOf(XA, AFTER, 2, c);
    assert Means(XA, REST.e, AFTER, a, c);
    EmitMeans(XA, REST.e, AFTER, a, c);
    ParenMatch(XA, LParen(3), PICK, a, c);
    SpanOf(XA, SECOND, 2, c);
  }

  /** From 1 on: a for the first option, which then ends a word, rather than nothing. */
  lemma {:induction false} FirstSplits()
    ensures SplitPoint(XA, Head(FIRST), SECOND, 1, 3, 3) == Some(2)
  {
    SecondSplits();
    AllIs();
    forall q: nat
      ensures Spans(XA, Head(FIRST), 1, q) <==> q == 1 || q == 2
    {
      var a := At(1, false);
      OptLang(XA, ENDED, a, At(q, false));
      OptLang(XA, ENDED, a, At(q, true));
      EndedIs(a, At(q, false));
      EndedIs(a, At(q, true));
      SpansAreLang(XA, Opt(ENDED), 1, q);
      hide Spans, Lang, ENDED, FIRST, SECOND;
    }
    hide Spans, ENDED, FIRST, SECOND;
  }

  lemma {:induction false} NothingMore(i: nat, j: nat, pm: seq<Span>)
    ensures Captured(XA, DASH, i, j, pm) == pm
  {
  }

  lemma {:induction false} SecondCaptures(pm: seq<Span>)
    requires |pm| == 4
    ensures var out := Captured(XA, SECOND, 2, 3, pm); |out| == 4 && out[1] == Span(pm[1].so, 2)
  {
    var p1 := SetSo(pm, 3, 2);
    LeafCaptures(LParen(3), PICK, 2, 3, pm);
    PickCaptures(p1);
    AfterCaptures(p1);
    hide Captured, PICK, AFTER;
  }

  lemma {:induction false} LeafCaptures(atom: Atom, k: Re, i: nat, j: nat, pm: seq<Span>)
    requires atom.Paren()
    ensures Captured(XA, Leaf(atom, k), i, j, pm)
      == Captured(XA, k, i, j, if atom.LParen? then SetSo(pm, atom.n, i) else SetEo(pm, atom.n, i))
  {
  }

  lemma {:induction false} PickCaptures(pm: seq<Span>)
    ensures Captured(XA, PICK, 2, 3, pm) == Captured(XA, AFTER, 2, 3, pm)
  {
    SecondSplits();
    hide AFTER, Spans, SplitPoint;
    assert Captured(XA, PICK.first, 2, 2, pm) == pm == CapturedAlts(XA, PICK.rest, 2, 2, pm);
  }

  lemma {:induction false} AfterCaptures(pm: seq<Span>)
    requires |pm| == 4
    ensures var out := Captured(XA, AFTER, 2, 3, pm); |out| == 4 && out[1] == Span(pm[1].so, 2)
  {
    var p1 := SetEo(pm, 3, 2);
    LeafCaptures(RParen(3), Leaf(RParen(1), DASH), 2, 3, pm);
    LeafCaptures(RParen(1), DASH, 2, 3, p1);
    NothingMore(2, 3, SetEo(p1, 1, 2));
    hide Captured, DASH;
  }

  /** The first group records the a. */
  lemma {:induction false} RecordedA(pm: seq<Span>)
    requires |pm| == 4
    ensures var out := Captured(XA, Emit(WORDS, Eps), 0, 3, pm); |out| == 4 && out[1] == Span(1, 2)
  {
    AllIs();
    FirstSplits();
    hide SECOND, Spans, SplitPoint, Emit;
    var p1 := SetSo(pm, 1, 1);
    var f := FIRST.first;
    var p2 := if Spans(XA, f, 1, 2) then Captured(XA, f, 1, 2, p1) else CapturedAlts(XA, Last(Eps), 1, 2, p1);
    assert p2[1] == p1[1];
    assert Captured(XA, FIRST, 1, 3, p1) == Captured(XA, SECOND, 2, 3, p2);
    SecondCaptures(p2);
    assert Captured(XA, ALL, 0, 3, pm) == Captured(XA, FIRST, 1, 3, p1);
  }

  /** Searching "xa-" for `x((a[[:>:]])?(a-|[[:>:]]))-?`, which matches it, matcher reports the a for the first
      group, although what is in that group does not match it: the end of a word is passed once at a place. */
  method BodyUnmatched(pmatch: array<Span>) returns (code: Outcome)
    requires pmatch.Length >= 2
    modifies pmatch
    ensures code == Outcome.Ok && pmatch[0] == Span(0, 3) && pmatch[1] == Span(1, 2) && !LangSpan(XA, BODY, 1, 2)
  {
    hide Compiled, Spans, Answer, Reports, Captured, LangSpan, Lang, Emit, WORDS, BODY, Clean, CanAnswer, Numbers,
      Proper, Code;
    WordsIs();
    var g := C.Compile(WORDS, [], false, false, 3);
    TextIs();
    ghost var x, s, e, pm;
    code, x, s, e, pm := RunMatcher(g, "xa-", 2, pmatch, PLAIN, Emit(WORDS, Eps));
    CanSay(XA, g, 2, Emit(WORDS, Eps));
    forall i: nat, j: nat
      ensures Spans(XA, Emit(WORDS, Eps), i, j) <==> i == 0 && j == 3
    {
      WordsMatchAll(i, j);
    }
    Reported(XA, g, Emit(WORDS, Eps), 2, code, s, e, pm, 3);
    forall pm0 | Clean(pm0, 3)
      ensures var out := Captured(XA, Emit(WORDS, Eps), 0, 3, pm0); |out| == 4 && out[1] == Span(1, 2)
    {
      CleanSize(pm0, 3);
      RecordedA(pm0);
    }
    assert pmatch[..][0] == pmatch[0] && pmatch[..][1] == pmatch[1];
    ReportedThere(pmatch[..], 2, s, e, pm);
    NotTheA();
  }

  lemma {:induction false} NotTheA()
    ensures !LangSpan(XA, BODY, 1, 2)
  {
    hide Lang, BODY;
    BodyIs(At(1, false), At(2, false));
    BodyIs(At(1, false), At(2, true));
  }
}
