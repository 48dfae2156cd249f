/** Regular expressions as a user writes them, what they mean, and the strip that regcomp.c emits
    for them (src/backend/regex/regcomp.c, p_ere, p_ere_exp and repeat). */
module Syntax {
  import opened Strip
  import opened Text
  import opened Regex
  import opened Thompson

  datatype Expr =
    | Empty
    | Sym(atom: Atom)                              // a character, ., [...], ^, $, or a word boundary
    | Cat(l: Expr, r: Expr)
    | Union(first: Expr, rest: Branches)          // a|b|...
    | Star(e: Expr)
    | Some1(e: Expr)                              // e+
    | Opt(e: Expr)
    | Group(n: nat, e: Expr)                      // (e), the n-th subexpression

  datatype Branches = One(e: Expr) | More(e: Expr, rest: Branches)

  /** The textbook meaning: `e` matches the text between `a` and `b`. */
  ghost predicate Lang(x: Subject, e: Expr, a: At, b: At)
    decreases e, 0
  {
    In(x, a) && In(x, b) &&
    match e
    case Empty => a == b
    case Sym(atom) => Moves(x, atom, a) == Some(b)
    case Cat(l, r) => exists m :: Lang(x, l, a, m) && Lang(x, r, m, b)
    case Union(f, rest) => Lang(x, f, a, b) || LangAny(x, rest, a, b)
    case Star(d) => exists n: nat :: Times(x, d, n, a, b)
    case Some1(d) => exists n: nat :: n > 0 && Times(x, d, n, a, b)
    case Opt(d) => a == b || Lang(x, d, a, b)
    case Group(_, d) => Lang(x, d, a, b)
  }

  ghost predicate LangAny(x: Subject, bs: Branches, a: At, b: At)
    decreases bs, 0
  {
    match bs
    case One(e) => Lang(x, e, a, b)
    case More(e, rest) => Lang(x, e, a, b) || LangAny(x, rest, a, b)
  }

  /** `n` matches of `e` in a row. */
  ghost predicate Times(x: Subject, e: Expr, n: nat, a: At, b: At)
    decreases e, 1, n
  {
    if n == 0 then a == b && In(x, a)
    else exists m :: Times(x, e, n - 1, a, m) && Lang(x, e, m, b)
  }

  /** `e` matches exactly the text from `i` to `j`. */
  ghost predicate LangSpan(x: Subject, e: Expr, i: nat, j: nat) {
    Lang(x, e, At(i, false), At(j, false)) || Lang(x, e, At(i, false), At(j, true))
  }

  /** What is emitted for `e`, followed by `k`. A star is an optional plus; y? is emitted as (y|). */
  function Emit(e: Expr, k: Re): Re
    decreases e
  {
    match e
    case Empty => k
    case Sym(atom) => Leaf(atom, k)
    case Cat(l, r) => Emit(l, Emit(r, k))
    case Union(f, rest) => Choice(Emit(f, Eps), EmitBranches(rest), k)
    case Star(d) => Quest(Plus(Emit(d, Eps), Eps), k)
    case Some1(d) => Plus(Emit(d, Eps), k)
    case Opt(d) => Choice(Emit(d, Eps), Last(Eps), k)
    case Group(n, d) => Leaf(LParen(n), Emit(d, Leaf(RParen(n), k)))
  }

  function EmitBranches(bs: Branches): Alts
    decreases bs
  {
    match bs
    case One(e) => Last(Emit(e, Eps))
    case More(e, rest) => Or(Emit(e, Eps), EmitBranches(rest))
  }

  /** The code for a whole expression, between the two OENDs. */
  function Code(e: Expr): Ops {
    [OEnd] + Layout(Emit(e, Eps)) + [OEnd]
  }

  lemma {:induction false} CodeIsLaid(e: Expr)
    ensures Laid(Code(e), 1, Emit(e, Eps)) && |Code(e)| == Len(Emit(e, Eps)) + 2
  {
    hide Laid, Layout, Len;
    var r := Emit(e, Eps);
    assert Code(e)[1..1 + Len(r)] == Layout(r);
    LayoutIsLaid(Code(e), 1, r);
  }

  // ----- compiling keeps the meaning -----

  lemma {:induction false} LangIsIn(x: Subject, e: Expr, a: At, b: At)
    requires Lang(x, e, a, b)
    ensures In(x, a) && In(x, b)
  {
  }

  /** What the emitted code matches is what the expression matches, followed by the rest. */
  ghost predicate Means(x: Subject, e: Expr, k: Re, a: At, c: At) {
    exists b :: Lang(x, e, a, b) && Match(x, k, b, c)
  }

  lemma {:induction false} EmitMeans(x: Subject, e: Expr, k: Re, a: At, c: At)
    ensures Match(x, Emit(e, k), a, c) <==> Means(x, e, k, a, c)
    decreases e, 2
  {
    hide Match, Lang, Iter, Times, Repeated;
    match e
    case Empty => EmptyMeans(x, k, a, c);
    case Sym(atom) => SymMeans(x, atom, k, a, c);
    case Cat(l, r) => CatMeans(x, l, r, k, a, c);
    case Union(f, rest) => UnionMeans(x, f, rest, k, a, c);
    case Star(d) => StarMeans(x, d, k, a, c);
    case Some1(d) => PlusMeans(x, d, k, a, c);
    case Opt(d) => OptMeans(x, d, k, a, c);
    case Group(n, d) => GroupMeans(x, n, d, k, a, c);
  }

  /** Standing alone, the emitted code matches what the expression matches. */
  lemma {:induction false} EmitAlone(x: Subject, e: Expr, a: At, b: At)
    ensures Match(x, Emit(e, Eps), a, b) <==> Lang(x, e, a, b)
    decreases e, 3
  {
    hide Match, Lang;
    EmitMeans(x, e, Eps, a, b);
    EpsMeans(x, e, a, b);
  }

  lemma {:induction false} EpsMeans(x: Subject, e: Expr, a: At, b: At)
    ensures Means(x, e, Eps, a, b) <==> Lang(x, e, a, b)
  {
    if Means(x, e, Eps, a, b) {
      var m :| Lang(x, e, a, m) && Match(x, Eps, m, b);
    }
    if Lang(x, e, a, b) {
      LangIsIn(x, e, a, b);
      assert Match(x, Eps, b, b);
    }
  }

  lemma {:induction false} EmptyMeans(x: Subject, k: Re, a: At, c: At)
    ensures Match(x, k, a, c) <==> Means(x, Empty, k, a, c)
  {
    if Match(x, k, a, c) {
      MatchIsIn(x, k, a, c);
      assert Lang(x, Empty, a, a);
    }
  }

  lemma {:induction false} SymMeans(x: Subject, atom: Atom, k: Re, a: At, c: At)
    ensures Match(x, Leaf(atom, k), a, c) <==> Means(x, Sym(atom), k, a, c)
  {
    if Match(x, Leaf(atom, k), a, c) {
      LeafSplit(x, atom, k, a, c);
      MatchIsIn(x, k, Moves(x, atom, a).value, c);
      assert Lang(x, Sym(atom), a, Moves(x, atom, a).value);
    }
    if Means(x, Sym(atom), k, a, c) {
      var b :| Lang(x, Sym(atom), a, b) && Match(x, k, b, c);
      MatchIsIn(x, k, b, c);
    }
  }

  lemma {:induction false} CatLang(x: Subject, l: Expr, r: Expr, a: At, m: At, b: At)
    requires Lang(x, l, a, m) && Lang(x, r, m, b)
    ensures Lang(x, Cat(l, r), a, b)
  {
    LangIsIn(x, l, a, m);
    LangIsIn(x, r, m, b);
  }

  lemma {:induction false} CatSplit(x: Subject, l: Expr, r: Expr, a: At, b: At) returns (m: At)
    requires Lang(x, Cat(l, r), a, b)
    ensures Lang(x, l, a, m) && Lang(x, r, m, b)
  {
    m :| Lang(x, l, a, m) && Lang(x, r, m, b);
  }

  lemma {:induction false} TimesSplit(x: Subject, d: Expr, n: nat, a: At, b: At) returns (m: At)
    requires n > 0 && Times(x, d, n, a, b)
    ensures Times(x, d, n - 1, a, m) && Lang(x, d, m, b)
  {
    m :| Times(x, d, n - 1, a, m) && Lang(x, d, m, b);
  }

  lemma {:induction false} TimesJoin(x: Subject, d: Expr, n: nat, a: At, m: At, b: At)
    requires n > 0 && Times(x, d, n - 1, a, m) && Lang(x, d, m, b)
    ensures Times(x, d, n, a, b)
  {
  }

  lemma {:induction false} CatMeans(x: Subject, l: Expr, r: Expr, k: Re, a: At, c: At)
    ensures Match(x, Emit(l, Emit(r, k)), a, c) <==> Means(x, Cat(l, r), k, a, c)
    decreases Cat(l, r), 0
  {
    hide Match, Lang;
    EmitMeans(x, l, Emit(r, k), a, c);
    if Means(x, l, Emit(r, k), a, c) {
      var m :| Lang(x, l, a, m) && Match(x, Emit(r, k), m, c);
      EmitMeans(x, r, k, m, c);
      var b :| Lang(x, r, m, b) && Match(x, k, b, c);
      CatLang(x, l, r, a, m, b);
    }
    if Means(x, Cat(l, r), k, a, c) {
      var b :| Lang(x, Cat(l, r), a, b) && Match(x, k, b, c);
      var m := CatSplit(x, l, r, a, b);
      assert Means(x, r, k, m, c);
      EmitMeans(x, r, k, m, c);
    }
  }

  lemma {:induction false} UnionMeans(x: Subject, f: Expr, rest: Branches, k: Re, a: At, c: At)
    ensures Match(x, Choice(Emit(f, Eps), EmitBranches(rest), k), a, c) <==> Means(x, Union(f, rest), k, a, c)
    decreases Union(f, rest), 1
  {
    var F, A := Emit(f, Eps), EmitBranches(rest);
    hide Lang, Match, MatchAlts, LangAny;
    if Match(x, Choice(F, A, k), a, c) {
      var b := ChoiceSplit(x, F, A, k, a, c);
      BranchesMean(x, f, rest, a, b);
      UnionLang(x, f, rest, a, b);
    }
    if Means(x, Union(f, rest), k, a, c) {
      var b :| Lang(x, Union(f, rest), a, b) && Match(x, k, b, c);
      UnionLang(x, f, rest, a, b);
      BranchesMean(x, f, rest, a, b);
      ChoiceJoin(x, F, A, k, a, b, c);
    }
  }

  lemma {:induction false} UnionLang(x: Subject, f: Expr, rest: Branches, a: At, b: At)
    ensures Lang(x, Union(f, rest), a, b) <==> In(x, a) && In(x, b) && (Lang(x, f, a, b) || LangAny(x, rest, a, b))
  {
  }

  lemma {:induction false} ChoiceJoin(x: Subject, f: Re, alts: Alts, k: Re, a: At, b: At, c: At)
    requires MatchChoice(x, f, alts, a, b) && Match(x, k, b, c)
    ensures Match(x, Choice(f, alts, k), a, c)
  {
    MatchChoiceIsIn(x, f, alts, a, b);
    MatchIsIn(x, k, b, c);
  }

  lemma {:induction false} BranchesMean(x: Subject, f: Expr, rest: Branches, a: At, b: At)
    ensures MatchChoice(x, Emit(f, Eps), EmitBranches(rest), a, b)
      <==> In(x, a) && In(x, b) && (Lang(x, f, a, b) || LangAny(x, rest, a, b))
    decreases Union(f, rest), 0
  {
    hide Match, Lang;
    EmitAlone(x, f, a, b);
    AnyMeans(x, rest, a, b);
    if MatchChoice(x, Emit(f, Eps), EmitBranches(rest), a, b) {
      MatchChoiceIsIn(x, Emit(f, Eps), EmitBranches(rest), a, b);
    }
  }

  lemma {:induction false} AnyMeans(x: Subject, bs: Branches, a: At, b: At)
    ensures MatchAlts(x, EmitBranches(bs), a, b) <==> LangAny(x, bs, a, b)
    decreases bs, 4
  {
    hide Match, Lang;
    EmitAlone(x, bs.e, a, b);
    if bs.More? {
      AnyMeans(x, bs.rest, a, b);
    }
  }

  lemma {:induction false} TimesMeans(x: Subject, d: Expr, n: nat, a: At, b: At)
    ensures Iter(x, Emit(d, Eps), n, a, b) <==> Times(x, d, n, a, b)
    decreases d, 4, n
  {
    hide Match, Lang;
    if n > 0 {
      if Iter(x, Emit(d, Eps), n, a, b) {
        var m := IterSplit(x, Emit(d, Eps), n, a, b);
        TimesMeans(x, d, n - 1, a, m);
        EmitAlone(x, d, m, b);
        TimesJoin(x, d, n, a, m, b);
      }
      if Times(x, d, n, a, b) {
        var m := TimesSplit(x, d, n, a, b);
        TimesMeans(x, d, n - 1, a, m);
        EmitAlone(x, d, m, b);
      }
    }
  }

  lemma {:induction false} PlusJoin(x: Subject, body: Re, k: Re, n: nat, a: At, b: At, c: At)
    requires n > 0 && Iter(x, body, n, a, b) && Match(x, k, b, c) && In(x, a)
    ensures Match(x, Plus(body, k), a, c)
  {
    MatchIsIn(x, k, b, c);
    assert Repeated(x, body, a, b);
  }

  lemma {:induction false} Some1Lang(x: Subject, d: Expr, n: nat, a: At, b: At)
    requires n > 0 && Times(x, d, n, a, b) && In(x, a) && In(x, b)
    ensures Lang(x, Some1(d), a, b) && Lang(x, Star(d), a, b)
  {
  }

  lemma {:induction false} PlusMeans(x: Subject, d: Expr, k: Re, a: At, c: At)
    ensures Match(x, Plus(Emit(d, Eps), k), a, c) <==> Means(x, Some1(d), k, a, c)
    decreases Some1(d), 0
  {
    var D := Emit(d, Eps);
    hide Match, Iter, Times, Repeated;
    if Match(x, Plus(D, k), a, c) {
      var b, n := PlusSplit(x, D, k, a, c);
      MatchIsIn(x, Plus(D, k), a, c);
      MatchIsIn(x, k, b, c);
      TimesMeans(x, d, n, a, b);
      Some1Lang(x, d, n, a, b);
    }
    if Means(x, Some1(d), k, a, c) {
      var b :| Lang(x, Some1(d), a, b) && Match(x, k, b, c);
      var n := Some1Split(x, d, a, b);
      TimesMeans(x, d, n, a, b);
      PlusJoin(x, D, k, n, a, b, c);
    }
  }

  lemma {:induction false} QuestJoin(x: Subject, body: Re, k: Re, a: At, b: At, c: At)
    requires (a == b || Match(x, body, a, b)) && Match(x, k, b, c)
    ensures Match(x, Quest(body, k), a, c)
  {
    MatchIsIn(x, k, b, c);
    if a != b { MatchIsIn(x, body, a, b); }
  }

  lemma {:induction false} StarLang(x: Subject, d: Expr, a: At, b: At)
    ensures Lang(x, Star(d), a, b) <==> (a == b && In(x, a)) || Lang(x, Some1(d), a, b)
  {
    if a == b && In(x, a) {
      assert Times(x, d, 0, a, b);
    }
  }

  lemma {:induction false} StarMeans(x: Subject, d: Expr, k: Re, a: At, c: At)
    ensures Match(x, Quest(Plus(Emit(d, Eps), Eps), k), a, c) <==> Means(x, Star(d), k, a, c)
    decreases Star(d), 0
  {
    var P := Plus(Emit(d, Eps), Eps);
    hide Match, Lang;
    if Match(x, Quest(P, k), a, c) {
      var b := QuestSplit(x, P, k, a, c);
      MatchIsIn(x, Quest(P, k), a, c);
      if b != a {
        PlusAlone(x, d, a, b);
      }
      StarLang(x, d, a, b);
    }
    if Means(x, Star(d), k, a, c) {
      var b :| Lang(x, Star(d), a, b) && Match(x, k, b, c);
      StarLang(x, d, a, b);
      if a != b {
        PlusAlone(x, d, a, b);
      }
      QuestJoin(x, P, k, a, b, c);
    }
  }

  lemma {:induction false} PlusAlone(x: Subject, d: Expr, a: At, b: At)
    ensures Match(x, Plus(Emit(d, Eps), Eps), a, b) <==> Lang(x, Some1(d), a, b)
    decreases d, 5
  {
    hide Match, Lang, Iter, Times;
    var D := Emit(d, Eps);
    if Match(x, Plus(D, Eps), a, b) {
      MatchIsIn(x, Plus(D, Eps), a, b);
      var m, n := PlusSplit(x, D, Eps, a, b);
      EpsOnly(x, m, b);
      TimesMeans(x, d, n, a, b);
      Some1Lang(x, d, n, a, b);
    }
    if Lang(x, Some1(d), a, b) {
      var n := Some1Split(x, d, a, b);
      TimesMeans(x, d, n, a, b);
      LangIsIn(x, Some1(d), a, b);
      EpsRefl(x, b);
      PlusJoin(x, D, Eps, n, a, b, b);
    }
  }

  lemma {:induction false} EpsOnly(x: Subject, a: At, b: At)
    requires Match(x, Eps, a, b)
    ensures a == b
  {
  }

  lemma {:induction false} EpsRefl(x: Subject, a: At)
    requires In(x, a)
    ensures Match(x, Eps, a, a)
  {
  }

  lemma {:induction false} Some1Split(x: Subject, d: Expr, a: At, b: At) returns (n: nat)
    requires Lang(x, Some1(d), a, b)
    ensures n > 0 && Times(x, d, n, a, b)
  {
    n :| n > 0 && Times(x, d, n, a, b);
  }

  lemma {:induction false} OptMeans(x: Subject, d: Expr, k: Re, a: At, c: At)
    ensures Match(x, Choice(Emit(d, Eps), Last(Eps), k), a, c) <==> Means(x, Opt(d), k, a, c)
    decreases Opt(d), 0
  {
    var D := Emit(d, Eps);
    hide Match, Lang;
    if Match(x, Choice(D, Last(Eps), k), a, c) {
      var b := ChoiceSplit(x, D, Last(Eps), k, a, c);
      MatchChoiceIsIn(x, D, Last(Eps), a, b);
      EmitAlone(x, d, a, b);
      if !Match(x, D, a, b) {
        EpsOnly(x, a, b);
      }
      OptLang(x, d, a, b);
    }
    if Means(x, Opt(d), k, a, c) {
      var b :| Lang(x, Opt(d), a, b) && Match(x, k, b, c);
      OptLang(x, d, a, b);
      EmitAlone(x, d, a, b);
      if a == b { EpsRefl(x, a); }
      ChoiceJoin(x, D, Last(Eps), k, a, b, c);
    }
  }

  lemma {:induction false} OptLang(x: Subject, d: Expr, a: At, b: At)
    ensures Lang(x, Opt(d), a, b) <==> In(x, a) && In(x, b) && (a == b || Lang(x, d, a, b))
  {
  }

  lemma {:induction false} GroupMeans(x: Subject, n: nat, d: Expr, k: Re, a: At, c: At)
    ensures Match(x, Leaf(LParen(n), Emit(d, Leaf(RParen(n), k))), a, c) <==> Means(x, Group(n, d), k, a, c)
    decreases Group(n, d), 0
  {
    var K := Leaf(RParen(n), k);
    ParenMatch(x, LParen(n), Emit(d, K), a, c);
    EmitMeans(x, d, K, a, c);
    hide Match, Lang;
    if Means(x, d, K, a, c) {
      var b :| Lang(x, d, a, b) && Match(x, K, b, c);
      ParenMatch(x, RParen(n), k, b, c);
      GroupLang(x, n, d, a, b);
    }
    if Means(x, Group(n, d), k, a, c) {
      var b :| Lang(x, Group(n, d), a, b) && Match(x, k, b, c);
      ParenMatch(x, RParen(n), k, b, c);
      GroupLang(x, n, d, a, b);
    }
  }

  lemma {:induction false} ParenMatch(x: Subject, atom: Atom, k: Re, a: At, c: At)
    requires atom.Paren()
    ensures Match(x, Leaf(atom, k), a, c) <==> Match(x, k, a, c)
  {
    if Match(x, k, a, c) { MatchIsIn(x, k, a, c); }
  }

  lemma {:induction false} GroupLang(x: Subject, n: nat, d: Expr, a: At, b: At)
    ensures Lang(x, Group(n, d), a, b) <==> Lang(x, d, a, b)
  {
    if Lang(x, d, a, b) { LangIsIn(x, d, a, b); }
  }

  /** Compiling and laying out keeps the meaning: the paths through the code of an expression
      spell exactly the texts it matches. */
  lemma {:induction false} SpansAreLang(x: Subject, e: Expr, i: nat, j: nat)
    ensures Spans(x, Emit(e, Eps), i, j) <==> LangSpan(x, e, i, j)
  {
    hide Match, Lang;
    EmitAlone(x, e, At(i, false), At(j, false));
    EmitAlone(x, e, At(i, false), At(j, true));
  }

  // ----- what single symbols match, in terms of the text -----

  /** The beginning and the end of a line. */
  predicate LineBegins(x: Subject, p: nat)
    requires x.Valid() && x.begin <= p <= x.end
  {
    if p == x.begin then !x.notbol else x.newline && x.text[p - 1] == '\n'
  }

  predicate LineEnds(x: Subject, p: nat)
    requires x.Valid() && x.begin <= p <= x.end
  {
    if p == x.end then !x.noteol else x.newline && x.text[p] == '\n'
  }

  lemma {:induction false} SymbolMatches(x: Subject, atom: Atom, a: At, b: At)
    requires !atom.Paren()
    ensures Lang(x, Sym(atom), a, b) <==>
      x.Valid() && x.begin <= a.p <= x.end &&
      match atom
      case Chr(c) => a.p < x.end && x.text[a.p] == c && b == At(a.p + 1, false)
      case Any => a.p < x.end && b == At(a.p + 1, false)
      case AnyOf(n) => a.p < x.end && n < |x.sets| && x.text[a.p] in x.sets[n] && b == At(a.p + 1, false)
      case Bol => !a.w && LineBegins(x, a.p) && b == a
      case Eol => !a.w && LineEnds(x, a.p) && b == a
      case Bow =>
        !a.w && a.p < x.end && IsWord(x.text[a.p])
        && (if a.p == x.begin then !x.notbol else !IsWord(x.text[a.p - 1])) && b == At(a.p, true)
      case Eow =>
        !a.w && x.begin < a.p && IsWord(x.text[a.p - 1])
        && (if a.p == x.end then !x.noteol else !IsWord(x.text[a.p])) && b == At(a.p, true)
  {
  }

  const LOWER: string := "abcdefghijklmnopqrstuvwxyz"
  const UPPER: string := "ABCDEFGHIJKLMNOPQRSTUVWXYZ"
  const DIGITS: string := "0123456789"

  lemma {:induction false} Lowers(c: char)
    ensures 'a' <= c <= 'z' <==> c in LOWER
  {
    assert |LOWER| == 26;
    assert forall i :: 0 <= i < 26 ==> LOWER[i] as int == 'a' as int + i;
    if 'a' <= c <= 'z' { assert LOWER[c as int - 'a' as int] == c; }
  }

  lemma {:induction false} Uppers(c: char)
    ensures 'A' <= c <= 'Z' <==> c in UPPER
  {
    assert |UPPER| == 26;
    assert forall i :: 0 <= i < 26 ==> UPPER[i] as int == 'A' as int + i;
    if 'A' <= c <= 'Z' { assert UPPER[c as int - 'A' as int] == c; }
  }

  lemma {:induction false} Digits(c: char)
    ensures '0' <= c <= '9' <==> c in DIGITS
  {
    assert |DIGITS| == 10;
    assert forall i :: 0 <= i < 10 ==> DIGITS[i] as int == '0' as int + i;
    if '0' <= c <= '9' { assert DIGITS[c as int - '0' as int] == c; }
  }

  /** Words are made of these. */
  lemma {:induction false} WordsAreMadeOf(c: char)
    ensures IsWord(c) <==> c in LOWER || c in UPPER || c in DIGITS || c == '_'
  {
    hide LOWER, UPPER, DIGITS;
    Lowers(c);
    Uppers(c);
    Digits(c);
  }
}
