/** How a match is dissected into what the parts of the expression match, and which groups that records. What
    then is in the table is in module Nesting. */
module Groups {
  import opened Strip
  import opened Text
  import opened Regex
  import opened Syntax
  import opened Captures
  import Thompson

  /** Symbols are symbols (parentheses are written with Group). */
  predicate Proper(e: Expr) {
    match e
    case Empty => true
    case Sym(atom) => !atom.Paren()
    case Cat(l, r) => Proper(l) && Proper(r)
    case Union(f, rest) => Proper(f) && ProperAll(rest)
    case Star(d) => Proper(d)
    case Some1(d) => Proper(d)
    case Opt(d) => Proper(d)
    case Group(_, d) => Proper(d)
  }

  predicate ProperAll(bs: Branches) {
    match bs
    case One(e) => Proper(e)
    case More(e, rest) => Proper(e) && ProperAll(rest)
  }

  predicate NoWord(e: Expr) {
    match e
    case Empty => true
    case Sym(atom) => !atom.Bow? && !atom.Eow?
    case Cat(l, r) => NoWord(l) && NoWord(r)
    case Union(f, rest) => NoWord(f) && NoWordAll(rest)
    case Star(d) => NoWord(d)
    case Some1(d) => NoWord(d)
    case Opt(d) => NoWord(d)
    case Group(_, d) => NoWord(d)
  }

  predicate NoWordAll(bs: Branches) {
    match bs
    case One(e) => NoWord(e)
    case More(e, rest) => NoWord(e) && NoWordAll(rest)
  }

  function Numbers(e: Expr): set<nat> {
    match e
    case Empty => {}
    case Sym(_) => {}
    case Cat(l, r) => Numbers(l) + Numbers(r)
    case Union(f, rest) => Numbers(f) + NumbersAll(rest)
    case Star(d) => Numbers(d)
    case Some1(d) => Numbers(d)
    case Opt(d) => Numbers(d)
    case Group(n, d) => {n} + Numbers(d)
  }

  function NumbersAll(bs: Branches): set<nat> {
    match bs
    case One(e) => Numbers(e)
    case More(e, rest) => Numbers(e) + NumbersAll(rest)
  }

  /** Without word boundaries no mark is left. */
  lemma {:induction false} NoMark(x: Subject, e: Expr, a: At, b: At)
    requires NoWord(e) && Proper(e) && !a.w && Lang(x, e, a, b)
    ensures !b.w
    decreases e, 1
  {
    hide Times;
    match e
    case Empty =>
    case Sym(atom) =>
    case Cat(l, r) =>
      var m := CatSplit(x, l, r, a, b);
      NoMark(x, l, a, m);
      NoMark(x, r, m, b);
    case Union(f, rest) => if Lang(x, f, a, b) { NoMark(x, f, a, b); } else { NoMarkAny(x, rest, a, b); }
    case Star(d) =>
      if a != b {
        StarLang(x, d, a, b);
        var n := Some1Split(x, d, a, b);
        NoMarkTimes(x, d, n, a, b);
      }
    case Some1(d) =>
      var n := Some1Split(x, d, a, b);
      NoMarkTimes(x, d, n, a, b);
    case Opt(d) => if a != b { NoMark(x, d, a, b); }
    case Group(_, d) => NoMark(x, d, a, b);
  }

  lemma {:induction false} NoMarkAny(x: Subject, bs: Branches, a: At, b: At)
    requires NoWordAll(bs) && ProperAll(bs) && !a.w && LangAny(x, bs, a, b)
    ensures !b.w
    decreases bs, 1
  {
    hide Lang;
    match bs
    case One(e) => NoMark(x, e, a, b);
    case More(e, rest) => if Lang(x, e, a, b) { NoMark(x, e, a, b); } else { NoMarkAny(x, rest, a, b); }
  }

  lemma {:induction false} NoMarkTimes(x: Subject, d: Expr, n: nat, a: At, b: At)
    requires NoWord(d) && Proper(d) && !a.w && Times(x, d, n, a, b)
    ensures !b.w
    decreases d, 2, n
  {
    if n > 0 {
      var m := TimesSplit(x, d, n, a, b);
      NoMarkTimes(x, d, n - 1, a, m);
      NoMark(x, d, m, b);
    }
  }

  lemma {:induction false} CatSpan(x: Subject, l: Expr, r: Expr, i: nat, m: nat, j: nat)
    requires NoWord(l) && Proper(l) && LangSpan(x, l, i, m) && LangSpan(x, r, m, j)
    ensures LangSpan(x, Cat(l, r), i, j)
  {
    hide Lang;
    if Lang(x, l, At(i, false), At(m, true)) {
      NoMark(x, l, At(i, false), At(m, true));
    }
    if Lang(x, r, At(m, false), At(j, false)) {
      CatLang(x, l, r, At(i, false), At(m, false), At(j, false));
    } else {
      CatLang(x, l, r, At(i, false), At(m, false), At(j, true));
    }
  }

  // ----- what dissecting records -----

  /** How a text was divided among the parts of an expression: at `q` between the two of a concatenation, from
      `so` to `eo` for the pass of a loop that is recorded, and for a group. */
  datatype Tree = Nil | Both(q: nat, l: Tree, r: Tree) | Pass(so: nat, eo: nat, inner: Tree)
                | Node(n: nat, so: nat, eo: nat, inner: Tree)

  /** A division of [i, j] among the parts of `e`, in which every part matches what falls to it. Of parts with
      word boundaries that is not said: there, two may match their pieces without both in a row matching the
      whole. */
  ghost predicate Parsed(x: Subject, e: Expr, i: nat, j: nat, t: Tree)
    decreases e
  {
    i <= j && (NoWord(e) ==> LangSpan(x, e, i, j)) &&
    match e
    case Empty => t.Nil?
    case Sym(_) => t.Nil?
    case Cat(l, r) => t.Both? && Parsed(x, l, i, t.q, t.l) && Parsed(x, r, t.q, j, t.r)
    case Union(f, rest) =>
      Parsed(x, f, i, j, t) || (!Spans(x, Emit(f, Eps), i, j) && ParsedAny(x, rest, i, j, t))
    case Star(d) =>
      if t.Nil? then !Spans(x, Plus(Emit(d, Eps), Eps), i, j)
      else t.Pass? && IsLast(x, Emit(d, Eps), i, j, t.so, t.eo) && Parsed(x, d, t.so, t.eo, t.inner)
    case Some1(d) =>
      t.Pass? && IsLast(x, Emit(d, Eps), i, j, t.so, t.eo) && Parsed(x, d, t.so, t.eo, t.inner)
    case Opt(d) => Parsed(x, d, i, j, t) || (t.Nil? && !Spans(x, Emit(d, Eps), i, j))
    case Group(n, d) =>
      t.Node? && t.n == n && t.so == i && t.eo == j && Parsed(x, d, i, j, t.inner)
  }

  ghost predicate ParsedAny(x: Subject, bs: Branches, i: nat, j: nat, t: Tree)
    decreases bs
  {
    match bs
    case One(e) => Parsed(x, e, i, j, t)
    case More(e, rest) =>
      Parsed(x, e, i, j, t) || (!Spans(x, Emit(e, Eps), i, j) && ParsedAny(x, rest, i, j, t))
  }

  /** A longest match of the body, from `so` to `eo`, among those that end by `j`. */
  ghost predicate IsLongest(x: Subject, b: Re, so: nat, eo: nat, j: nat) {
    Spans(x, b, so, eo) && so <= eo <= j && forall q: nat :: eo < q <= j ==> !Spans(x, b, so, q)
  }

  /** One gets from `i` to `so` by longest matches, each of which takes some text. */
  ghost predicate Walked(x: Subject, b: Re, i: nat, so: nat, j: nat)
    decreases so - i
  {
    i == so || exists q: nat :: i < q <= so && IsLongest(x, b, i, q, j) && Walked(x, b, q, so, j)
  }

  /** The pass of a loop over [i, j] that is recorded: the one such a walk ends with, because nothing more, or
      nothing but the empty text, is matched behind it. */
  ghost predicate IsLast(x: Subject, b: Re, i: nat, j: nat, so: nat, eo: nat) {
    i <= so && Walked(x, b, i, so, j) && IsLongest(x, b, so, eo, j)
    && (so == eo || forall q: nat :: eo <= q <= j ==> !Spans(x, b, eo, q))
  }

  lemma {:induction false} OneMorePass(x: Subject, b: Re, i: nat, so: nat, eo: nat, j: nat)
    requires i <= so < eo && Walked(x, b, i, so, j) && IsLongest(x, b, so, eo, j)
    ensures Walked(x, b, i, eo, j)
    decreases so - i
  {
    hide Spans, IsLongest;
    if i == so {
      assert Walked(x, b, eo, eo, j);
    } else {
      var q: nat :| i < q <= so && IsLongest(x, b, i, q, j) && Walked(x, b, q, so, j);
      OneMorePass(x, b, q, so, eo, j);
    }
  }

  /** What the loop of `dissect` finds is that pass. */
  lemma {:induction false} LastPassIsLast(x: Subject, b: Re, i: nat, ssp: nat, oldssp: nat, j: nat)
    requires i <= oldssp <= ssp <= j && Walked(x, b, i, oldssp, j)
    requires if oldssp < ssp then IsLongest(x, b, oldssp, ssp, j) else LongestEnd(x, b, ssp, j).Some?
    ensures var last := LastPass(x, b, ssp, oldssp, j); IsLast(x, b, i, j, last.0, last.1)
    decreases j - ssp
  {
    hide Spans;
    match LongestEnd(x, b, ssp, j)
    case None =>
    case Some(sep) =>
      if oldssp < ssp { OneMorePass(x, b, i, oldssp, ssp, j); }
      if sep != ssp { LastPassIsLast(x, b, i, sep, ssp, j); }
  }

  /** The table after recording such a division, part by part. */
  function Write(t: Tree, pm: seq<Span>): (r: seq<Span>)
    ensures |r| == |pm|
  {
    match t
    case Nil => pm
    case Both(_, l, r) => Write(r, Write(l, pm))
    case Pass(_, _, inner) => Write(inner, pm)
    case Node(n, so, eo, inner) => SetEo(Write(inner, SetSo(pm, n, so)), n, eo)
  }

  /** What takes as long a piece as it can. */
  predicate Greedy(e: Expr) { e.Union? || e.Star? || e.Some1? || e.Opt? }

  /** How the text from `i` is divided between `e` and what follows, and among the parts of `e`. */
  ghost predicate Done(x: Subject, e: Expr, k: Re, i: nat, j: nat, pm: seq<Span>, m: nat, t: Tree) {
    i <= m <= j && Spans(x, k, m, j) && Parsed(x, e, i, m, t)
    && (Greedy(e) ==> forall q: nat :: m < q <= j ==> !(Spans(x, Emit(e, Eps), i, q) && Spans(x, k, q, j)))
    && Captured(x, Emit(e, k), i, j, pm) == Captured(x, k, m, j, Write(t, pm))
  }

  lemma {:induction false} Recorded(x: Subject, e: Expr, k: Re, i: nat, j: nat, pm: seq<Span>)
    returns (m: nat, t: Tree)
    requires Proper(e) && Spans(x, Emit(e, k), i, j)
    ensures Done(x, e, k, i, j, pm, m, t)
    decreases e, 2
  {
    hide Spans, LangSpan, Captured, Done, Parsed;
    match e
    case Empty =>
      m, t := i, Nil;
      RecordedEmpty(x, k, i, j, pm);
    case Sym(atom) =>
      m, t := if Takes(atom) then i + 1 else i, Nil;
      RecordedSym(x, atom, k, i, j, pm);
    case Cat(l, r) => m, t := RecordedCat(x, l, r, k, i, j, pm);
    case Union(f, rest) => m, t := RecordedUnion(x, f, rest, k, i, j, pm);
    case Star(d) => m, t := RecordedStar(x, d, k, i, j, pm);
    case Some1(d) => m, t := RecordedPlus(x, d, k, i, j, pm);
    case Opt(d) => m, t := RecordedOpt(x, d, k, i, j, pm);
    case Group(n, d) => m, t := RecordedGroup(x, n, d, k, i, j, pm);
  }

  /** The same for an expression that has to account for all of [i, j]. */
  lemma {:induction false} RecordedAlone(x: Subject, e: Expr, i: nat, j: nat, pm: seq<Span>) returns (t: Tree)
    requires Proper(e) && Spans(x, Emit(e, Eps), i, j)
    ensures Write(t, pm) == Captured(x, Emit(e, Eps), i, j, pm) && Parsed(x, e, i, j, t)
    decreases e, 3
  {
    hide LangSpan, Parsed;
    var m, t0 := Recorded(x, e, Eps, i, j, pm);
    EpsSpan(x, m, j);
    t := t0;
  }

  lemma {:induction false} EpsSpan(x: Subject, m: nat, j: nat)
    requires Spans(x, Eps, m, j)
    ensures m == j
  {
  }

  lemma {:induction false} RecordedEmpty(x: Subject, k: Re, i: nat, j: nat, pm: seq<Span>)
    requires Spans(x, k, i, j)
    ensures Done(x, Empty, k, i, j, pm, i, Nil)
  {
    hide Spans, Captured;
    SpanIsIn(x, k, i, j);
    assert Lang(x, Empty, At(i, false), At(i, false));
  }

  lemma {:induction false} RecordedSym(x: Subject, atom: Atom, k: Re, i: nat, j: nat, pm: seq<Span>)
    requires !atom.Paren() && Spans(x, Leaf(atom, k), i, j)
    ensures Done(x, Sym(atom), k, i, j, pm, if Takes(atom) then i + 1 else i, Nil)
  {
    hide Match, Spans;
    LeafSpan(x, atom, k, i, j);
    SpanIsIn(x, k, if Takes(atom) then i + 1 else i, j);
    var b := EndOf(x, Leaf(atom, k), i, j);
    Thompson.LeafSplit(x, atom, k, At(i, false), b);
    var c := Moves(x, atom, At(i, false)).value;
    assert c == At(if Takes(atom) then i + 1 else i, c.w);
    assert Lang(x, Sym(atom), At(i, false), c);
  }

  lemma {:induction false} RecordedCat(x: Subject, l: Expr, r: Expr, k: Re, i: nat, j: nat, pm: seq<Span>)
    returns (m: nat, t: Tree)
    requires Proper(Cat(l, r)) && Spans(x, Emit(l, Emit(r, k)), i, j)
    ensures Done(x, Cat(l, r), k, i, j, pm, m, t)
    decreases Cat(l, r), 0
  {
    hide Spans, LangSpan, Captured;
    var q, t1 := Recorded(x, l, Emit(r, k), i, j, pm);
    var m1, t2 := Recorded(x, r, k, q, j, Write(t1, pm));
    m, t := m1, Both(q, t1, t2);
    if NoWord(Cat(l, r)) { CatSpan(x, l, r, i, q, m); }
  }

  lemma {:induction false} RecordedUnion(x: Subject, f: Expr, rest: Branches, k: Re, i: nat, j: nat, pm: seq<Span>)
    returns (m: nat, t: Tree)
    requires Proper(Union(f, rest)) && Spans(x, Emit(Union(f, rest), k), i, j)
    ensures Done(x, Union(f, rest), k, i, j, pm, m, t)
    decreases Union(f, rest), 0
  {
    var F, A := Emit(f, Eps), EmitBranches(rest);
    m := SplitOf(x, Choice(F, A, k), i, j);
    SpansAreLang(x, Union(f, rest), i, m);
    ChoiceBody(x, F, A, i, m);
    hide Spans, LangSpan;
    if Spans(x, F, i, m) {
      t := RecordedAlone(x, f, i, m, pm);
    } else {
      t := RecordedAny(x, rest, i, m, pm);
    }
  }

  lemma {:induction false} RecordedAny(x: Subject, bs: Branches, i: nat, j: nat, pm: seq<Span>) returns (t: Tree)
    requires ProperAll(bs) && SpansAlts(x, EmitBranches(bs), i, j)
    ensures Write(t, pm) == CapturedAlts(x, EmitBranches(bs), i, j, pm) && ParsedAny(x, bs, i, j, t)
    decreases bs, 4
  {
    hide Spans, Captured, Parsed;
    match bs
    case One(e) => t := RecordedAlone(x, e, i, j, pm);
    case More(e, rest) =>
      if Spans(x, Emit(e, Eps), i, j) {
        t := RecordedAlone(x, e, i, j, pm);
      } else {
        t := RecordedAny(x, rest, i, j, pm);
      }
  }

  /** Where `dissect` divides the text between a construct and what follows it. */
  lemma {:induction false} SplitOf(x: Subject, r: Re, i: nat, j: nat) returns (m: nat)
    requires Bracket(r) && Spans(x, r, i, j)
    ensures SplitPoint(x, Head(r), r.next, i, j, j) == Some(m)
    ensures i <= m <= j && Spans(x, Head(r), i, m) && Spans(x, r.next, m, j)
    ensures forall q: nat :: m < q <= j ==> !(Spans(x, Head(r), i, q) && Spans(x, r.next, q, j))
  {
    hide Spans;
    SplitExists(x, r, i, j);
    m := SplitPoint(x, Head(r), r.next, i, j, j).value;
  }

  /** The last pass of a loop that has to account for all of [i, j]. */
  lemma {:induction false} LoopAlone(x: Subject, d: Expr, i: nat, j: nat, pm: seq<Span>) returns (t: Tree)
    requires Proper(d) && Spans(x, Plus(Emit(d, Eps), Eps), i, j)
    ensures Write(t, pm) == var last := LastPass(x, Emit(d, Eps), i, i, j);
            Captured(x, Emit(d, Eps), last.0, last.1, pm)
    ensures t.Pass? && IsLast(x, Emit(d, Eps), i, j, t.so, t.eo) && Parsed(x, d, t.so, t.eo, t.inner)
    decreases d, 4
  {
    hide Spans, Captured, Parsed, IsLast;
    var D := Emit(d, Eps);
    SpanIsIn(x, Plus(D, Eps), i, j);
    PlusBodyStarts(x, D, i, j);
    LastPassSpans(x, D, i, i, j);
    LastPassIsLast(x, D, i, i, i, j);
    var last := LastPass(x, D, i, i, j);
    var inner := RecordedAlone(x, d, last.0, last.1, pm);
    t := Pass(last.0, last.1, inner);
  }

  lemma {:induction false} RecordedPlus(x: Subject, d: Expr, k: Re, i: nat, j: nat, pm: seq<Span>)
    returns (m: nat, t: Tree)
    requires Proper(Some1(d)) && Spans(x, Plus(Emit(d, Eps), k), i, j)
    ensures Done(x, Some1(d), k, i, j, pm, m, t)
    decreases Some1(d), 0
  {
    m := SplitOf(x, Plus(Emit(d, Eps), k), i, j);
    SpansAreLang(x, Some1(d), i, m);
    hide Spans, LangSpan;
    t := LoopAlone(x, d, i, m, pm);
  }

  lemma {:induction false} RecordedStar(x: Subject, d: Expr, k: Re, i: nat, j: nat, pm: seq<Span>)
    returns (m: nat, t: Tree)
    requires Proper(Star(d)) && Spans(x, Quest(Plus(Emit(d, Eps), Eps), k), i, j)
    ensures Done(x, Star(d), k, i, j, pm, m, t)
    decreases Star(d), 0
  {
    var P := Plus(Emit(d, Eps), Eps);
    m := SplitOf(x, Quest(P, k), i, j);
    SpansAreLang(x, Star(d), i, m);
    QuestBody(x, P, i, m);
    hide Spans, LangSpan;
    if LongestEnd(x, P, i, m).Some? {
      t := LoopAlone(x, d, i, m, pm);
      PlusIsAll(x, Emit(d, Eps), i, m, pm);
    } else {
      t := Nil;
    }
  }

  lemma {:induction false} PlusIsAll(x: Subject, b: Re, i: nat, j: nat, pm: seq<Span>)
    requires Spans(x, Plus(b, Eps), i, j)
    ensures Captured(x, Plus(b, Eps), i, j, pm) == var last := LastPass(x, b, i, i, j);
            Captured(x, b, last.0, last.1, pm)
  {
    hide Spans, LastPass;
    var m := SplitOf(x, Plus(b, Eps), i, j);
    EpsSpan(x, m, j);
  }

  lemma {:induction false} RecordedOpt(x: Subject, d: Expr, k: Re, i: nat, j: nat, pm: seq<Span>)
    returns (m: nat, t: Tree)
    requires Proper(Opt(d)) && Spans(x, Choice(Emit(d, Eps), Last(Eps), k), i, j)
    ensures Done(x, Opt(d), k, i, j, pm, m, t)
    decreases Opt(d), 0
  {
    var D := Emit(d, Eps);
    m := SplitOf(x, Choice(D, Last(Eps), k), i, j);
    assert CapturedAlts(x, Last(Eps), i, m, pm) == Captured(x, Eps, i, m, pm) == pm;
    SpansAreLang(x, Opt(d), i, m);
    hide Spans, LangSpan;
    if Spans(x, D, i, m) {
      t := RecordedAlone(x, d, i, m, pm);
    } else {
      t := Nil;
    }
  }

  lemma {:induction false} RecordedGroup(x: Subject, n: nat, d: Expr, k: Re, i: nat, j: nat, pm: seq<Span>)
    returns (m: nat, t: Tree)
    requires Proper(Group(n, d)) && Spans(x, Leaf(LParen(n), Emit(d, Leaf(RParen(n), k))), i, j)
    ensures Done(x, Group(n, d), k, i, j, pm, m, t)
    decreases Group(n, d), 0
  {
    var K := Leaf(RParen(n), k);
    LeafSpan(x, LParen(n), Emit(d, K), i, j);
    var m1, t1 := Recorded(x, d, K, i, j, SetSo(pm, n, i));
    m, t := m1, Node(n, i, m1, t1);
    LeafSpan(x, RParen(n), k, m, j);
    hide Spans, Lang;
    GroupLang(x, n, d, At(i, false), At(m, false));
    GroupLang(x, n, d, At(i, false), At(m, true));
  }
}
