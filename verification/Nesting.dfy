/** What the table of subexpressions means after a match has been dissected: what a group is reported to have
    matched it has matched, also when it was copied with its number, and where copies record all their groups or
    none the groups are well nested. */
module Nesting {
  import opened Text
  import opened Regex
  import opened Syntax
  import opened Captures
  import opened Groups

  // ----- the groups of an expression -----

  function GroupsIn(e: Expr): (s: set<Expr>)
    ensures forall g :: g in s ==> g.Group?
    decreases e
  {
    match e
    case Empty => {}
    case Sym(_) => {}
    case Cat(l, r) => GroupsIn(l) + GroupsIn(r)
    case Union(f, rest) => GroupsIn(f) + GroupsInAll(rest)
    case Star(d) => GroupsIn(d)
    case Some1(d) => GroupsIn(d)
    case Opt(d) => GroupsIn(d)
    case Group(n, d) => {e} + GroupsIn(d)
  }

  function GroupsInAll(bs: Branches): (s: set<Expr>)
    ensures forall g :: g in s ==> g.Group?
    decreases bs
  {
    match bs
    case One(e) => GroupsIn(e)
    case More(e, rest) => GroupsIn(e) + GroupsInAll(rest)
  }

  /** Groups of the same number are copies of one another. */
  predicate Alike(e: Expr) {
    forall g, h :: g in GroupsIn(e) && h in GroupsIn(e) && g.n == h.n ==> g == h
  }

  function Size(e: Expr): nat
    decreases e
  {
    match e
    case Empty => 0
    case Sym(_) => 0
    case Cat(l, r) => 1 + Size(l) + Size(r)
    case Union(f, rest) => 1 + Size(f) + SizeAll(rest)
    case Star(d) => 1 + Size(d)
    case Some1(d) => 1 + Size(d)
    case Opt(d) => 1 + Size(d)
    case Group(_, d) => 1 + Size(d)
  }

  function SizeAll(bs: Branches): nat
    decreases bs
  {
    match bs
    case One(e) => 1 + Size(e)
    case More(e, rest) => 1 + Size(e) + SizeAll(rest)
  }

  /** The groups within one of its groups are among those of an expression, and smaller. */
  lemma {:induction false} GroupsWithin(e: Expr, g: Expr)
    requires g in GroupsIn(e)
    ensures g in GroupsIn(g) && GroupsIn(g) <= GroupsIn(e) && Size(g) <= Size(e)
    decreases e
  {
    match e
    case Cat(l, r) => if g in GroupsIn(l) { GroupsWithin(l, g); } else { GroupsWithin(r, g); }
    case Union(f, rest) => if g in GroupsIn(f) { GroupsWithin(f, g); } else { GroupsWithinAll(rest, g); }
    case Star(d) => GroupsWithin(d, g);
    case Some1(d) => GroupsWithin(d, g);
    case Opt(d) => GroupsWithin(d, g);
    case Group(_, d) => if g != e { GroupsWithin(d, g); }
  }

  lemma {:induction false} GroupsWithinAll(bs: Branches, g: Expr)
    requires g in GroupsInAll(bs)
    ensures g in GroupsIn(g) && GroupsIn(g) <= GroupsInAll(bs) && Size(g) <= SizeAll(bs)
    decreases bs
  {
    if g in GroupsIn(bs.e) { GroupsWithin(bs.e, g); } else { GroupsWithinAll(bs.rest, g); }
  }

  lemma {:induction false} NoneInItself(g: Expr)
    requires g.Group?
    ensures g !in GroupsIn(g.e)
  {
    if g in GroupsIn(g.e) { GroupsWithin(g.e, g); }
  }

  lemma {:induction false} NumbersAre(e: Expr, n: nat)
    ensures n in Numbers(e) <==> exists g :: g in GroupsIn(e) && g.n == n
    decreases e
  {
    match e
    case Empty =>
    case Sym(_) =>
    case Cat(l, r) => NumbersAre(l, n); NumbersAre(r, n);
    case Union(f, rest) => NumbersAre(f, n); NumbersAreAll(rest, n);
    case Star(d) => NumbersAre(d, n);
    case Some1(d) => NumbersAre(d, n);
    case Opt(d) => NumbersAre(d, n);
    case Group(k, d) => NumbersAre(d, n); assert e in GroupsIn(e);
  }

  lemma {:induction false} NumbersAreAll(bs: Branches, n: nat)
    ensures n in NumbersAll(bs) <==> exists g :: g in GroupsInAll(bs) && g.n == n
    decreases bs
  {
    NumbersAre(bs.e, n);
    if bs.More? { NumbersAreAll(bs.rest, n); }
  }

  /** A division of [i, j] among the parts of `e`, whatever its symbols match. */
  predicate Shaped(e: Expr, i: nat, j: nat, t: Tree)
    decreases e
  {
    i <= j &&
    match e
    case Empty => t.Nil?
    case Sym(_) => t.Nil?
    case Cat(l, r) => t.Both? && Shaped(l, i, t.q, t.l) && Shaped(r, t.q, j, t.r)
    case Union(f, rest) => Shaped(f, i, j, t) || ShapedAny(rest, i, j, t)
    case Star(d) => t.Nil? || (t.Pass? && i <= t.so && t.eo <= j && Shaped(d, t.so, t.eo, t.inner))
    case Some1(d) => t.Pass? && i <= t.so && t.eo <= j && Shaped(d, t.so, t.eo, t.inner)
    case Opt(d) => t.Nil? || Shaped(d, i, j, t)
    case Group(n, d) => t.Node? && t.n == n && t.so == i && t.eo == j && Shaped(d, i, j, t.inner)
  }

  predicate ShapedAny(bs: Branches, i: nat, j: nat, t: Tree)
    decreases bs
  {
    match bs
    case One(e) => Shaped(e, i, j, t)
    case More(e, rest) => Shaped(e, i, j, t) || ShapedAny(rest, i, j, t)
  }

  lemma {:induction false} ParsedIsShaped(x: Subject, e: Expr, i: nat, j: nat, t: Tree)
    requires Parsed(x, e, i, j, t)
    ensures Shaped(e, i, j, t)
    decreases e
  {
    hide LangSpan, NoWord;
    match e
    case Empty =>
    case Sym(_) =>
    case Cat(l, r) => ParsedIsShaped(x, l, i, t.q, t.l); ParsedIsShaped(x, r, t.q, j, t.r);
    case Union(f, rest) =>
      if Parsed(x, f, i, j, t) { ParsedIsShaped(x, f, i, j, t); } else { ParsedIsShapedAny(x, rest, i, j, t); }
    case Star(d) => if t.Pass? { ParsedIsShaped(x, d, t.so, t.eo, t.inner); }
    case Some1(d) => ParsedIsShaped(x, d, t.so, t.eo, t.inner);
    case Opt(d) => if !t.Nil? { ParsedIsShaped(x, d, i, j, t); }
    case Group(_, d) => ParsedIsShaped(x, d, i, j, t.inner);
  }

  lemma {:induction false} ParsedIsShapedAny(x: Subject, bs: Branches, i: nat, j: nat, t: Tree)
    requires ParsedAny(x, bs, i, j, t)
    ensures ShapedAny(bs, i, j, t)
    decreases bs
  {
    hide Parsed;
    if Parsed(x, bs.e, i, j, t) { ParsedIsShaped(x, bs.e, i, j, t); } else { ParsedIsShapedAny(x, bs.rest, i, j, t); }
  }

  /** The branch of a choice that was taken. */
  lemma {:induction false} BranchTaken(bs: Branches, i: nat, j: nat, t: Tree) returns (b: Expr)
    requires ShapedAny(bs, i, j, t)
    ensures Shaped(b, i, j, t) && Size(b) < SizeAll(bs) && GroupsIn(b) <= GroupsInAll(bs)
    ensures AlwaysAll(bs) <= Always(b) && (OrderlyAll(bs) ==> Orderly(b) && Tops(b) <= TopsAll(bs))
    ensures OrderlyAll(bs) ==> forall a :: a in TopsAll(bs) ==> a in Tops(b) || Apart({a}, Tops(b))
    decreases bs
  {
    hide Shaped, Orderly, Tops, Always, GroupsIn;
    b := bs.e;
    if !Shaped(bs.e, i, j, t) { b := BranchTaken(bs.rest, i, j, t); }
  }

  // ----- what is written where -----

  function Wrote(t: Tree): set<nat> {
    match t
    case Nil => {}
    case Both(_, l, r) => Wrote(l) + Wrote(r)
    case Pass(_, _, inner) => Wrote(inner)
    case Node(n, _, _, inner) => {n} + Wrote(inner)
  }

  lemma {:induction false} NotWritten(t: Tree, pm: seq<Span>, n: nat)
    requires n < |pm| && n !in Wrote(t)
    ensures Write(t, pm)[n] == pm[n]
    decreases t
  {
    match t
    case Nil =>
    case Both(_, l, r) => NotWritten(l, pm, n); NotWritten(r, Write(l, pm), n);
    case Pass(_, _, inner) => NotWritten(inner, pm, n);
    case Node(k, so, _, inner) => NotWritten(inner, SetSo(pm, k, so), n);
  }

  /** What is written belongs to a group of the expression. */
  lemma {:induction false} WrittenGroup(e: Expr, i: nat, j: nat, t: Tree, n: nat) returns (g: Expr)
    requires Shaped(e, i, j, t) && n in Wrote(t)
    ensures g in GroupsIn(e) && g.n == n
    decreases Size(e)
  {
    hide Orderly, Tops, Always;
    match e
    case Cat(l, r) =>
      if n in Wrote(t.l) { g := WrittenGroup(l, i, t.q, t.l, n); } else { g := WrittenGroup(r, t.q, j, t.r, n); }
    case Union(f, rest) =>
      var b := BranchTaken(More(f, rest), i, j, t);
      g := WrittenGroup(b, i, j, t, n);
    case Star(d) => g := WrittenGroup(d, t.so, t.eo, t.inner, n);
    case Some1(d) => g := WrittenGroup(d, t.so, t.eo, t.inner, n);
    case Opt(d) => g := WrittenGroup(d, i, j, t, n);
    case Group(k, d) => if n == k { g := e; } else { g := WrittenGroup(d, i, j, t.inner, n); }
  }

  /** A group of that number is that group. */
  lemma {:induction false} WrittenIs(a: Expr, e: Expr, i: nat, j: nat, t: Tree, g: Expr)
    requires Shaped(e, i, j, t) && Alike(a) && GroupsIn(e) <= GroupsIn(a) && g in GroupsIn(a) && g.n in Wrote(t)
    ensures g in GroupsIn(e)
  {
    var h := WrittenGroup(e, i, j, t, g.n);
    assert h in GroupsIn(a);
  }

  /** A group's entry lies within [i, j], and its body matches just that. */
  ghost predicate Taken(x: Subject, g: Expr, i: int, j: int, pm: seq<Span>)
    requires g.Group?
  {
    g.n < |pm| && 0 <= i <= pm[g.n].so <= pm[g.n].eo <= j
    && (NoWord(g.e) ==> LangSpan(x, g.e, pm[g.n].so, pm[g.n].eo))
  }

  /** Where an entry lies that is written within an expression whose groups are among those of `a`. */
  lemma {:induction false} WrittenWhere(a: Expr, e: Expr, i: nat, j: nat, t: Tree, pm: seq<Span>, g: Expr)
    requires Shaped(e, i, j, t) && Alike(a) && GroupsIn(e) <= GroupsIn(a) && g in GroupsIn(a) && g.n in Wrote(t)
    requires g.n < |pm|
    ensures var s := Write(t, pm)[g.n]; i <= s.so <= s.eo <= j
    decreases Size(e)
  {
    hide Orderly, Tops, Always;
    match e
    case Cat(l, r) =>
      if g.n in Wrote(t.r) {
        WrittenWhere(a, r, t.q, j, t.r, Write(t.l, pm), g);
      } else {
        WrittenWhere(a, l, i, t.q, t.l, pm, g);
        NotWritten(t.r, Write(t.l, pm), g.n);
      }
      ShapedForward(l, i, t.q, t.l);
      ShapedForward(r, t.q, j, t.r);
    case Union(f, rest) =>
      var b := BranchTaken(More(f, rest), i, j, t);
      WrittenWhere(a, b, i, j, t, pm, g);
    case Star(d) => WrittenWhere(a, d, t.so, t.eo, t.inner, pm, g);
    case Some1(d) => WrittenWhere(a, d, t.so, t.eo, t.inner, pm, g);
    case Opt(d) => WrittenWhere(a, d, i, j, t, pm, g);
    case Group(n, d) =>
      if g.n == n { OwnEntry(a, e, i, j, t, pm); } else { WrittenWhere(a, d, i, j, t.inner, SetSo(pm, n, i), g); }
  }

  lemma {:induction false} ShapedForward(e: Expr, i: nat, j: nat, t: Tree)
    requires Shaped(e, i, j, t)
    ensures i <= j
  {
  }

  /** And that the group matches just that. */
  lemma {:induction false} Written(x: Subject, a: Expr, e: Expr, i: nat, j: nat, t: Tree, pm: seq<Span>, g: Expr)
    requires Parsed(x, e, i, j, t) && Alike(a) && GroupsIn(e) <= GroupsIn(a) && g in GroupsIn(a) && g.n in Wrote(t)
    requires g.n < |pm|
    ensures Taken(x, g, i, j, Write(t, pm))
    decreases Size(e)
  {
    hide LangSpan, Orderly, Tops, Always, Shaped;
    ParsedIsShaped(x, e, i, j, t);
    WrittenWhere(a, e, i, j, t, pm, g);
    match e
    case Cat(l, r) =>
      if g.n in Wrote(t.r) {
        Written(x, a, r, t.q, j, t.r, Write(t.l, pm), g);
      } else {
        Written(x, a, l, i, t.q, t.l, pm, g);
        NotWritten(t.r, Write(t.l, pm), g.n);
      }
    case Union(f, rest) =>
      var b := ParsedBranch(x, More(f, rest), i, j, t);
      Written(x, a, b, i, j, t, pm, g);
    case Star(d) => Written(x, a, d, t.so, t.eo, t.inner, pm, g);
    case Some1(d) => Written(x, a, d, t.so, t.eo, t.inner, pm, g);
    case Opt(d) => Written(x, a, d, i, j, t, pm, g);
    case Group(n, d) =>
      if g.n == n { OwnSpan(x, a, e, i, j, t, pm, g); } else { Written(x, a, d, i, j, t.inner, SetSo(pm, n, i), g); }
  }

  lemma {:induction false} OwnSpan(x: Subject, a: Expr, e: Expr, i: nat, j: nat, t: Tree, pm: seq<Span>, g: Expr)
    requires e.Group? && Parsed(x, e, i, j, t) && Alike(a) && GroupsIn(e) <= GroupsIn(a) && g in GroupsIn(a)
    requires g.n == e.n < |pm|
    ensures Taken(x, g, i, j, Write(t, pm))
  {
    hide LangSpan, Orderly, Tops, Always, Shaped;
    assert e in GroupsIn(e);
    ParsedIsShaped(x, e, i, j, t);
    OwnEntry(a, e, i, j, t, pm);
  }

  lemma {:induction false} ParsedBranch(x: Subject, bs: Branches, i: nat, j: nat, t: Tree) returns (b: Expr)
    requires ParsedAny(x, bs, i, j, t)
    ensures Parsed(x, b, i, j, t) && Size(b) < SizeAll(bs) && GroupsIn(b) <= GroupsInAll(bs)
    decreases bs
  {
    hide Parsed, GroupsIn;
    b := bs.e;
    if !Parsed(x, bs.e, i, j, t) { b := ParsedBranch(x, bs.rest, i, j, t); }
  }

  lemma {:induction false} OwnEntry(a: Expr, e: Expr, i: nat, j: nat, t: Tree, pm: seq<Span>)
    requires e.Group? && Shaped(e, i, j, t) && Alike(a) && GroupsIn(e) <= GroupsIn(a) && e.n < |pm|
    ensures Write(t, pm)[e.n] == Span(i, j)
  {
    hide Orderly, Tops, Always;
    assert e in GroupsIn(e);
    if e.n in Wrote(t.inner) {
      NoneInItself(e);
      WrittenIs(a, e.e, i, j, t.inner, e);
    }
    NotWritten(t.inner, SetSo(pm, e.n, i), e.n);
  }

  predicate Unset(pm: seq<Span>, ns: set<nat>) {
    forall n :: n in ns ==> n < |pm| && pm[n] == UNSET
  }

  predicate SameBut(pm: seq<Span>, pm1: seq<Span>, ns: set<nat>) {
    |pm| == |pm1| && forall n :: 0 <= n < |pm| && n !in ns ==> pm1[n] == pm[n]
  }

  /** Every group either took no part, or lies within [i, j] and its body matches just what is recorded. */
  ghost predicate BodiesMatch(x: Subject, e: Expr, i: int, j: int, pm: seq<Span>) {
    forall g :: g in GroupsIn(e) ==> g.n < |pm| && (pm[g.n] == UNSET || Taken(x, g, i, j, pm))
  }

  lemma {:induction false} WrittenBodies(x: Subject, e: Expr, i: nat, j: nat, t: Tree, pm: seq<Span>)
    requires Parsed(x, e, i, j, t) && Alike(e) && Unset(pm, Numbers(e))
    ensures BodiesMatch(x, e, i, j, Write(t, pm)) && SameBut(pm, Write(t, pm), Numbers(e))
  {
    ParsedIsShaped(x, e, i, j, t);
    hide Parsed, Shaped, LangSpan, GroupsIn, Numbers;
    forall g | g in GroupsIn(e)
      ensures g.n < |pm| && (Write(t, pm)[g.n] == UNSET || Taken(x, g, i, j, Write(t, pm)))
    {
      NumbersAre(e, g.n);
      if g.n in Wrote(t) { Written(x, e, e, i, j, t, pm, g); } else { NotWritten(t, pm, g.n); }
    }
    forall n | 0 <= n < |pm| && n !in Numbers(e)
      ensures Write(t, pm)[n] == pm[n]
    {
      if n in Wrote(t) {
        var g := WrittenGroup(e, i, j, t, n);
        NumbersAre(e, n);
      }
      NotWritten(t, pm, n);
    }
  }

  /** After `dissect` on a clean table, if groups of the same number are copies of one another: each lies within
      what was dissected, and its body matches what it recorded. */
  lemma {:induction false} DissectionMatchesBodies(x: Subject, e: Expr, i: nat, j: nat, pm: seq<Span>)
    requires Proper(e) && Alike(e) && Unset(pm, Numbers(e)) && Spans(x, Emit(e, Eps), i, j)
    ensures BodiesMatch(x, e, i, j, Captured(x, Emit(e, Eps), i, j, pm))
    ensures SameBut(pm, Captured(x, Emit(e, Eps), i, j, pm), Numbers(e))
  {
    hide Captured, Spans, Parsed, BodiesMatch, Numbers, GroupsIn;
    var t := RecordedAlone(x, e, i, j, pm);
    WrittenBodies(x, e, i, j, t, pm);
  }

  // ----- well nested -----

  /** Every group either took no part, and then neither did those inside it, or it recorded a span
      within [lo, hi] that its body matches exactly and that holds the spans of those inside it. */
  ghost predicate WellNested(x: Subject, e: Expr, lo: int, hi: int, pm: seq<Span>)
    decreases e
  {
    match e
    case Empty => true
    case Sym(_) => true
    case Cat(l, r) => WellNested(x, l, lo, hi, pm) && WellNested(x, r, lo, hi, pm)
    case Union(f, rest) => WellNested(x, f, lo, hi, pm) && WellNestedAll(x, rest, lo, hi, pm)
    case Star(d) => WellNested(x, d, lo, hi, pm)
    case Some1(d) => WellNested(x, d, lo, hi, pm)
    case Opt(d) => WellNested(x, d, lo, hi, pm)
    case Group(n, d) =>
      Unset(pm, Numbers(e)) || (Taken(x, e, lo, hi, pm) && WellNested(x, d, pm[n].so, pm[n].eo, pm))
  }

  ghost predicate WellNestedAll(x: Subject, bs: Branches, lo: int, hi: int, pm: seq<Span>)
    decreases bs
  {
    match bs
    case One(e) => WellNested(x, e, lo, hi, pm)
    case More(e, rest) => WellNested(x, e, lo, hi, pm) && WellNestedAll(x, rest, lo, hi, pm)
  }

  /** The groups that are not inside another. */
  function Tops(e: Expr): (s: set<Expr>)
    ensures forall g :: g in s ==> g.Group?
    decreases e
  {
    match e
    case Empty => {}
    case Sym(_) => {}
    case Cat(l, r) => Tops(l) + Tops(r)
    case Union(f, rest) => Tops(f) + TopsAll(rest)
    case Star(d) => Tops(d)
    case Some1(d) => Tops(d)
    case Opt(d) => Tops(d)
    case Group(_, _) => {e}
  }

  function TopsAll(bs: Branches): (s: set<Expr>)
    ensures forall g :: g in s ==> g.Group?
    decreases bs
  {
    match bs
    case One(e) => Tops(e)
    case More(e, rest) => Tops(e) + TopsAll(rest)
  }

  /** The groups that take part whenever the expression does. */
  function Always(e: Expr): set<nat>
    decreases e
  {
    match e
    case Empty => {}
    case Sym(_) => {}
    case Cat(l, r) => Always(l) + Always(r)
    case Union(f, rest) => Always(f) * AlwaysAll(rest)
    case Star(_) => {}
    case Some1(d) => Always(d)
    case Opt(_) => {}
    case Group(n, d) => {n} + Always(d)
  }

  function AlwaysAll(bs: Branches): set<nat>
    decreases bs
  {
    match bs
    case One(e) => Always(e)
    case More(e, rest) => Always(e) * AlwaysAll(rest)
  }

  /** Whenever this group takes part, or one inside it, those inside it do. */
  predicate Steady(g: Expr) {
    forall h :: h in GroupsIn(g) ==> Numbers(h.e) <= Always(h.e)
  }

  /** Groups of the one kind and of the other are copies, or have nothing in common. */
  predicate Apart(A: set<Expr>, B: set<Expr>) {
    forall a, b :: a in A && b in B ==> a == b || Numbers(a) !! Numbers(b)
  }

  /** Groups are copied with all that is in them, and if two copies can take part in a match, one after the
      other, all that is in them takes part. */
  predicate Orderly(e: Expr)
    decreases e
  {
    match e
    case Empty => true
    case Sym(_) => true
    case Cat(l, r) =>
      Orderly(l) && Orderly(r) && Apart(Tops(l), Tops(r)) && forall a :: a in Tops(l) && a in Tops(r) ==> Steady(a)
    case Union(f, rest) => Orderly(f) && OrderlyAll(rest) && Apart(Tops(f), TopsAll(rest))
    case Star(d) => Orderly(d)
    case Some1(d) => Orderly(d)
    case Opt(d) => Orderly(d)
    case Group(n, d) => Orderly(d) && n !in Numbers(d)
  }

  predicate OrderlyAll(bs: Branches)
    decreases bs
  {
    match bs
    case One(e) => Orderly(e)
    case More(e, rest) => Orderly(e) && OrderlyAll(rest) && Apart(Tops(e), TopsAll(rest))
  }

  lemma {:induction false} TopOf(e: Expr, g: Expr) returns (a: Expr)
    requires g in GroupsIn(e)
    ensures a in Tops(e) && g in GroupsIn(a)
    decreases e
  {
    match e
    case Cat(l, r) => if g in GroupsIn(l) { a := TopOf(l, g); } else { a := TopOf(r, g); }
    case Union(f, rest) => if g in GroupsIn(f) { a := TopOf(f, g); } else { a := TopOfAny(rest, g); }
    case Star(d) => a := TopOf(d, g);
    case Some1(d) => a := TopOf(d, g);
    case Opt(d) => a := TopOf(d, g);
    case Group(_, d) => a := e;
  }

  lemma {:induction false} TopOfAny(bs: Branches, g: Expr) returns (a: Expr)
    requires g in GroupsInAll(bs)
    ensures a in TopsAll(bs) && g in GroupsIn(a)
    decreases bs
  {
    if g in GroupsIn(bs.e) { a := TopOf(bs.e, g); } else { a := TopOfAny(bs.rest, g); }
  }

  lemma {:induction false} TopsAreGroups(e: Expr)
    ensures Tops(e) <= GroupsIn(e)
    decreases e
  {
    match e
    case Empty =>
    case Sym(_) =>
    case Cat(l, r) => TopsAreGroups(l); TopsAreGroups(r);
    case Union(f, rest) => TopsAreGroups(f); TopsAreGroupsAll(rest);
    case Star(d) => TopsAreGroups(d);
    case Some1(d) => TopsAreGroups(d);
    case Opt(d) => TopsAreGroups(d);
    case Group(_, _) =>
  }

  lemma {:induction false} TopsAreGroupsAll(bs: Branches)
    ensures TopsAll(bs) <= GroupsInAll(bs)
    decreases bs
  {
    TopsAreGroups(bs.e);
    if bs.More? { TopsAreGroupsAll(bs.rest); }
  }

  /** What has a group in common with one of these is one of these. */
  lemma {:induction false} SameTop(a: Expr, r: Expr, h: Expr)
    requires a in Tops(r) || Apart({a}, Tops(r))
    requires h in GroupsIn(a) && h in GroupsIn(r)
    ensures a in Tops(r) && GroupsIn(a) <= GroupsIn(r)
  {
    hide GroupsIn, Tops, Numbers;
    var b := TopOf(r, h);
    NumbersAre(a, h.n);
    NumbersAre(b, h.n);
    assert a in Tops(r);
    TopsAreGroups(r);
    GroupsWithin(r, a);
  }

  /** A group of `l` with one inside that stands in `r` stands in `r` itself, in the same copy. */
  lemma {:induction false} SharedTop(l: Expr, r: Expr, g: Expr, h: Expr) returns (a: Expr)
    requires Apart(Tops(l), Tops(r)) && g in GroupsIn(l) && h in GroupsIn(g) && h in GroupsIn(r)
    ensures a in Tops(l) && a in Tops(r) && g in GroupsIn(a) && g in GroupsIn(r)
  {
    hide GroupsIn, Tops, Numbers;
    a := TopOf(l, g);
    GroupsWithin(a, g);
    SameTop(a, r, h);
  }

  lemma {:induction false} ApartBack(A: set<Expr>, B: set<Expr>)
    requires Apart(A, B)
    ensures Apart(B, A)
  {
    hide Numbers;
  }

  lemma {:induction false} SameNumber(A: Expr, B: Expr, g: Expr, h: Expr)
    requires Apart(Tops(A), Tops(B)) && g in GroupsIn(A) && h in GroupsIn(B) && g.n == h.n
    ensures h in GroupsIn(A)
  {
    hide GroupsIn, Tops, Numbers;
    var a := TopOf(A, g);
    var b := TopOf(B, h);
    NumbersAre(a, g.n);
    NumbersAre(b, g.n);
    assert a == b;
    TopsAreGroups(A);
    GroupsWithin(A, a);
  }

  lemma {:induction false} OrderlyIsAlike(e: Expr)
    requires Orderly(e)
    ensures Alike(e)
    decreases e
  {
    hide Tops, Numbers, Steady;
    match e
    case Empty =>
    case Sym(_) =>
    case Cat(l, r) =>
      OrderlyIsAlike(l);
      OrderlyIsAlike(r);
      forall g, h | g in GroupsIn(l) && h in GroupsIn(r) && g.n == h.n
        ensures g == h
      {
        SameNumber(l, r, g, h);
      }
    case Union(f, rest) =>
      OrderlyIsAlike(f);
      OrderlyAllIsAlike(rest);
      UnionIsAlike(f, rest);
    case Star(d) => OrderlyIsAlike(d);
    case Some1(d) => OrderlyIsAlike(d);
    case Opt(d) => OrderlyIsAlike(d);
    case Group(n, d) => OrderlyIsAlike(d); NumbersAre(d, n);
  }

  predicate AlikeAll(bs: Branches) {
    forall g, h :: g in GroupsInAll(bs) && h in GroupsInAll(bs) && g.n == h.n ==> g == h
  }

  lemma {:induction false} UnionIsAlike(f: Expr, rest: Branches)
    requires Alike(f) && AlikeAll(rest) && Apart(Tops(f), TopsAll(rest))
    ensures AlikeAll(More(f, rest))
  {
    hide GroupsIn, Tops, Numbers, GroupsInAll, TopsAll;
    forall g, h | g in GroupsIn(f) && h in GroupsInAll(rest) && g.n == h.n
      ensures g == h
    {
      var a := TopOf(f, g);
      var b := TopOfAny(rest, h);
      NumbersAre(a, g.n);
      NumbersAre(b, g.n);
      TopsAreGroups(f);
      GroupsWithin(f, a);
    }
    assert GroupsInAll(More(f, rest)) == GroupsIn(f) + GroupsInAll(rest) by { UnfoldAll(f, rest); }
  }

  lemma {:induction false} UnfoldAll(f: Expr, rest: Branches)
    ensures GroupsInAll(More(f, rest)) == GroupsIn(f) + GroupsInAll(rest)
  {
  }

  lemma {:induction false} OrderlyAllIsAlike(bs: Branches)
    requires OrderlyAll(bs)
    ensures AlikeAll(bs)
    decreases bs
  {
    hide Tops, Numbers, Steady, Apart;
    OrderlyIsAlike(bs.e);
    if bs.More? {
      OrderlyAllIsAlike(bs.rest);
      UnionIsAlike(bs.e, bs.rest);
    }
  }

  // ----- which groups are written together -----

  lemma {:induction false} AlwaysWritten(e: Expr, i: nat, j: nat, t: Tree)
    requires Shaped(e, i, j, t)
    ensures Always(e) <= Wrote(t)
    decreases Size(e)
  {
    hide Orderly, Tops, GroupsIn;
    match e
    case Empty =>
    case Sym(_) =>
    case Cat(l, r) => AlwaysWritten(l, i, t.q, t.l); AlwaysWritten(r, t.q, j, t.r);
    case Union(f, rest) =>
      var b := BranchTaken(More(f, rest), i, j, t);
      AlwaysWritten(b, i, j, t);
    case Star(_) =>
    case Some1(d) => AlwaysWritten(d, t.so, t.eo, t.inner);
    case Opt(_) =>
    case Group(_, d) => AlwaysWritten(d, i, j, t.inner);
  }

  /** With a group, those inside that always take part. */
  lemma {:induction false} WrittenWith(a: Expr, e: Expr, i: nat, j: nat, t: Tree, g: Expr)
    requires Shaped(e, i, j, t) && Alike(a) && GroupsIn(e) <= GroupsIn(a) && g in GroupsIn(a) && g.n in Wrote(t)
    ensures Always(g.e) <= Wrote(t)
    decreases Size(e)
  {
    hide Orderly, Tops, Always;
    match e
    case Cat(l, r) =>
      if g.n in Wrote(t.l) { WrittenWith(a, l, i, t.q, t.l, g); } else { WrittenWith(a, r, t.q, j, t.r, g); }
    case Union(f, rest) =>
      var b := BranchTaken(More(f, rest), i, j, t);
      WrittenWith(a, b, i, j, t, g);
    case Star(d) => WrittenWith(a, d, t.so, t.eo, t.inner, g);
    case Some1(d) => WrittenWith(a, d, t.so, t.eo, t.inner, g);
    case Opt(d) => WrittenWith(a, d, i, j, t, g);
    case Group(n, d) =>
      if g.n == n {
        assert e in GroupsIn(e);
        AlwaysWritten(d, i, j, t.inner);
      } else {
        WrittenWith(a, d, i, j, t.inner, g);
      }
  }

  /** With a group, those around it. */
  lemma {:induction false} Enclosed(e: Expr, i: nat, j: nat, t: Tree, g: Expr, h: Expr)
    requires Shaped(e, i, j, t) && Orderly(e) && g in GroupsIn(e) && h in GroupsIn(g.e) && h.n in Wrote(t)
    ensures g.n in Wrote(t)
    decreases Size(e), 1
  {
    hide Tops, Always, Numbers, Steady, Apart;
    GroupsWithin(e, g);
    assert GroupsIn(g.e) <= GroupsIn(g);
    OrderlyIsAlike(e);
    match e
    case Cat(l, r) => EnclosedCat(l, r, i, j, t, g, h);
    case Union(f, rest) =>
      var b := BranchTaken(More(f, rest), i, j, t);
      WrittenIs(e, b, i, j, t, h);
      if g !in GroupsIn(b) {
        var a := TopOfAny(More(f, rest), g);
        GroupsWithin(a, g);
        SameTop(a, b, h);
      }
      Enclosed(b, i, j, t, g, h);
    case Star(d) => Enclosed(d, t.so, t.eo, t.inner, g, h);
    case Some1(d) => Enclosed(d, t.so, t.eo, t.inner, g, h);
    case Opt(d) => Enclosed(d, i, j, t, g, h);
    case Group(n, d) =>
      if g != e {
        InnerNumber(e, g, h);
        Enclosed(d, i, j, t.inner, g, h);
      }
  }

  /** A group inside one inside `e` has another number than `e`. */
  lemma {:induction false} InnerNumber(e: Expr, g: Expr, h: Expr)
    requires e.Group? && Alike(e) && g in GroupsIn(e.e) && h in GroupsIn(g)
    ensures h.n != e.n && g.n != e.n && h in GroupsIn(e.e)
  {
    GroupsWithin(e.e, g);
    NoneInItself(e);
    assert e in GroupsIn(e);
  }

  lemma {:induction false} EnclosedCat(l: Expr, r: Expr, i: nat, j: nat, t: Tree, g: Expr, h: Expr)
    requires var e := Cat(l, r);
             Shaped(e, i, j, t) && Orderly(e) && Alike(e) && g in GroupsIn(e) && h in GroupsIn(e) && h in GroupsIn(g.e)
             && h in GroupsIn(g) && h.n in Wrote(t)
    ensures g.n in Wrote(t)
    decreases Size(Cat(l, r)), 0
  {
    hide Tops, Always, Numbers, Steady;
    var e := Cat(l, r);
    if h.n in Wrote(t.l) {
      WrittenIs(e, l, i, t.q, t.l, h);
      if g !in GroupsIn(l) {
        ApartBack(Tops(l), Tops(r));
        var a := SharedTop(r, l, g, h);
      }
      Enclosed(l, i, t.q, t.l, g, h);
    } else {
      WrittenIs(e, r, t.q, j, t.r, h);
      if g !in GroupsIn(r) { var a := SharedTop(l, r, g, h); }
      Enclosed(r, t.q, j, t.r, g, h);
    }
  }

  // ----- and where -----

  /** The entry of `h` lies within that of `g`. */
  predicate Inside(pm: seq<Span>, g: Expr, h: Expr)
    requires g.Group? && h.Group?
  {
    g.n < |pm| && h.n < |pm| && pm[g.n].so <= pm[h.n].so && pm[h.n].eo <= pm[g.n].eo
  }

  lemma {:induction false} Nests(e: Expr, i: nat, j: nat, t: Tree, pm: seq<Span>, g: Expr, h: Expr)
    requires Shaped(e, i, j, t) && Orderly(e) && g in GroupsIn(e) && h in GroupsIn(g.e) && h.n in Wrote(t)
    requires g.n < |pm| && h.n < |pm|
    ensures Inside(Write(t, pm), g, h)
    decreases Size(e), 1
  {
    hide Tops, Always, Numbers, Steady, Apart;
    GroupsWithin(e, g);
    assert GroupsIn(g.e) <= GroupsIn(g);
    OrderlyIsAlike(e);
    match e
    case Cat(l, r) => NestsCat(l, r, i, j, t, pm, g, h);
    case Union(f, rest) =>
      var b := BranchTaken(More(f, rest), i, j, t);
      WrittenIs(e, b, i, j, t, h);
      if g !in GroupsIn(b) {
        var a := TopOfAny(More(f, rest), g);
        GroupsWithin(a, g);
        SameTop(a, b, h);
      }
      Nests(b, i, j, t, pm, g, h);
    case Star(d) => Nests(d, t.so, t.eo, t.inner, pm, g, h);
    case Some1(d) => Nests(d, t.so, t.eo, t.inner, pm, g, h);
    case Opt(d) => Nests(d, i, j, t, pm, g, h);
    case Group(n, d) =>
      if g == e {
        WrittenWhere(e, e, i, j, t, pm, h);
        OwnEntry(e, e, i, j, t, pm);
      } else {
        InnerNumber(e, g, h);
        Nests(d, i, j, t.inner, SetSo(pm, n, i), g, h);
      }
  }

  lemma {:induction false} NestsCat(l: Expr, r: Expr, i: nat, j: nat, t: Tree, pm: seq<Span>, g: Expr,
        h: Expr)
    requires var e := Cat(l, r);
             Shaped(e, i, j, t) && Orderly(e) && Alike(e) && g in GroupsIn(e) && h in GroupsIn(e) && h in GroupsIn(g.e)
             && h in GroupsIn(g) && h.n in Wrote(t)
    requires g.n < |pm| && h.n < |pm|
    ensures Inside(Write(t, pm), g, h)
    decreases Size(Cat(l, r)), 0
  {
    hide Tops, Always, Numbers, Steady;
    var e := Cat(l, r);
    if h.n in Wrote(t.r) {
      WrittenIs(e, r, t.q, j, t.r, h);
      if g !in GroupsIn(r) { var a := SharedTop(l, r, g, h); }
      Nests(r, t.q, j, t.r, Write(t.l, pm), g, h);
    } else {
      WrittenIs(e, l, i, t.q, t.l, h);
      ApartBack(Tops(l), Tops(r));
      if g !in GroupsIn(l) { var a := SharedTop(r, l, g, h); }
      if g.n in Wrote(t.r) { NotLast(l, r, i, j, t, g, h); }
      NotWritten(t.r, Write(t.l, pm), g.n);
      NotWritten(t.r, Write(t.l, pm), h.n);
      Nests(l, i, t.q, t.l, pm, g, h);
    }
  }

  /** A second copy of a group does not take part without what is inside. */
  lemma {:induction false} NotLast(l: Expr, r: Expr, i: nat, j: nat, t: Tree, g: Expr, h: Expr)
    requires var e := Cat(l, r); Shaped(e, i, j, t) && Orderly(e) && Alike(e)
    requires g in GroupsIn(l) && h in GroupsIn(l) && h in GroupsIn(g.e) && h in GroupsIn(g) && g.n in Wrote(t.r)
    ensures h.n in Wrote(t.r)
  {
    hide Tops, Always, Numbers;
    var e := Cat(l, r);
    WrittenIs(e, r, t.q, j, t.r, g);
    GroupsWithin(r, g);
    var a := SharedTop(l, r, g, h);
    assert Steady(a);
    WrittenWith(e, r, t.q, j, t.r, g);
    NumbersAre(g.e, h.n);
  }

  /** Entries that match, each within those around it, are well nested. */
  lemma {:induction false} Assemble(x: Subject, e: Expr, lo: int, hi: int, pm: seq<Span>)
    requires BodiesMatch(x, e, lo, hi, pm) && Ringed(GroupsIn(e), pm)
    ensures WellNested(x, e, lo, hi, pm)
    decreases e, 1
  {
    hide LangSpan, Numbers, Taken, Ringed;
    RingedParts(GroupsIn(e), pm);
    match e
    case Empty =>
    case Sym(_) =>
    case Cat(l, r) => Assemble(x, l, lo, hi, pm); Assemble(x, r, lo, hi, pm);
    case Union(f, rest) => Assemble(x, f, lo, hi, pm); AssembleAll(x, rest, lo, hi, pm);
    case Star(d) => Assemble(x, d, lo, hi, pm);
    case Some1(d) => Assemble(x, d, lo, hi, pm);
    case Opt(d) => Assemble(x, d, lo, hi, pm);
    case Group(n, d) => AssembleGroup(x, e, lo, hi, pm);
  }

  /** Every entry of these lies within those around it. */
  predicate Ringed(G: set<Expr>, pm: seq<Span>)
    requires forall g :: g in G ==> g.Group?
  {
    forall g, h :: g in G && h in GroupsIn(g.e) ==>
      g.n < |pm| && h.n < |pm| && (pm[h.n] == UNSET || (pm[g.n] != UNSET && Inside(pm, g, h)))
  }

  lemma {:induction false} RingedParts(G: set<Expr>, pm: seq<Span>)
    requires (forall g :: g in G ==> g.Group?) && Ringed(G, pm)
    ensures forall H: set<Expr> :: H <= G ==> Ringed(H, pm)
  {
  }

  lemma {:induction false} AssembleGroup(x: Subject, e: Expr, lo: int, hi: int, pm: seq<Span>)
    requires e.Group? && BodiesMatch(x, e, lo, hi, pm) && Ringed(GroupsIn(e), pm)
    ensures WellNested(x, e, lo, hi, pm)
    decreases e, 0
  {
    hide LangSpan, Numbers;
    assert e in GroupsIn(e);
    if pm[e.n] == UNSET {
      forall k | k in Numbers(e)
        ensures k < |pm| && pm[k] == UNSET
      {
        NumbersAre(e, k);
      }
    } else {
      hide NoWord;
      Assemble(x, e.e, pm[e.n].so, pm[e.n].eo, pm);
    }
  }

  lemma {:induction false} AssembleAll(x: Subject, bs: Branches, lo: int, hi: int, pm: seq<Span>)
    requires forall g :: g in GroupsInAll(bs) ==> g.n < |pm| && (pm[g.n] == UNSET || Taken(x, g, lo, hi, pm))
    requires Ringed(GroupsInAll(bs), pm)
    ensures WellNestedAll(x, bs, lo, hi, pm)
    decreases bs
  {
    hide LangSpan, Numbers, Taken, Ringed, WellNested;
    RingedParts(GroupsInAll(bs), pm);
    Assemble(x, bs.e, lo, hi, pm);
    if bs.More? { AssembleAll(x, bs.rest, lo, hi, pm); }
  }

  /** However the text is divided: if copies are orderly, what is recorded lies within what is recorded around
      it. */
  lemma {:induction false} OrderlyIsRinged(e: Expr, i: nat, j: nat, t: Tree, pm: seq<Span>)
    requires Orderly(e) && Shaped(e, i, j, t) && Unset(pm, Numbers(e))
    ensures Ringed(GroupsIn(e), Write(t, pm))
  {
    hide Shaped, Numbers, GroupsIn, Orderly;
    OrderlyIsAlike(e);
    var out := Write(t, pm);
    forall g, h | g in GroupsIn(e) && h in GroupsIn(g.e)
      ensures g.n < |pm| && h.n < |pm| && (out[h.n] == UNSET || (out[g.n] != UNSET && Inside(out, g, h)))
    {
      GroupsAround(e, g);
      NumbersAre(e, g.n);
      NumbersAre(e, h.n);
      if h.n in Wrote(t) {
        Enclosed(e, i, j, t, g, h);
        Nests(e, i, j, t, pm, g, h);
        WrittenWhere(e, e, i, j, t, pm, g);
      } else {
        NotWritten(t, pm, h.n);
      }
    }
  }

  /** After `dissect` on a clean table, if copies of a group are orderly: every group either took no part or
      recorded, inside the group around it, a span that its body matches exactly. */
  lemma {:induction false} DissectionIsWellNested(x: Subject, e: Expr, i: nat, j: nat, pm: seq<Span>)
    requires Proper(e) && Orderly(e) && Unset(pm, Numbers(e)) && Spans(x, Emit(e, Eps), i, j)
    ensures WellNested(x, e, i, j, Captured(x, Emit(e, Eps), i, j, pm))
    ensures SameBut(pm, Captured(x, Emit(e, Eps), i, j, pm), Numbers(e))
  {
    hide Captured, Spans, Parsed, Shaped, Numbers, GroupsIn, Orderly, WellNested, LangSpan, NoWord, SameBut, Ringed;
    OrderlyIsAlike(e);
    var t := RecordedAlone(x, e, i, j, pm);
    ParsedIsShaped(x, e, i, j, t);
    WrittenBodies(x, e, i, j, t, pm);
    OrderlyIsRinged(e, i, j, t, pm);
    Assemble(x, e, i, j, Write(t, pm));
  }

  lemma {:induction false} GroupsAround(e: Expr, g: Expr)
    requires g in GroupsIn(e)
    ensures GroupsIn(g.e) <= GroupsIn(e)
  {
    GroupsWithin(e, g);
    assert GroupsIn(g.e) <= GroupsIn(g);
  }

  // ----- without copies -----

  /** No two groups have the same number. */
  predicate Distinct(e: Expr)
    decreases e
  {
    match e
    case Empty => true
    case Sym(_) => true
    case Cat(l, r) => Distinct(l) && Distinct(r) && Numbers(l) !! Numbers(r)
    case Union(f, rest) => Distinct(f) && DistinctAll(rest) && Numbers(f) !! NumbersAll(rest)
    case Star(d) => Distinct(d)
    case Some1(d) => Distinct(d)
    case Opt(d) => Distinct(d)
    case Group(n, d) => Distinct(d) && n !in Numbers(d)
  }

  predicate DistinctAll(bs: Branches)
    decreases bs
  {
    match bs
    case One(e) => Distinct(e)
    case More(e, rest) => Distinct(e) && DistinctAll(rest) && Numbers(e) !! NumbersAll(rest)
  }

  lemma {:induction false} NumbersOfTops(e: Expr)
    ensures forall a :: a in Tops(e) ==> Numbers(a) <= Numbers(e) && a.n in Numbers(a)
    decreases e
  {
    match e
    case Empty =>
    case Sym(_) =>
    case Cat(l, r) => NumbersOfTops(l); NumbersOfTops(r);
    case Union(f, rest) => NumbersOfTops(f); NumbersOfTopsAll(rest);
    case Star(d) => NumbersOfTops(d);
    case Some1(d) => NumbersOfTops(d);
    case Opt(d) => NumbersOfTops(d);
    case Group(_, _) =>
  }

  lemma {:induction false} NumbersOfTopsAll(bs: Branches)
    ensures forall a :: a in TopsAll(bs) ==> Numbers(a) <= NumbersAll(bs) && a.n in Numbers(a)
    decreases bs
  {
    NumbersOfTops(bs.e);
    if bs.More? { NumbersOfTopsAll(bs.rest); }
  }

  lemma {:induction false} DistinctIsOrderly(e: Expr)
    requires Distinct(e)
    ensures Orderly(e)
    decreases e
  {
    hide Steady;
    match e
    case Empty =>
    case Sym(_) =>
    case Cat(l, r) =>
      DistinctIsOrderly(l);
      DistinctIsOrderly(r);
      NumbersOfTops(l);
      NumbersOfTops(r);
    case Union(f, rest) =>
      DistinctIsOrderly(f);
      DistinctAllIsOrderly(rest);
      NumbersOfTops(f);
      NumbersOfTopsAll(rest);
    case Star(d) => DistinctIsOrderly(d);
    case Some1(d) => DistinctIsOrderly(d);
    case Opt(d) => DistinctIsOrderly(d);
    case Group(_, d) => DistinctIsOrderly(d);
  }

  lemma {:induction false} DistinctAllIsOrderly(bs: Branches)
    requires DistinctAll(bs)
    ensures OrderlyAll(bs)
    decreases bs
  {
    hide Steady, Tops;
    DistinctIsOrderly(bs.e);
    if bs.More? {
      DistinctAllIsOrderly(bs.rest);
      NumbersOfTops(bs.e);
      NumbersOfTopsAll(bs.rest);
    }
  }
}
