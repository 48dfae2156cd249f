/** From an expression to the reported match: what regcomp (src/backend/regex/regcomp.c, lines
    213-310) puts into struct re_guts for a parsed expression, and what matcher then promises. */
module Compile {
  import opened Strip
  import opened Text
  import opened Regex
  import opened Simulation
  import opened Captures
  import opened Syntax
  import opened CodeGen
  import opened Groups
  import opened Nesting
  import opened Reentry
  import opened Counting
  import opened Must
  import opened Backtrack
  import opened BackrefSound
  import opened BackrefExact
  import opened Chains
  import opened LastChoice
  import opened AnchorTests
  import opened TailChoice
  import opened Consuming
  import opened Levels
  import opened Sanity
  import opened Matching
  import Thompson

  /** What one operator does to the nesting and to the maximum so far. */
  function Bump(op: Sop, nest: int, max: int): (int, int) {
    match op
    case OPlus_(_) => (nest + 1, max)
    case O_Plus(_) => (nest - 1, if nest > max then nest else max)
    case _ => (nest, max)
  }

  /** The scan, from operator `s` up to `hi`. */
  function PlusScan(strip: Ops, s: nat, hi: nat, nest: int, max: int): (int, int)
    requires s <= hi <= |strip|
    decreases hi - s
  {
    if s == hi then (nest, max)
    else
      var p := Bump(strip[s], nest, max);
      PlusScan(strip, s + 1, hi, p.0, p.1)
  }

  lemma {:induction false} PlusScanJoin(strip: Ops, lo: nat, m: nat, hi: nat, nest: int, max: int)
    requires lo <= m <= hi <= |strip|
    ensures var p := PlusScan(strip, lo, m, nest, max);
            PlusScan(strip, lo, hi, nest, max) == PlusScan(strip, m, hi, p.0, p.1)
    decreases m - lo
  {
    hide Bump;
    if lo < m {
      var p := Bump(strip[lo], nest, max);
      PlusScanJoin(strip, lo + 1, m, hi, p.0, p.1);
    }
  }

  /** What scanning a laid-out expression does to the maximum. */
  function Deeper(nest: int, depth: nat, max: int): int {
    if depth > 0 && nest + depth > max then nest + depth else max
  }

  lemma {:induction false} ScanDepth(strip: Ops, o: nat, r: Re, nest: int, max: int)
    requires Laid(strip, o, r) && o + Len(r) <= |strip|
    ensures PlusScan(strip, o, o + Len(r), nest, max) == (nest, Deeper(nest, Depth(r), max))
    decreases r, 1
  {
    hide Laid, LaidAlts, Len, LenAlts, PlusScan;
    match r
    case Eps => Thompson.LenOfEps(); ScanNone(strip, o, nest, max);
    case Leaf(atom, k) =>
      Thompson.LaidLeaf(strip, o, atom, k);
      Thompson.LenOfLeaf(atom, k);
      PlusScanJoin(strip, o, o + 1, o + 1 + Len(k), nest, max);
      ScanOne(strip, o, nest, max);
      ScanDepth(strip, o + 1, k, nest, max);
    case Plus(b, k) =>
      Thompson.LaidPlus(strip, o, b, k);
      Thompson.LenOfPlus(b, k);
      ScanPair(strip, o, r, b, k, nest, max);
    case Quest(b, k) =>
      Thompson.LaidQuest(strip, o, b, k);
      Thompson.LenOfQuest(b, k);
      ScanPair(strip, o, r, b, k, nest, max);
    case Back(i, b, k) =>
      Thompson.LaidBack(strip, o, i, b, k);
      Thompson.LenOfBack(i, b, k);
      ScanPair(strip, o, r, b, k, nest, max);
    case Choice(f, alts, k) =>
      ScanChoice(strip, o, f, alts, k, nest, max);
  }

  lemma {:induction false} ScanChoice(strip: Ops, o: nat, f: Re, alts: Alts, k: Re, nest: int, max: int)
    requires Laid(strip, o, Choice(f, alts, k)) && o + Len(Choice(f, alts, k)) <= |strip|
    ensures PlusScan(strip, o, o + Len(Choice(f, alts, k)), nest, max)
      == (nest, Deeper(nest, Depth(Choice(f, alts, k)), max))
    decreases Choice(f, alts, k), 0
  {
    hide Laid, LaidAlts, Len, LenAlts, PlusScan;
    var c := Thompson.LaidChoice(strip, o, f, alts, k);
    Thompson.LenOfChoice(f, alts, k);
    var a, z := o + 1 + Len(f), c + 1 + Len(k);
    PlusScanJoin(strip, o, o + 1, z, nest, max);
    ScanOne(strip, o, nest, max);
    PlusScanJoin(strip, o + 1, a, z, nest, max);
    ScanDepth(strip, o + 1, f, nest, max);
    var m1 := Deeper(nest, Depth(f), max);
    PlusScanJoin(strip, a, a + 1, z, nest, m1);
    ScanOne(strip, a, nest, m1);
    PlusScanJoin(strip, a + 1, c + 1, z, nest, m1);
    AltsDepth(strip, a + 1, alts, nest, m1);
    ScanDepth(strip, c + 1, k, nest, Deeper(nest, DepthAlts(alts), m1));
  }

  lemma {:induction false} ScanNone(strip: Ops, o: nat, nest: int, max: int)
    requires o <= |strip|
    ensures PlusScan(strip, o, o, nest, max) == (nest, max)
  {
  }

  lemma {:induction false} ScanOne(strip: Ops, o: nat, nest: int, max: int)
    requires o < |strip|
    ensures PlusScan(strip, o, o + 1, nest, max) == Bump(strip[o], nest, max)
  {
  }

  lemma {:induction false} ScanPair(strip: Ops, o: nat, r: Re, b: Re, k: Re, nest: int, max: int)
    requires r == Plus(b, k) || r == Quest(b, k) || (r.Back? && r.body == b && r.next == k)
    requires o + 2 + Len(b) + Len(k) <= |strip|
    requires strip[o].OPlus_? == r.Plus? && strip[o + 1 + Len(b)].O_Plus? == r.Plus?
    requires !strip[o].O_Plus? && !strip[o + 1 + Len(b)].OPlus_?
    requires Laid(strip, o + 1, b) && Laid(strip, o + 2 + Len(b), k)
    ensures PlusScan(strip, o, o + 2 + Len(b) + Len(k), nest, max) == (nest, Deeper(nest, Depth(r), max))
    decreases r, 0
  {
    hide Laid, Len, PlusScan, Depth, Deeper, Max;
    var m, z := o + 1 + Len(b), o + 2 + Len(b) + Len(k);
    var p := Bump(strip[o], nest, max);
    PlusScanJoin(strip, o, o + 1, z, nest, max);
    ScanOne(strip, o, nest, max);
    PlusScanJoin(strip, o + 1, m, z, p.0, p.1);
    ScanDepth(strip, o + 1, b, p.0, p.1);
    var max1 := Deeper(p.0, Depth(b), p.1);
    PlusScanJoin(strip, m, m + 1, z, p.0, max1);
    ScanOne(strip, m, p.0, max1);
    var q := Bump(strip[m], p.0, max1);
    ScanDepth(strip, m + 1, k, q.0, q.1);
    DepthOfPair(r, b, k, nest, max);
  }

  lemma {:induction false} DepthOfPair(r: Re, b: Re, k: Re, nest: int, max: int)
    requires r == Plus(b, k) || r == Quest(b, k) || (r.Back? && r.body == b && r.next == k)
    ensures r.Plus? ==>
      var max1 := Deeper(nest + 1, Depth(b), max);
      Deeper(nest, Depth(r), max) == Deeper(nest, Depth(k), if nest + 1 > max1 then nest + 1 else max1)
    ensures !r.Plus? ==> Deeper(nest, Depth(r), max) == Deeper(nest, Depth(k), Deeper(nest, Depth(b), max))
  {
    var db, dk := Depth(b), Depth(k);
    assert Depth(r) == if r.Plus? then Max(1 + db, dk) else Max(db, dk);
    hide Depth;
  }

  lemma {:induction false} AltsDepth(strip: Ops, o: nat, alts: Alts, nest: int, max: int)
    requires LaidAlts(strip, o, alts) && o + LenAlts(alts) <= |strip|
    ensures PlusScan(strip, o, o + LenAlts(alts), nest, max) == (nest, Deeper(nest, DepthAlts(alts), max))
    decreases alts, 0
  {
    hide Laid, LaidAlts, Len, LenAlts, PlusScan;
    var b, z := alts.b, o + LenAlts(alts);
    var c := o + 1 + Len(b);
    var max1 := Deeper(nest, Depth(b), max);
    if alts.Last? { Thompson.LaidLast(strip, o, b); Thompson.LenOfLast(b); }
    else { Thompson.LaidOr(strip, o, b, alts.more); Thompson.LenOfOr(b, alts.more); }
    PlusScanJoin(strip, o, o + 1, z, nest, max);
    ScanOne(strip, o, nest, max);
    PlusScanJoin(strip, o + 1, c, z, nest, max);
    ScanDepth(strip, o + 1, b, nest, max);
    PlusScanJoin(strip, c, c + 1, z, nest, max1);
    ScanOne(strip, c, nest, max1);
    if alts.Last? { ScanNone(strip, z, nest, max1); } else { AltsDepth(strip, c + 1, alts.more, nest, max1); }
  }

  /** pluscount; `bad` is its setting of BAD. */
  method PlusCount(strip: Ops, ghost r: Re) returns (maxnest: nat, bad: bool)
    requires Laid(strip, 1, r) && 1 + Len(r) < |strip| && strip[1 + Len(r)].OEnd?
    requires forall s :: 1 <= s < 1 + Len(r) ==> !strip[s].OEnd?
    ensures maxnest == Depth(r) && !bad
  {
    hide Laid, Len, PlusScan;
    var scan: nat, plusnest: int, max: int := 1, 0, 0;
    ScanNone(strip, 1, 0, 0);
    ScanDepth(strip, 1, r, 0, 0);
    while !strip[scan].OEnd?
      invariant 1 <= scan <= 1 + Len(r) && PlusScan(strip, 1, scan, 0, 0) == (plusnest, max)
      decreases |strip| - scan
    {
      PlusScanJoin(strip, 1, scan, scan + 1, 0, 0);
      ScanOne(strip, scan, plusnest, max);
      if strip[scan].OPlus_? {
        plusnest := plusnest + 1;
      } else if strip[scan].O_Plus? {
        if plusnest > max {
          max := plusnest;
        }
        plusnest := plusnest - 1;
      }
      scan := scan + 1;
    }
    assert scan == 1 + Len(r);
    maxnest, bad := max, plusnest != 0;
  }

  // ----- struct re_guts -----

  /** The numbers the parser gives to groups. */
  function Ids(nsub: nat): (ids: set<nat>)
    ensures forall n :: n in ids <==> 0 < n <= nsub
  {
    if nsub == 0 then {} else Ids(nsub - 1) + {nsub}
  }

  /** regcomp, from the parsed expression on: emit its code between two OENDs, and fill in the rest
      of struct re_guts. */
  method Compile(e: Expr, sets: seq<set<char>>, newline: bool, nosub: bool, nsub: nat) returns (g: Guts)
    requires Proper(e) && Numbers(e) <= Ids(nsub)
    ensures Compiled(g, Emit(e, Eps)) && g.strip == Code(e) && g.firststate == 0 && !g.backrefs
    ensures g.sets == sets && g.newline == newline && g.nosub == nosub && g.nsub == nsub
    ensures g.nplus == Depth(Emit(e, Eps)) && g.nbol == Seen(e, OBol) && g.neol == Seen(e, OEol)
    ensures var u := ScanStrip(g.strip, 1, [], []); g.must == if u == [] then None else Some(u)
  {
    hide Laid, Len, Counted, Mandatory, Plain, Code, Form, Scannable, ScanStrip, Opened;
    var p := new Parse();
    p.EmitOp(OEnd);
    p.Generate(e);
    p.EmitOp(OEnd);
    var strip := p.strip;
    CodeIsForm(e);
    assert strip == [OEnd] + Form(e) + [OEnd];
    CodeIsLaid(e);
    CodeIsCounted(e);
    EmitIsPlain(e, Eps, nsub);
    EmitIsWellGrouped(e, nsub);
    CodeEnds(e);
    CodeIsScannable(strip, 1, Emit(e, Eps));
    ScanIsMandatory(strip, 1, Emit(e, Eps));
    var must := FindMust(strip, 1);
    var nplus, bad := PlusCount(strip, Emit(e, Eps));
    g := Guts(strip, sets, newline, nosub, 0, |strip| - 1, Seen(e, OBol), Seen(e, OEol), must, nsub, false, nplus);
  }

  /** The same of any struct re_guts with these entries. */
  lemma {:induction false} CodeIsCompiled(e: Expr, g: Guts)
    requires Proper(e) && Numbers(e) <= Ids(g.nsub) && g.strip == Code(e) && |g.strip| >= 2
    requires g.firststate == 0 && g.laststate == |g.strip| - 1 && g.nplus == Depth(Emit(e, Eps))
    requires g.must.Some? ==> g.must.value != [] && Mandatory(Emit(e, Eps), g.must.value)
    requires g.nbol == Seen(e, OBol) && g.neol == Seen(e, OEol)
    ensures Compiled(g, Emit(e, Eps))
  {
    hide Laid, Len, Counted, Mandatory, Plain, Code, Opened, Depth, Emit, Seen, Proper, Numbers;
    CodeIsLaid(e);
    CodeIsCounted(e);
    EmitIsPlain(e, Eps, g.nsub);
    EmitIsWellGrouped(e, g.nsub);
  }

  lemma {:induction false} CodeIsForm(e: Expr)
    ensures [OEnd] + Form(e) + [OEnd] == Code(e)
  {
  }

  lemma {:induction false} CodeEnds(e: Expr)
    ensures var n := |Code(e)|; n >= 2 && Code(e)[0].OEnd? && Code(e)[n - 1].OEnd?
    ensures forall s :: 1 <= s < |Code(e)| - 1 ==> !Code(e)[s].OEnd?
  {
    NoEndInside(Emit(e, Eps));
  }

  lemma {:induction false} NoEndInside(r: Re)
    ensures OEnd !in Layout(r)
    decreases r
  {
    match r
    case Eps =>
    case Leaf(_, k) => NoEndInside(k);
    case Plus(b, k) => NoEndInside(b); NoEndInside(k);
    case Quest(b, k) => NoEndInside(b); NoEndInside(k);
    case Choice(f, alts, k) => NoEndInside(f); NoEndInAlts(alts); NoEndInside(k);
    case Back(_, b, k) => NoEndInside(b); NoEndInside(k);
  }

  lemma {:induction false} NoEndInAlts(alts: Alts)
    ensures OEnd !in LayoutAlts(alts)
    decreases alts
  {
    NoEndInside(alts.b);
    if alts.Or? { NoEndInAlts(alts.more); }
  }

  lemma {:induction false} EmitIsPlain(e: Expr, k: Re, nsub: nat)
    requires Proper(e) && Plain(k, nsub) && Numbers(e) <= Ids(nsub)
    ensures Plain(Emit(e, k), nsub)
    decreases e
  {
    match e
    case Empty =>
    case Sym(atom) =>
    case Cat(l, r) => EmitIsPlain(r, k, nsub); EmitIsPlain(l, Emit(r, k), nsub);
    case Union(f, rest) => EmitIsPlain(f, Eps, nsub); EmitAllPlain(rest, nsub);
    case Star(d) => EmitIsPlain(d, Eps, nsub);
    case Some1(d) => EmitIsPlain(d, Eps, nsub);
    case Opt(d) => EmitIsPlain(d, Eps, nsub);
    case Group(n, d) => EmitIsPlain(d, Leaf(RParen(n), k), nsub);
  }

  lemma {:induction false} EmitAllPlain(bs: Branches, nsub: nat)
    requires ProperAll(bs) && NumbersAll(bs) <= Ids(nsub)
    ensures PlainAlts(EmitBranches(bs), nsub)
    decreases bs
  {
    EmitIsPlain(bs.e, Eps, nsub);
    if bs.More? { EmitAllPlain(bs.rest, nsub); }
  }

  /** Every parenthesis of the code of an expression has its partner. */
  lemma {:induction false} EmitIsGrouped(e: Expr, k: Re, open: multiset<nat>, nsub: nat)
    requires Proper(e) && Numbers(e) <= Ids(nsub)
    ensures Opened(Emit(e, k), open, nsub) == Opened(k, open, nsub)
    decreases e
  {
    hide Opened, ClosedIn;
    SmallIsGrouped(Any, k, open, nsub);
    match e
    case Empty =>
    case Sym(atom) => SmallIsGrouped(atom, k, open, nsub);
    case Cat(l, r) => EmitIsGrouped(r, k, open, nsub); EmitIsGrouped(l, Emit(r, k), open, nsub);
    case Union(f, rest) =>
      EmitIsGrouped(f, Eps, open, nsub);
      EmitAllGrouped(rest, open, nsub);
      ChoiceIsGrouped(Emit(f, Eps), EmitBranches(rest), k, open, nsub);
    case Star(d) =>
      EmitIsGrouped(d, Eps, open, nsub);
      PairIsGrouped(Emit(d, Eps), Eps, open, nsub);
      PairIsGrouped(Plus(Emit(d, Eps), Eps), k, open, nsub);
    case Some1(d) =>
      EmitIsGrouped(d, Eps, open, nsub);
      PairIsGrouped(Emit(d, Eps), k, open, nsub);
    case Opt(d) =>
      EmitIsGrouped(d, Eps, open, nsub);
      ChoiceIsGrouped(Emit(d, Eps), Last(Eps), k, open, nsub);
    case Group(n, d) =>
      EmitIsGrouped(d, Leaf(RParen(n), k), open + multiset{n}, nsub);
      ParensAreGrouped(n, Emit(d, Leaf(RParen(n), k)), k, open, nsub);
  }

  lemma {:induction false} SmallIsGrouped(atom: Atom, k: Re, open: multiset<nat>, nsub: nat)
    ensures Opened(Eps, open, nsub) == Some(open)
    ensures !atom.Paren() ==> Opened(Leaf(atom, k), open, nsub) == Opened(k, open, nsub)
  {
  }

  lemma {:induction false} PairIsGrouped(b: Re, k: Re, open: multiset<nat>, nsub: nat)
    requires Opened(b, open, nsub) == Some(open)
    ensures Opened(Plus(b, k), open, nsub) == Opened(k, open, nsub) == Opened(Quest(b, k), open, nsub)
  {
  }

  lemma {:induction false} ChoiceIsGrouped(f: Re, alts: Alts, k: Re, open: multiset<nat>, nsub: nat)
    requires Opened(f, open, nsub) == Some(open) && (alts == Last(Eps) || ClosedIn(alts, open, nsub))
    ensures Opened(Choice(f, alts, k), open, nsub) == Opened(k, open, nsub)
  {
  }

  lemma {:induction false} ParensAreGrouped(n: nat, b: Re, k: Re, open: multiset<nat>, nsub: nat)
    requires 0 < n <= nsub
    requires Opened(b, open + multiset{n}, nsub) == Opened(Leaf(RParen(n), k), open + multiset{n}, nsub)
    ensures Opened(Leaf(LParen(n), b), open, nsub) == Opened(k, open, nsub)
  {
    assert open + multiset{n} - multiset{n} == open;
  }

  lemma {:induction false} EmitIsWellGrouped(e: Expr, nsub: nat)
    requires Proper(e) && Numbers(e) <= Ids(nsub)
    ensures WellGrouped(Emit(e, Eps), nsub)
  {
    hide Numbers, Emit, Proper;
    EmitIsGrouped(e, Eps, multiset{}, nsub);
  }

  lemma {:induction false} EmitAllGrouped(bs: Branches, open: multiset<nat>, nsub: nat)
    requires ProperAll(bs) && NumbersAll(bs) <= Ids(nsub)
    ensures ClosedIn(EmitBranches(bs), open, nsub)
    decreases bs
  {
    EmitIsGrouped(bs.e, Eps, open, nsub);
    if bs.More? { EmitAllGrouped(bs.rest, open, nsub); }
  }

  // ----- what a report means -----

  ghost predicate NoLangFrom(x: Subject, e: Expr, a: nat, b: nat) {
    forall i: nat, j: nat :: a <= i < b && j <= x.end ==> !LangSpan(x, e, i, j)
  }

  /** matcher succeeds exactly when some text is in the language. */
  lemma {:induction false} SucceedsIffInLanguage(x: Subject, e: Expr)
    ensures MatchFrom(x, Emit(e, Eps), x.begin)
      <==> exists i: nat, j: nat :: x.begin <= i && j <= x.end && LangSpan(x, e, i, j)
  {
    hide Spans, LangSpan;
    forall i: nat, j: nat
      ensures Spans(x, Emit(e, Eps), i, j) <==> LangSpan(x, e, i, j)
    {
      SpansAreLang(x, e, i, j);
    }
  }

  /** What matcher reports for a compiled expression: text of the language, the longest from its
      start; the first such start if there is no alternation; and subexpressions that match what
      they are reported to, each inside the one around it. */
  lemma {:induction false} ReportMeans(x: Subject, e: Expr, g: Guts, s: nat, t: nat, pm: seq<Span>, nm: nat)
    requires Compiled(g, Emit(e, Eps)) && FoundPlain(x, g, Emit(e, Eps), s, t, pm, nm)
    ensures x.Valid() && x.begin <= s <= t <= x.end && LangSpan(x, e, s, t)
    ensures forall q: nat :: t < q <= x.end ==> !LangSpan(x, e, s, q)
    ensures UnionFree(e) ==> NoLangFrom(x, e, x.begin, s)
    ensures nm > 1 && Proper(e) && Numbers(e) <= Ids(g.nsub) ==>
      (Alike(e) ==> BodiesMatch(x, e, s, t, pm)) && (Orderly(e) ==> WellNested(x, e, s, t, pm))
  {
    hide Spans, LangSpan, Laid, Len, Counted, Mandatory, Plain, Captured, WellNested, BodiesMatch, Alike,
      Orderly, NoReentry, Depth, WellGrouped;
    var r := Emit(e, Eps);
    forall i: nat, j: nat
      ensures Spans(x, r, i, j) <==> LangSpan(x, e, i, j)
    {
      SpansAreLang(x, e, i, j);
    }
    SpanInRange(x, r, s, t);
    SpanIsIn(x, r, s, t);
    if UnionFree(e) {
      UnionFreeIsSafe(e, Eps);
      SafeIsNoReentry(g.strip, g.firststate + 1, r);
    }
    if nm > 1 && Proper(e) && Numbers(e) <= Ids(g.nsub) {
      var pm0 :| Clean(pm0, g.nsub) && pm == Captured(x, r, s, t, pm0);
      if Alike(e) { DissectionMatchesBodies(x, e, s, t, pm0); }
      if Orderly(e) { DissectionIsWellNested(x, e, s, t, pm0); }
    }
  }

  /** The code of an expression between OENDs. */
  predicate Alone(g: Guts, r: Re) {
    forall q :: 0 <= q < |g.strip| && (q < g.firststate + 1 || g.laststate <= q) ==> g.strip[q].OEnd?
  }

  /** With back references, and loops that consume: the search terminates, and if alternations stand only
      at the end, an accepted match is a path through the code from its first state to its last, from no
      captures to the reported ones, on which every back reference took the text its group had captured
      at that moment. */
  lemma {:induction false} AcceptedHasPath(x: Subject, g: Guts, r: Re, s: nat, t: nat, pm: seq<Span>)
    requires Compiled(g, r) && Alone(g, r) && Consumes(r)
    ensures LoopsConsume(g.strip)
    ensures x.Valid() && AtEnd(r, true) && FoundDeep(x, g, r, s, t, pm) ==>
      exists pm0 :: Clean(pm0, g.nsub)
                    && Leads(x, g.strip, t, Point(g.firststate + 1, s, pm0), Point(g.laststate, t, pm))
                    && Goes(x, g.strip, t, Point(g.firststate + 1, s, pm0), Point(g.laststate, t, pm))
  {
    hide Laid, Len, Counted, Mandatory, Plain, Consumes, AtEnd, LoopsConsume, Within, ChoiceFree, Spans, Leads, Goes,
      Run, NoReentry, AllRefused, RefusedBeyond, Depth, WellGrouped;
    CodeIsFine(g.strip, g.firststate + 1, r);
    if x.Valid() && AtEnd(r, true) && FoundDeep(x, g, r, s, t, pm) {
      var mem: Memory :| Tables(mem, g) && Succeeds(x, g, s, t, mem) && Final(x, g, s, t, mem) == pm;
      TailChoice.Sound(Frame(x, g.strip, t, g.nsub), g.firststate + 1, r, s, 0, mem);
      assert Leads(x, g.strip, t, Point(g.firststate + 1, s, mem.pm), Point(g.laststate, t, pm));
      LeadsGoes(x, g.strip, t, Point(g.firststate + 1, s, mem.pm), Point(g.laststate, t, pm));
    }
  }

  /** And where + bodies leave no choice, or from some point on there is one loop at each level and no
      back reference, or such alternatives stand at the end, what is refused has no such path, from whatever table of
      groups cleared for this attempt: none of the moves backtracking makes, and none with the anchors
      of the rest of the engine, unless there is a ^ and the text ends in a newline that ends a line. */
  lemma {:induction false} RefusedHasNoPath(x: Subject, g: Guts, r: Re, s: nat, t: nat, pm: seq<Span>)
    requires Compiled(g, r) && Alone(g, r) && Consumes(r) && Branching(r) && Clean(pm, g.nsub)
    requires x.Valid() && x.begin <= s <= t <= x.end && LoopsConsume(g.strip) && Refused(x, g, s, t)
    ensures var goal := Goal(x, g.strip, t, g.laststate);
            !PathOn(goal, Point(g.firststate + 1, s, pm))
            && (Clear(goal) ==> !WayOn(goal, Point(g.firststate + 1, s, pm)))
            && (Clear(goal) ==> !WalkOn(goal, Place(g.firststate + 1, At(s, false), pm)))
  {
    hide Laid, Len, Counted, Mandatory, Plain, Consumes, LoopsConsume, Run, PathOn, WayOn, WalkOn, Clear, Opened,
      Branching;
    var mem: Memory :| Tables(mem, g) && !Succeeds(x, g, s, t, mem);
    assert g.strip[g.laststate].OEnd?;
    var goal := Goal(x, g.strip, t, g.laststate);
    NumbersInTable(r, multiset{}, g.nsub);
    BranchesMissNothing(goal, g.firststate + 1, r, s, mem);
    AllNumbered(g, r);
    assert Other(Point(g.firststate + 1, s, pm), mem.pm[0]) == Point(g.firststate + 1, s, mem.pm);
    if PathOn(goal, Point(g.firststate + 1, s, pm)) {
      FirstUnused(goal, g.nsub, Point(g.firststate + 1, s, pm), mem.pm[0]);
    }
    PathIsWay(goal, Point(g.firststate + 1, s, pm));
    WalkIsWay(goal, Point(g.firststate + 1, s, pm));
  }

  lemma {:induction false} NumbersInTable(r: Re, open: multiset<nat>, nsub: nat)
    requires Opened(r, open, nsub).Some?
    ensures InTable(r, nsub + 1)
    decreases r
  {
    match r
    case Eps =>
    case Leaf(atom, k) => NumbersInTable(k, Behind(atom, open), nsub);
    case Plus(b, k) => NumbersInTable(b, open, nsub); NumbersInTable(k, open, nsub);
    case Quest(b, k) => NumbersInTable(b, open, nsub); NumbersInTable(k, open, nsub);
    case Choice(f, alts, k) =>
      NumbersInTable(f, open, nsub);
      AltNumbersInTable(alts, open, nsub);
      NumbersInTable(k, open, nsub);
    case Back(_, _, k) => NumbersInTable(k, open, nsub);
  }

  lemma {:induction false} AltNumbersInTable(alts: Alts, open: multiset<nat>, nsub: nat)
    requires ClosedIn(alts, open, nsub)
    ensures AltsInTable(alts, nsub + 1)
    decreases alts
  {
    NumbersInTable(alts.b, open, nsub);
    if alts.Or? { AltNumbersInTable(alts.more, open, nsub); }
  }

  lemma {:induction false} AllNumbered(g: Guts, r: Re)
    requires Compiled(g, r) && Alone(g, r)
    ensures forall q :: 0 <= q < |g.strip| ==> NumberOk(g.strip[q], g.nsub)
  {
    hide Laid, Len, Counted, Mandatory, Plain, Opened;
    forall q | 0 <= q < |g.strip|
      ensures NumberOk(g.strip[q], g.nsub)
    {
      if g.firststate + 1 <= q < g.laststate {
        Numbered(g.strip, g.firststate + 1, r, multiset{}, g.nsub, q);
      } else {
        assert g.strip[q].OEnd?;
      }
    }
  }

  /** The same point with another entry 0, which no operator uses. */
  function Other(p: Point, first: Span): Point {
    if |p.pm| > 0 then p.(pm := p.pm[0 := first]) else p
  }

  lemma {:induction false} OtherHop(x: Subject, strip: Ops, stop: nat, nsub: nat, c: Point, d: Point, first: Span)
    requires x.Valid() && stop <= x.end && Hop(x, strip, stop, c, d) && NumberOk(strip[c.ss], nsub)
    ensures Hop(x, strip, stop, Other(c, first), Other(d, first))
  {
    hide FindBack, ChEnd, Repeats, EasyStep;
  }

  lemma {:induction false} FirstUnused(g: Goal, nsub: nat, c: Point, first: Span)
    requires g.Valid() && PathOn(g, c) && forall q :: 0 <= q < |g.strip| ==> NumberOk(g.strip[q], nsub)
    ensures PathOn(g, Other(c, first))
  {
    hide Hop, LoopsConsume, NumberOk;
    var pm :| Leads(g.x, g.strip, g.stop, c, Point(g.stopst, g.stop, pm));
    var X := iset p: Point | Leads(g.x, g.strip, g.stop, Other(c, first), Other(p, first));
    forall p, q | p in X && Hop(g.x, g.strip, g.stop, p, q)
      ensures q in X
    {
      HopIsHere(g.x, g.strip, g.stop, p, q);
      OtherHop(g.x, g.strip, g.stop, nsub, p, q, first);
      Append(g, Other(c, first), Other(p, first), Other(q, first));
    }
    assert c in X;
    assert PointClosed(g.x, g.strip, g.stop, X);
    assert Point(g.stopst, g.stop, pm) in X;
  }

  lemma {:induction false} HopIsHere(x: Subject, strip: Ops, stop: nat, c: Point, d: Point)
    requires x.Valid() && stop <= x.end && Hop(x, strip, stop, c, d)
    ensures c.ss < |strip|
  {
  }

  /** On compiled code, from the tables matcher prepares, backref meets every assertion and stays within its
      tables, however deep its calls get. */
  lemma {:induction false} NoAssertionFails(x: Subject, g: Guts, r: Re, s: nat, t: nat, mem: Memory, n: nat)
    requires Compiled(g, r) && x.Valid() && x.begin <= s <= t <= x.end && Tables(mem, g)
    ensures Sane(n, Frame(x, g.strip, t, g.nsub), g.laststate, g.firststate + 1, s, 0, mem)
  {
    hide Laid, Len, Counted, Mandatory, Plain, Opened, Sane, Depth;
    TablesAreSane(n, Frame(x, g.strip, t, g.nsub), g.firststate + 1, r, |mem.last|, s, mem);
  }
}
