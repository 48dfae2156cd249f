/** The code generator (src/backend/regex/regcomp.c, lines 317-357, 457-500, 1037-1102 and
    1470-1590): it builds the strip in place, inserting operators before what was already emitted
    and correcting offsets afterwards. */
module CodeGen {
  import opened Strip
  import opened Text
  import opened Regex
  import opened Syntax
  import Thompson

  const DUPMAX: nat := 255
  const INFINITY: nat := DUPMAX + 1

  /** The code for an expression. */
  function Form(e: Expr): Ops { Layout(Emit(e, Eps)) }

  /** How each construct is laid out around the code of its parts. */
  lemma {:induction false} FormOf(e: Expr, k: Re)
    ensures e.Some1? ==> Layout(Emit(e, k)) == PlusForm(Form(e.e)) + Layout(k)
    ensures e.Star? ==> Layout(Emit(e, k)) == QuestForm(PlusForm(Form(e.e))) + Layout(k)
    ensures e.Opt? ==> Layout(Emit(e, k)) == OptForm(Form(e.e)) + Layout(k)
    ensures e.Union? ==> Layout(Emit(e, k)) == UnionForm(Form(e.first), LayoutAlts(EmitBranches(e.rest))) + Layout(k)
  {
    match e
    case Some1(d) => PairForm(Emit(d, Eps), k);
    case Star(d) => PairForm(Emit(d, Eps), Eps); PairForm(Plus(Emit(d, Eps), Eps), k);
    case Opt(d) => ChoiceForm(Emit(d, Eps), Last(Eps), k);
    case Union(f, rest) => ChoiceForm(Emit(f, Eps), EmitBranches(rest), k);
    case _ =>
  }

  function PlusForm(b: Ops): Ops { [OPlus_(|b| + 1)] + b + [O_Plus(|b| + 1)] }

  function QuestForm(b: Ops): Ops { [OQuest_(|b| + 1)] + b + [O_Quest(|b| + 1)] }

  function UnionForm(f: Ops, rest: Ops): Ops { [OCh_(|f| + 2)] + f + [OOr1(|f| + 1)] + rest }

  function OptForm(b: Ops): Ops { UnionForm(b, [OOr2(1), O_Ch(2)]) }

  lemma {:induction false} PairForm(b: Re, k: Re)
    ensures Layout(Plus(b, k)) == PlusForm(Layout(b)) + Layout(k) && Layout(Plus(b, Eps)) == PlusForm(Layout(b))
    ensures Layout(Quest(b, k)) == QuestForm(Layout(b)) + Layout(k)
  {
    hide Layout;
    NoLayout();
    PairLayout(b, k);
    PairLayout(b, Eps);
  }

  lemma {:induction false} PairLayout(b: Re, k: Re)
    ensures Layout(Plus(b, k)) == [OPlus_(|Layout(b)| + 1)] + Layout(b) + [O_Plus(|Layout(b)| + 1)] + Layout(k)
    ensures Layout(Quest(b, k)) == [OQuest_(|Layout(b)| + 1)] + Layout(b) + [O_Quest(|Layout(b)| + 1)] + Layout(k)
  {
    hide Layout;
    Thompson.LayoutOf(Plus(b, k));
    Thompson.LayoutOf(Quest(b, k));
  }

  lemma {:induction false} ChoiceForm(f: Re, alts: Alts, k: Re)
    ensures Layout(Choice(f, alts, k)) == UnionForm(Layout(f), LayoutAlts(alts)) + Layout(k)
    ensures LayoutAlts(Last(Eps)) == [OOr2(1), O_Ch(2)]
  {
    hide Layout, LayoutAlts;
    ChoiceLayout(f, alts, k);
    NoLayout();
    LastLayout(Eps);
  }

  lemma {:induction false} ChoiceLayout(f: Re, alts: Alts, k: Re)
    ensures Layout(Choice(f, alts, k))
      == [OCh_(|Layout(f)| + 2)] + Layout(f) + [OOr1(|Layout(f)| + 1)] + LayoutAlts(alts) + Layout(k)
  {
    hide Layout, LayoutAlts;
    Thompson.LayoutOf(Choice(f, alts, k));
  }

  lemma {:induction false} LastLayout(b: Re)
    ensures LayoutAlts(Last(b)) == [OOr2(|Layout(b)| + 1)] + Layout(b) + [O_Ch(|Layout(b)| + 2)]
  {
  }

  lemma {:induction false} LayoutSplits(e: Expr, k: Re)
    ensures Layout(Emit(e, k)) == Form(e) + Layout(k)
    decreases e, 1
  {
    hide Layout, LayoutAlts, Emit, EmitBranches;
    NoLayout();
    match e
    case Empty => EmitSmall(e, k); EmitSmall(e, Eps);
    case Sym(atom) => EmitSmall(e, k); EmitSmall(e, Eps); LeafForm(atom, k); LeafForm(atom, Eps);
    case Cat(l, r) =>
      EmitSmall(e, k);
      EmitSmall(e, Eps);
      LayoutSplits(l, Emit(r, k));
      LayoutSplits(r, k);
      LayoutSplits(l, Emit(r, Eps));
    case Group(n, d) =>
      GroupForm(n, d, k);
      GroupForm(n, d, Eps);
    case Union(_, _) => FormOf(e, k); FormOf(e, Eps);
    case Star(_) => FormOf(e, k); FormOf(e, Eps);
    case Some1(_) => FormOf(e, k); FormOf(e, Eps);
    case Opt(_) => FormOf(e, k); FormOf(e, Eps);
  }

  lemma {:induction false} GroupForm(n: nat, d: Expr, k: Re)
    ensures Layout(Emit(Group(n, d), k)) == [OLParen(n)] + Form(d) + [ORParen(n)] + Layout(k)
    decreases Group(n, d), 0
  {
    hide Layout, Emit, Form;
    EmitSmall(Group(n, d), k);
    LeafForm(LParen(n), Emit(d, Leaf(RParen(n), k)));
    LayoutSplits(d, Leaf(RParen(n), k));
    LeafForm(RParen(n), k);
  }

  lemma {:induction false} EmitSmall(e: Expr, k: Re)
    ensures e.Empty? ==> Emit(e, k) == k
    ensures e.Sym? ==> Emit(e, k) == Leaf(e.atom, k)
    ensures e.Cat? ==> Emit(e, k) == Emit(e.l, Emit(e.r, k))
    ensures e.Group? ==> Emit(e, k) == Leaf(LParen(e.n), Emit(e.e, Leaf(RParen(e.n), k)))
  {
  }

  lemma {:induction false} LeafForm(atom: Atom, k: Re)
    ensures Layout(Leaf(atom, k)) == [atom.Code()] + Layout(k)
  {
  }

  lemma {:induction false} NoLayout()
    ensures Layout(Eps) == []
  {
  }

  lemma {:induction false} Shapes(e: Expr)
    ensures e.Empty? ==> Form(e) == []
    ensures e.Sym? ==> Form(e) == [e.atom.Code()]
    ensures e.Cat? ==> Form(e) == Form(e.l) + Form(e.r)
    ensures e.Group? ==> Form(e) == [OLParen(e.n)] + Form(e.e) + [ORParen(e.n)]
    ensures e.Some1? ==> Form(e) == PlusForm(Form(e.e))
    ensures e.Star? ==> Form(e) == QuestForm(PlusForm(Form(e.e)))
    ensures e.Opt? ==> Form(e) == OptForm(Form(e.e))
    ensures e.Union? ==> Form(e) == UnionForm(Form(e.first), LayoutAlts(EmitBranches(e.rest)))
  {
    hide Layout, LayoutAlts, Emit, EmitBranches;
    NoLayout();
    EmitSmall(e, Eps);
    FormOf(e, Eps);
    match e
    case Sym(atom) => LeafForm(atom, Eps);
    case Cat(l, r) => LayoutSplits(l, Emit(r, Eps));
    case Group(n, d) =>
      LeafForm(LParen(n), Emit(d, Leaf(RParen(n), Eps)));
      LayoutSplits(d, Leaf(RParen(n), Eps));
      LeafForm(RParen(n), Eps);
    case _ =>
  }

  // ----- bounded repetition -----

  /** x{least,most} written out in stars, pluses and options, the way `repeat` does it. */
  function Bounded(d: Expr, least: nat, most: nat): Expr
    requires least <= most <= INFINITY && least <= DUPMAX
    decreases most, if least == 0 then INFINITY else least
  {
    if least == 0 then if most == 0 then Empty else Opt(Bounded(d, 1, most))
    else if least == 1 then
      if most == 1 then d
      else if most == INFINITY then Some1(d)
      else Cat(Opt(d), Bounded(d, 1, most - 1))
    else Cat(d, Bounded(d, least - 1, if most == INFINITY then most else most - 1))
  }

  /** Between `least` and `most` matches in a row; INFINITY stands for any number. */
  ghost predicate TimesIn(x: Subject, d: Expr, least: nat, most: nat, a: At, b: At) {
    exists n: nat :: least <= n && (most == INFINITY || n <= most) && Times(x, d, n, a, b)
  }

  lemma {:induction false} TimesJoins(x: Subject, d: Expr, p: nat, q: nat, a: At, m: At, b: At)
    requires Times(x, d, p, a, m) && Times(x, d, q, m, b)
    ensures Times(x, d, p + q, a, b)
    decreases q
  {
    hide Lang;
    if q > 0 {
      var n := TimesSplit(x, d, q, m, b);
      TimesJoins(x, d, p, q - 1, a, m, n);
      TimesJoin(x, d, p + q, a, n, b);
    }
  }

  lemma {:induction false} TimesSplits(x: Subject, d: Expr, p: nat, q: nat, a: At, b: At) returns (m: At)
    requires Times(x, d, p + q, a, b)
    ensures Times(x, d, p, a, m) && Times(x, d, q, m, b)
    decreases q
  {
    hide Lang;
    if q == 0 {
      TimesIsIn(x, d, p, a, b);
      m := b;
    } else {
      var n := TimesSplit(x, d, p + q, a, b);
      m := TimesSplits(x, d, p, q - 1, a, n);
      TimesJoin(x, d, q, m, n, b);
    }
  }

  lemma {:induction false} TimesIsIn(x: Subject, d: Expr, n: nat, a: At, b: At)
    requires Times(x, d, n, a, b)
    ensures In(x, a) && In(x, b)
    decreases n
  {
    hide Lang;
    if n > 0 {
      var m := TimesSplit(x, d, n, a, b);
      TimesIsIn(x, d, n - 1, a, m);
      LangIsIn(x, d, m, b);
    }
  }

  lemma {:induction false} OneTime(x: Subject, d: Expr, a: At, b: At)
    ensures Times(x, d, 1, a, b) <==> Lang(x, d, a, b)
    ensures Times(x, d, 0, a, b) <==> a == b && In(x, a)
  {
    hide Lang;
    if Times(x, d, 1, a, b) {
      var m := TimesSplit(x, d, 1, a, b);
    }
    if Lang(x, d, a, b) {
      LangIsIn(x, d, a, b);
      assert Times(x, d, 0, a, a);
    }
  }

  /** Writing it out keeps the meaning: what it matches is what between `least` and `most` matches of
      the operand in a row match. */
  lemma {:induction false} BoundedMeans(x: Subject, d: Expr, least: nat, most: nat, a: At, b: At)
    requires least <= most <= INFINITY && least <= DUPMAX
    ensures Lang(x, Bounded(d, least, most), a, b) <==> TimesIn(x, d, least, most, a, b)
    decreases most, if least == 0 then INFINITY else least
  {
    hide Lang, Times;
    if least == 0 {
      if most == 0 {
        EmptyLang(x, a, b);
        OneTime(x, d, a, b);
      } else {
        BoundedMeans(x, d, 1, most, a, b);
        MaybeTimes(x, d, most, a, b);
      }
    } else if least == 1 && most == 1 {
      OneTime(x, d, a, b);
    } else if least == 1 && most == INFINITY {
      PlusTimes(x, d, a, b);
    } else if least == 1 {
      var rest, most1 := Bounded(d, 1, most - 1), most - 1;
      forall m: At
        ensures Lang(x, rest, m, b) <==> TimesIn(x, d, 1, most1, m, b)
      {
        BoundedMeans(x, d, 1, most - 1, m, b);
      }
      OptionalFirst(x, d, Bounded(d, 1, most - 1), most, a, b);
    } else {
      var most1, least1 := if most == INFINITY then most else most - 1, least - 1;
      var rest := Bounded(d, least1, most1);
      forall m: At
        ensures Lang(x, rest, m, b) <==> TimesIn(x, d, least1, most1, m, b)
      {
        BoundedMeans(x, d, least - 1, most1, m, b);
      }
      OneFirst(x, d, Bounded(d, least - 1, most1), least, most, a, b);
    }
  }

  lemma {:induction false} EmptyLang(x: Subject, a: At, b: At)
    ensures Lang(x, Empty, a, b) <==> a == b && In(x, a)
  {
  }

  lemma {:induction false} MaybeTimes(x: Subject, d: Expr, most: nat, a: At, b: At)
    requires 0 < most <= INFINITY && (Lang(x, Bounded(d, 1, most), a, b) <==> TimesIn(x, d, 1, most, a, b))
    ensures Lang(x, Opt(Bounded(d, 1, most)), a, b) <==> TimesIn(x, d, 0, most, a, b)
  {
    hide Lang, Times, Bounded;
    OptLang(x, Bounded(d, 1, most), a, b);
    OneTime(x, d, a, b);
    if TimesIn(x, d, 0, most, a, b) {
      var n: nat :| (most == INFINITY || n <= most) && Times(x, d, n, a, b);
      TimesIsIn(x, d, n, a, b);
    }
    if TimesIn(x, d, 1, most, a, b) {
      var n: nat :| 1 <= n && (most == INFINITY || n <= most) && Times(x, d, n, a, b);
      TimesIsIn(x, d, n, a, b);
    }
  }

  lemma {:induction false} PlusTimes(x: Subject, d: Expr, a: At, b: At)
    ensures Lang(x, Some1(d), a, b) <==> TimesIn(x, d, 1, INFINITY, a, b)
  {
    hide Lang, Times;
    if Lang(x, Some1(d), a, b) {
      var n := Some1Split(x, d, a, b);
    }
    if TimesIn(x, d, 1, INFINITY, a, b) {
      var n: nat :| 1 <= n && Times(x, d, n, a, b);
      TimesIsIn(x, d, n, a, b);
      Some1Lang(x, d, n, a, b);
    }
  }

  lemma {:induction false} OptionalFirst(x: Subject, d: Expr, rest: Expr, most: nat, a: At, b: At)
    requires 1 < most < INFINITY && forall m :: Lang(x, rest, m, b) <==> TimesIn(x, d, 1, most - 1, m, b)
    ensures Lang(x, Cat(Opt(d), rest), a, b) <==> TimesIn(x, d, 1, most, a, b)
  {
    hide Lang, Times;
    if Lang(x, Cat(Opt(d), rest), a, b) {
      var m := CatSplit(x, Opt(d), rest, a, b);
      OptLang(x, d, a, m);
      var n: nat :| 1 <= n <= most - 1 && Times(x, d, n, m, b);
      if a != m {
        OneTime(x, d, a, m);
        TimesJoins(x, d, 1, n, a, m, b);
      }
    }
    if TimesIn(x, d, 1, most, a, b) {
      var n: nat :| 1 <= n <= most && Times(x, d, n, a, b);
      TimesIsIn(x, d, n, a, b);
      if n < most {
        OptLang(x, d, a, a);
        CatLang(x, Opt(d), rest, a, a, b);
      } else {
        var m := TimesSplits(x, d, 1, n - 1, a, b);
        OneTime(x, d, a, m);
        TimesIsIn(x, d, 1, a, m);
        OptLang(x, d, a, m);
        assert TimesIn(x, d, 1, most - 1, m, b);
        CatLang(x, Opt(d), rest, a, m, b);
      }
    }
  }

  lemma {:induction false} OneFirst(x: Subject, d: Expr, rest: Expr, least: nat, most: nat, a: At, b: At)
    requires 1 < least <= most <= INFINITY
    requires forall m :: Lang(x, rest, m, b) <==>
             TimesIn(x, d, least - 1, if most == INFINITY then most else most - 1, m, b)
    ensures Lang(x, Cat(d, rest), a, b) <==> TimesIn(x, d, least, most, a, b)
  {
    hide Lang, Times;
    if Lang(x, Cat(d, rest), a, b) {
      var m := CatSplit(x, d, rest, a, b);
      OneTime(x, d, a, m);
      var n: nat :| least - 1 <= n && (most == INFINITY || n <= most - 1) && Times(x, d, n, m, b);
      TimesJoins(x, d, 1, n, a, m, b);
    }
    if TimesIn(x, d, least, most, a, b) {
      var n: nat :| least <= n && (most == INFINITY || n <= most) && Times(x, d, n, a, b);
      var m := TimesSplits(x, d, 1, n - 1, a, b);
      OneTime(x, d, a, m);
      assert TimesIn(x, d, least - 1, if most == INFINITY then most else most - 1, m, b);
      CatLang(x, d, rest, a, m, b);
    }
  }

  // ----- and its code -----

  /** So many in a row. */
  function Row(F: Ops, n: nat): Ops {
    if n == 0 then [] else F + Row(F, n - 1)
  }

  /** At least one: plain copies, then optional ones, then a last one; or plain copies, the last under a +. */
  function RowForm(F: Ops, least: nat, most: nat): Ops
    requires 0 < least <= most
  {
    Row(F, least - 1) + (if most == INFINITY then PlusForm(F) else Row(OptForm(F), most - least) + F)
  }

  /** The code of a bounded repetition, from that of its operand. */
  function RepeatForm(F: Ops, least: nat, most: nat): Ops
    requires least <= most
  {
    if most == 0 then [] else if least == 0 then OptForm(RowForm(F, 1, most)) else RowForm(F, least, most)
  }

  lemma {:induction false} BoundedForm(d: Expr, least: nat, most: nat)
    requires least <= most <= INFINITY && least <= DUPMAX
    ensures Form(Bounded(d, least, most)) == RepeatForm(Form(d), least, most)
    decreases most, if least == 0 then INFINITY else least
  {
    hide Form, OptForm, PlusForm, RowForm, Bounded;
    var F := Form(d);
    OneStep(d, least, most);
    if least == 0 {
      if most > 0 { BoundedForm(d, 1, most); }
    } else if least == 1 {
      if most == 1 || most == INFINITY {
        OneInRow(F, most);
      } else {
        BoundedForm(d, 1, most - 1);
        OneOption(F, most);
      }
    } else {
      BoundedForm(d, least - 1, if most == INFINITY then most else most - 1);
      OneCopy(F, least, most);
    }
  }

  lemma {:induction false} OneStep(d: Expr, least: nat, most: nat)
    requires least <= most <= INFINITY && least <= DUPMAX
    ensures Form(Bounded(d, least, most)) ==
      if least == 0 then if most == 0 then [] else OptForm(Form(Bounded(d, 1, most)))
      else if least == 1 then
        if most == 1 then Form(d)
        else if most == INFINITY then PlusForm(Form(d))
        else OptForm(Form(d)) + Form(Bounded(d, 1, most - 1))
      else Form(d) + Form(Bounded(d, least - 1, if most == INFINITY then most else most - 1))
  {
    hide Form, OptForm, PlusForm;
    Shapes(Bounded(d, least, most));
    Shapes(Opt(d));
  }

  lemma {:induction false} OneInRow(F: Ops, most: nat)
    requires most == 1 || most == INFINITY
    ensures RowForm(F, 1, most) == if most == 1 then F else PlusForm(F)
  {
  }

  lemma {:induction false} OneOption(F: Ops, most: nat)
    requires 1 < most < INFINITY
    ensures RowForm(F, 1, most) == OptForm(F) + RowForm(F, 1, most - 1)
  {
    hide OptForm;
    assert Row(OptForm(F), most - 1) == OptForm(F) + Row(OptForm(F), most - 2);
  }

  lemma {:induction false} OneCopy(F: Ops, least: nat, most: nat)
    requires 1 < least <= most <= INFINITY
    ensures RowForm(F, least, most) == F + RowForm(F, least - 1, if most == INFINITY then most else most - 1)
  {
    hide OptForm, PlusForm;
    var tail := if most == INFINITY then PlusForm(F) else Row(OptForm(F), most - least) + F;
    assert Row(F, least - 1) == F + Row(F, least - 2);
    assert (F + Row(F, least - 2)) + tail == F + (Row(F, least - 2) + tail);
  }

  // ----- the strip under construction -----

  class Parse {
    var strip: Ops

    constructor ()
      ensures strip == []
    {
      strip := [];
    }

    /** EMIT */
    method EmitOp(op: Sop)
      modifies this
      ensures strip == old(strip) + [op]
    {
      strip := strip + [op];
    }

    /** INSERT: emit it, and move it to where it belongs. */
    method Insert(op: Sop, pos: nat)
      requires pos <= |strip|
      modifies this
      ensures strip == old(strip[..pos]) + [op] + old(strip[pos..])
    {
      var sn := |strip|;
      EmitOp(op);
      var s := strip[sn];
      strip := strip[..pos] + [s] + strip[pos..sn];
    }

    /** AHEAD: complete the forward reference at `pos`. */
    method Ahead(pos: nat)
      requires pos < |strip| && (strip[pos].OCh_? || strip[pos].OOr2?)
      modifies this
      ensures strip == old(strip)[pos := old(strip)[pos].(fwd := |old(strip)| - pos)]
    {
      strip := strip[pos := strip[pos].(fwd := |strip| - pos)];
    }

    /** dupl: emit a copy of what stands from `start` to `finish`. */
    method Dupl(start: nat, finish: nat) returns (copy: nat)
      requires start <= finish <= |strip|
      modifies this
      ensures strip == old(strip) + old(strip[start..finish]) && copy == |old(strip)|
    {
      copy := |strip|;
      strip := strip + strip[start..finish];
    }

    /** x+ (lines 465-468). */
    method MakePlus(pos: nat)
      requires pos <= |strip|
      modifies this
      ensures strip == old(strip[..pos]) + PlusForm(old(strip[pos..]))
    {
      Insert(OPlus_(|strip| - pos + 1), pos);
      EmitOp(O_Plus(|strip| - pos));
    }

    /** x*, as (x+)? (lines 458-464). */
    method MakeStar(pos: nat)
      requires pos <= |strip|
      modifies this
      ensures strip == old(strip[..pos]) + QuestForm(PlusForm(old(strip[pos..])))
    {
      MakePlus(pos);
      ghost var pre, plus := old(strip[..pos]), PlusForm(old(strip[pos..]));
      assert strip[..pos] == pre && strip[pos..] == plus;
      Insert(OQuest_(|strip| - pos + 1), pos);
      EmitOp(O_Quest(|strip| - pos));
    }

    /** What follows an operand to make it optional; its OCH_ stands before it at `pos`. */
    method EndOptional(pos: nat)
      requires pos < |strip| && strip[pos].OCh_?
      modifies this
      ensures strip == old(strip[..pos]) + OptForm(old(strip[pos + 1..]))
    {
      ghost var pre, body := strip[..pos], strip[pos + 1..];
      EmitOp(OOr1(|strip| - pos));
      Ahead(pos);
      assert strip == pre + [OCh_(|body| + 2)] + body + [OOr1(|body| + 1)];
      EmitOp(OOr2(0));
      Ahead(|strip| - 1);
      EmitOp(O_Ch(2));
    }

    /** x?, as (x|) (lines 469-478). */
    method MakeOpt(pos: nat)
      requires pos <= |strip|
      modifies this
      ensures strip == old(strip[..pos]) + OptForm(old(strip[pos..]))
    {
      Insert(OCh_(|strip| - pos + 1), pos);
      EndOptional(pos);
    }
  
    /** repeat: turn the operand from `start` to the end into between `least` and `most` of it
        (lines 1037-1102). */
    method Repeat(start: nat, least: nat, most: nat, ghost d: Expr)
      requires start <= |strip| && strip[start..] == Form(d)
      requires least <= most <= INFINITY && least <= DUPMAX
      modifies this
      ensures strip == old(strip[..start]) + Form(Bounded(d, least, most))
      ensures strip == old(strip[..start]) + RepeatForm(old(strip[start..]), least, most)
      decreases most, if least == 0 then INFINITY else least, 1
    {
      hide Form, OptForm, PlusForm, RepeatForm;
      ghost var pre := strip[..start];
      BoundedForm(d, least, most);
      Shapes(Bounded(d, least, most));
      if least == 0 {
        if most == 0 {
          strip := strip[..start];
        } else {
          RepeatOptional(start, most, d);
        }
      } else if least == 1 {
        if most == INFINITY {
          MakePlus(start);
        } else if most > 1 {
          RepeatMore(start, most, d);
        } else {
          assert strip == pre + Form(d);
        }
      } else {
        var copy := Dupl(start, |strip|);
        assert strip[copy..] == Form(d) && strip[..copy] == pre + Form(d);
        Repeat(copy, least - 1, if most == INFINITY then most else most - 1, d);
      }
    }

    /** As x{1,most}? */
    method RepeatOptional(start: nat, most: nat, ghost d: Expr)
      requires start <= |strip| && strip[start..] == Form(d) && 0 < most <= INFINITY
      modifies this
      ensures strip == old(strip[..start]) + OptForm(Form(Bounded(d, 1, most)))
      decreases most, INFINITY, 0
    {
      hide Form, OptForm, Bounded;
      ghost var pre := strip[..start];
      Insert(OCh_(|strip| - start + 1), start);
      ghost var op := strip[start];
      assert strip[start + 1..] == Form(d) && strip[..start + 1] == pre + [op];
      Repeat(start + 1, 1, most, d);
      assert strip[start + 1..] == Form(Bounded(d, 1, most)) && strip[..start] == pre;
      EndOptional(start);
    }

    /** As x?x{1,most-1} */
    method RepeatMore(start: nat, most: nat, ghost d: Expr)
      requires start <= |strip| && strip[start..] == Form(d) && 1 < most < INFINITY
      modifies this
      ensures strip == old(strip[..start]) + (Form(Opt(d)) + Form(Bounded(d, 1, most - 1)))
      decreases most, 1, 0
    {
      hide Form, Bounded;
      ghost var pre := strip[..start];
      Shapes(Opt(d));
      var finish := |strip|;
      MakeOpt(start);
      assert strip[start + 1..finish + 1] == Form(d);
      var copy := Dupl(start + 1, finish + 1);
      assert copy == finish + 4;
      assert strip[copy..] == Form(d) && strip[..copy] == pre + Form(Opt(d));
      Repeat(copy, 1, most - 1, d);
    }

    /** The code for a parsed expression, emitted the way p_ere and p_ere_exp do. */
    method Generate(e: Expr)
      modifies this
      ensures strip == old(strip) + Form(e)
      decreases e, 0
    {
      hide Form;
      Shapes(e);
      ghost var pre := strip;
      var pos := |strip|;
      match e {
        case Empty =>
        case Sym(atom) => EmitOp(atom.Code());
        case Cat(l, r) =>
          Generate(l);
          Generate(r);
        case Union(f, rest) =>
          Generate(f);
          GenerateBranches(pos, f, rest);
        case Star(d) =>
          Generate(d);
          assert strip[..pos] == pre && strip[pos..] == Form(d);
          MakeStar(pos);
        case Some1(d) =>
          Generate(d);
          assert strip[..pos] == pre && strip[pos..] == Form(d);
          MakePlus(pos);
        case Opt(d) =>
          Generate(d);
          assert strip[..pos] == pre && strip[pos..] == Form(d);
          MakeOpt(pos);
        case Group(n, d) =>
          EmitOp(OLParen(n));
          Generate(d);
          EmitOp(ORParen(n));
      }
    }

    /** At the first |: what is there from `conc` on becomes the first branch. */
    method FirstBranch(conc: nat) returns (prevback: nat, prevfwd: nat)
      requires conc <= |strip|
      modifies this
      ensures strip == old(strip[..conc]) + UnionForm(old(strip[conc..]), []) + [OOr2(0)]
      ensures prevback + 1 == prevfwd == |strip| - 1
    {
      Insert(OCh_(|strip| - conc + 1), conc);
      EmitOp(OOr1(|strip| - conc));
      prevback := |strip| - 1;
      Ahead(conc);
      prevfwd := |strip|;
      EmitOp(OOr2(0));
    }

    /** At a later |: close the branch that follows the OOR2 at `fwd0`, and open the next. */
    method NextBranch(back0: nat, fwd0: nat) returns (prevback: nat, prevfwd: nat)
      requires back0 + 1 == fwd0 < |strip| && strip[fwd0] == OOr2(0)
      modifies this
      ensures var B := old(strip[fwd0 + 1..]);
              strip == old(strip[..fwd0]) + ([OOr2(|B| + 2)] + B + [OOr1(|B| + 2)]) + [OOr2(0)]
      ensures prevback + 1 == prevfwd == |strip| - 1
    {
      EmitOp(OOr1(|strip| - back0));
      prevback := |strip| - 1;
      Ahead(fwd0);
      prevfwd := |strip|;
      EmitOp(OOr2(0));
    }

    /** After the last branch. */
    method EndBranches(back0: nat, fwd0: nat)
      requires back0 + 1 == fwd0 < |strip| && strip[fwd0] == OOr2(0)
      modifies this
      ensures var B := old(strip[fwd0 + 1..]);
              strip == old(strip[..fwd0]) + ([OOr2(|B| + 1)] + B + [O_Ch(|B| + 2)])
    {
      Ahead(fwd0);
      EmitOp(O_Ch(|strip| - back0));
    }

    /** The branches after the first, which stands from `conc` on (lines 334-355). */
    method GenerateBranches(conc: nat, ghost f: Expr, rest: Branches)
      requires conc <= |strip| && strip[conc..] == Form(f)
      modifies this
      ensures strip == old(strip[..conc]) + UnionForm(Form(f), LayoutAlts(EmitBranches(rest)))
      decreases rest, 1
    {
      hide Form, LayoutAlts, EmitBranches;
      ghost var goal := strip[..conc] + UnionForm(Form(f), LayoutAlts(EmitBranches(rest)));
      var prevback, prevfwd := FirstBranch(conc);
      var bs := rest;
      while true
        invariant bs == rest || bs < rest
        invariant prevback + 1 == prevfwd == |strip| - 1 && strip[prevfwd] == OOr2(0)
        invariant strip[..prevfwd] + LayoutAlts(EmitBranches(bs)) == goal
        decreases bs
      {
        ghost var done := strip[..prevfwd];
        AltsForm(bs);
        Generate(bs.e);
        assert strip[..prevfwd] == done && strip[prevfwd + 1..] == Form(bs.e);
        if bs.One? {
          break;
        }
        prevback, prevfwd := NextBranch(prevback, prevfwd);
        Thompson.Regroup(done, strip[|done|..prevfwd], LayoutAlts(EmitBranches(bs.rest)));
        bs := bs.rest;
      }
      EndBranches(prevback, prevfwd);
    }
  }

  lemma {:induction false} AltsForm(bs: Branches)
    ensures bs.One? ==> var B := Form(bs.e); LayoutAlts(EmitBranches(bs)) == [OOr2(|B| + 1)] + B + [O_Ch(|B| + 2)]
    ensures bs.More? ==>
      var B := Form(bs.e);
      LayoutAlts(EmitBranches(bs)) == [OOr2(|B| + 2)] + B + [OOr1(|B| + 2)] + LayoutAlts(EmitBranches(bs.rest))
  {
  }
}
