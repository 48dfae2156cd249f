/** nbol and neol: regcomp.c counts a ^ or a $ each time it emits one, so for an expression
    compiled without a bounded repetition they are exactly the numbers in the strip. */
module Counting {
  import opened Strip
  import opened Regex
  import opened Simulation
  import opened Thompson
  import opened Syntax

  function Count(r: Re, op: Sop): nat {
    match r
    case Eps => 0
    case Leaf(atom, k) => (if atom.Code() == op then 1 else 0) + Count(k, op)
    case Plus(b, k) => Count(b, op) + Count(k, op)
    case Quest(b, k) => Count(b, op) + Count(k, op)
    case Choice(f, alts, k) => Count(f, op) + CountAlts(alts, op) + Count(k, op)
    case Back(_, b, k) => Count(b, op) + Count(k, op)
  }

  function CountAlts(alts: Alts, op: Sop): nat {
    match alts
    case Last(b) => Count(b, op)
    case Or(b, m) => Count(b, op) + CountAlts(m, op)
  }

  /** How often the parser sees the symbol. */
  function Seen(e: Expr, op: Sop): nat {
    match e
    case Empty => 0
    case Sym(atom) => if atom.Code() == op then 1 else 0
    case Cat(l, r) => Seen(l, op) + Seen(r, op)
    case Union(f, rest) => Seen(f, op) + SeenIn(rest, op)
    case Star(d) => Seen(d, op)
    case Some1(d) => Seen(d, op)
    case Opt(d) => Seen(d, op)
    case Group(_, d) => Seen(d, op)
  }

  function SeenIn(bs: Branches, op: Sop): nat {
    match bs
    case One(e) => Seen(e, op)
    case More(e, rest) => Seen(e, op) + SeenIn(rest, op)
  }

  predicate Line(op: Sop) { op.OBol? || op.OEol? }

  lemma {:induction false} EmitCount(e: Expr, k: Re, op: Sop)
    requires Line(op)
    ensures Count(Emit(e, k), op) == Seen(e, op) + Count(k, op)
    decreases e, 0
  {
    match e
    case Empty =>
    case Sym(atom) =>
    case Cat(l, r) => EmitCount(l, Emit(r, k), op); EmitCount(r, k, op);
    case Union(f, rest) => EmitCount(f, Eps, op); EmitCountIn(rest, op);
    case Star(d) => StarCount(d, k, op);
    case Some1(d) => EmitCount(d, Eps, op);
    case Opt(d) => OptCount(d, k, op);
    case Group(n, d) => GroupCount(n, d, k, op);
  }

  lemma {:induction false} StarCount(d: Expr, k: Re, op: Sop)
    requires Line(op)
    ensures Count(Quest(Plus(Emit(d, Eps), Eps), k), op) == Seen(d, op) + Count(k, op)
    decreases d, 1
  {
    EmitCount(d, Eps, op);
  }

  lemma {:induction false} OptCount(d: Expr, k: Re, op: Sop)
    requires Line(op)
    ensures Count(Choice(Emit(d, Eps), Last(Eps), k), op) == Seen(d, op) + Count(k, op)
    decreases d, 1
  {
    EmitCount(d, Eps, op);
  }

  lemma {:induction false} GroupCount(n: nat, d: Expr, k: Re, op: Sop)
    requires Line(op)
    ensures Count(Leaf(LParen(n), Emit(d, Leaf(RParen(n), k))), op) == Seen(d, op) + Count(k, op)
    decreases d, 1
  {
    EmitCount(d, Leaf(RParen(n), k), op);
  }

  lemma {:induction false} EmitCountIn(bs: Branches, op: Sop)
    requires Line(op)
    ensures CountAlts(EmitBranches(bs), op) == SeenIn(bs, op)
    decreases bs, 0
  {
    match bs
    case One(e) => EmitCount(e, Eps, op);
    case More(e, rest) => EmitCount(e, Eps, op); EmitCountIn(rest, op);
  }

  // ----- counting along the strip -----

  lemma {:induction false} JoinWhere(strip: Ops, lo: nat, m: nat, hi: nat, op: Sop)
    requires lo <= m <= hi <= |strip|
    ensures |Where(strip, lo, hi, op)| == |Where(strip, lo, m, op)| + |Where(strip, m, hi, op)|
  {
    var A, B := Where(strip, lo, m, op), Where(strip, m, hi, op);
    assert Where(strip, lo, hi, op) == A + B && A !! B;
  }

  lemma {:induction false} OneWhere(strip: Ops, s: nat, op: Sop)
    requires s < |strip|
    ensures |Where(strip, s, s + 1, op)| == if strip[s] == op then 1 else 0
  {
    assert Where(strip, s, s + 1, op) == if strip[s] == op then {s} else {};
  }

  /** opener, body, closer, and the rest. */
  lemma {:induction false} BracketWhere(strip: Ops, o: nat, m: nat, e: nat, op: Sop)
    requires o < m < e <= |strip| && strip[o] != op && strip[m] != op
    ensures |Where(strip, o, e, op)| == |Where(strip, o + 1, m, op)| + |Where(strip, m + 1, e, op)|
  {
    hide Where;
    JoinWhere(strip, o, o + 1, e, op);
    JoinWhere(strip, o + 1, m, e, op);
    JoinWhere(strip, m, m + 1, e, op);
    OneWhere(strip, o, op);
    OneWhere(strip, m, op);
  }

  lemma {:induction false} StripCount(strip: Ops, o: nat, r: Re, op: Sop)
    requires Laid(strip, o, r) && o + Len(r) <= |strip| && Line(op)
    ensures |Where(strip, o, o + Len(r), op)| == Count(r, op)
    decreases r, 1
  {
    hide Laid, LaidAlts, Layout, LayoutAlts, ChEnd, Len, LenAlts, Where;
    LayoutOf(r);
    match r
    case Eps => NoneWhere(strip, o, op);
    case Leaf(atom, k) =>
      LaidLeaf(strip, o, atom, k);
      JoinWhere(strip, o, o + 1, o + 1 + Len(k), op);
      OneWhere(strip, o, op);
      StripCount(strip, o + 1, k, op);
    case Plus(b, k) =>
      LaidPlus(strip, o, b, k);
      PairCount(strip, o, r, b, k, op);
    case Quest(b, k) =>
      LaidQuest(strip, o, b, k);
      PairCount(strip, o, r, b, k, op);
    case Back(i, b, k) =>
      LaidBack(strip, o, i, b, k);
      PairCount(strip, o, r, b, k, op);
    case Choice(f, alts, k) =>
      ChoiceCount(strip, o, f, alts, k, op);
  }

  lemma {:induction false} ChoiceCount(strip: Ops, o: nat, f: Re, alts: Alts, k: Re, op: Sop)
    requires Laid(strip, o, Choice(f, alts, k)) && o + Len(Choice(f, alts, k)) <= |strip| && Line(op)
    ensures |Where(strip, o, o + Len(Choice(f, alts, k)), op)| == Count(Choice(f, alts, k), op)
    decreases Choice(f, alts, k), 0
  {
    hide Laid, LaidAlts, ChEnd, Len, LenAlts, Where;
    LenOfChoice(f, alts, k);
    var c := LaidChoice(strip, o, f, alts, k);
    BracketWhere(strip, o, o + 1 + Len(f), c + 1 + Len(k), op);
    JoinWhere(strip, o + 2 + Len(f), c + 1, c + 1 + Len(k), op);
    StripCount(strip, o + 1, f, op);
    AltsCount(strip, o + 2 + Len(f), alts, op);
    StripCount(strip, c + 1, k, op);
  }

  lemma {:induction false} NoneWhere(strip: Ops, o: nat, op: Sop)
    requires o <= |strip|
    ensures |Where(strip, o, o, op)| == 0
  {
    assert Where(strip, o, o, op) == {};
  }

  lemma {:induction false} PairCount(strip: Ops, o: nat, r: Re, b: Re, k: Re, op: Sop)
    requires r == Plus(b, k) || r == Quest(b, k) || (r.Back? && r.body == b && r.next == k)
    requires Line(op) && o + 2 + Len(b) + Len(k) <= |strip| && strip[o] != op && strip[o + 1 + Len(b)] != op
    requires Laid(strip, o + 1, b) && Laid(strip, o + 2 + Len(b), k)
    ensures |Where(strip, o, o + 2 + Len(b) + Len(k), op)| == Count(b, op) + Count(k, op)
    decreases r, 0
  {
    hide Laid, Len, Where, Count;
    BracketWhere(strip, o, o + 1 + Len(b), o + 2 + Len(b) + Len(k), op);
    StripCount(strip, o + 1, b, op);
    StripCount(strip, o + 2 + Len(b), k, op);
  }

  lemma {:induction false} AltsCount(strip: Ops, o: nat, alts: Alts, op: Sop)
    requires LaidAlts(strip, o, alts) && o + LenAlts(alts) <= |strip| && Line(op)
    ensures |Where(strip, o, o + LenAlts(alts), op)| == CountAlts(alts, op)
    decreases alts, 0
  {
    hide Laid, LaidAlts, ChEnd, Len, LenAlts, Where, Count;
    match alts
    case Last(b) =>
      LaidLast(strip, o, b);
      LenOfLast(b);
      BracketWhere(strip, o, o + 1 + Len(b), o + 2 + Len(b), op);
      NoneWhere(strip, o + 2 + Len(b), op);
      StripCount(strip, o + 1, b, op);
    case Or(b, m) =>
      LaidOr(strip, o, b, m);
      LenOfOr(b, m);
      BracketWhere(strip, o, o + 1 + Len(b), o + 2 + Len(b) + LenAlts(m), op);
      StripCount(strip, o + 1, b, op);
      AltsCount(strip, o + 2 + Len(b), m, op);
  }

  /** The counts the parser keeps are counts of the strip. */
  lemma {:induction false} CodeIsCounted(e: Expr)
    ensures |Code(e)| == Len(Emit(e, Eps)) + 2
    ensures |Where(Code(e), 1, |Code(e)| - 1, OBol)| == Seen(e, OBol)
    ensures |Where(Code(e), 1, |Code(e)| - 1, OEol)| == Seen(e, OEol)
    ensures Counted(Code(e), 1, |Code(e)| - 1, Seen(e, OBol), Seen(e, OEol))
  {
    hide Laid, Layout, Len, Where;
    CodeIsLaid(e);
    StripCount(Code(e), 1, Emit(e, Eps), OBol);
    StripCount(Code(e), 1, Emit(e, Eps), OEol);
    EmitCount(e, Eps, OBol);
    EmitCount(e, Eps, OEol);
  }
}
