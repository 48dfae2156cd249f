/** What the parser guarantees of loops and groups: how deep the loops are nested, which is what pluscount counts,
    and that parentheses are paired, their numbers those of groups, and a back reference stands behind the group
    it asks for. */
module Levels {
  import opened Strip
  import opened Text
  import opened Regex
  import opened Thompson
  import opened Captures
  import opened Backtrack
  import opened BackrefSound
  import opened Consuming

  // ----- what the parser guarantees -----

  /** pluscount: how deeply the + loops are nested (src/backend/regex/regcomp.c, lines 1706-1734). */
  function Depth(r: Re): nat {
    match r
    case Eps => 0
    case Leaf(_, k) => Depth(k)
    case Plus(b, k) => Max(1 + Depth(b), Depth(k))
    case Quest(b, k) => Max(Depth(b), Depth(k))
    case Choice(f, alts, k) => Max(Max(Depth(f), DepthAlts(alts)), Depth(k))
    case Back(_, b, k) => Max(Depth(b), Depth(k))
  }

  function DepthAlts(alts: Alts): nat {
    match alts
    case Last(b) => Depth(b)
    case Or(b, m) => Max(Depth(b), DepthAlts(m))
  }

  function Max(a: nat, b: nat): nat { if a < b then b else a }

  /** The groups that are open behind `r` if those of `open` are before it; None if a parenthesis has
      no partner in the same branch, a number is not one of a group, or a group is asked for while it
      is open, so that its copy cannot ask for it either. */
  function Opened(r: Re, open: multiset<nat>, nsub: nat): Option<multiset<nat>>
    decreases r
  {
    match r
    case Eps => Some(open)
    case Leaf(atom, k) =>
      match atom {
        case LParen(n) => if 0 < n <= nsub then Opened(k, open + multiset{n}, nsub) else None
        case RParen(n) => if 0 < n <= nsub && n in open then Opened(k, open - multiset{n}, nsub) else None
        case _ => Opened(k, open, nsub)
      }
    case Plus(b, k) => if Opened(b, open, nsub) == Some(open) then Opened(k, open, nsub) else None
    case Quest(b, k) => if Opened(b, open, nsub) == Some(open) then Opened(k, open, nsub) else None
    case Choice(f, alts, k) =>
      if Opened(f, open, nsub) == Some(open) && ClosedIn(alts, open, nsub) then Opened(k, open, nsub) else None
    case Back(n, b, k) =>
      if 0 < n <= nsub && n !in open && NoBack(n, b) && Opened(b, open, nsub) == Some(open) then Opened(k, open, nsub)
      else None
  }

  predicate ClosedIn(alts: Alts, open: multiset<nat>, nsub: nat)
    decreases alts
  {
    match alts
    case Last(b) => Opened(b, open, nsub) == Some(open)
    case Or(b, m) => Opened(b, open, nsub) == Some(open) && ClosedIn(m, open, nsub)
  }

  predicate WellGrouped(r: Re, nsub: nat) { Opened(r, multiset{}, nsub) == Some(multiset{}) }

  /** The groups open behind an atom. */
  function Behind(atom: Atom, open: multiset<nat>): multiset<nat> {
    match atom
    case LParen(n) => open + multiset{n}
    case RParen(n) => open - multiset{n}
    case _ => open
  }

  lemma {:induction false} OpenedParts(r: Re, open: multiset<nat>, nsub: nat)
    requires Opened(r, open, nsub).Some?
    ensures r == Eps ==> Opened(r, open, nsub) == Some(open)
    ensures r.Leaf? ==> Opened(r.next, Behind(r.atom, open), nsub) == Opened(r, open, nsub)
    ensures r.Leaf? && r.atom.Paren() ==> 0 < r.atom.n <= nsub && (r.atom.RParen? ==> r.atom.n in open)
    ensures r.Plus? || r.Quest? || r.Back? ==> Opened(r.body, open, nsub) == Some(open)
    ensures r.Plus? || r.Quest? || r.Back? || r.Choice? ==> Opened(r.next, open, nsub) == Opened(r, open, nsub)
    ensures r.Back? ==> 0 < r.n <= nsub && r.n !in open && NoBack(r.n, r.body)
    ensures r.Choice? ==> Opened(r.first, open, nsub) == Some(open) && ClosedIn(r.rest, open, nsub)
  {
  }

  lemma {:induction false} DepthParts(r: Re)
    ensures r != Eps ==> Depth(r.next) <= Depth(r)
    ensures r.Plus? ==> Depth(r.body) + 1 <= Depth(r)
    ensures r.Quest? || r.Back? ==> Depth(r.body) <= Depth(r)
    ensures r.Choice? ==> Depth(r.first) <= Depth(r) && DepthAlts(r.rest) <= Depth(r)
  {
  }

  /** Numbers of groups in the code are numbers there are. */
  predicate NumberOk(op: Sop, nsub: nat) { op.OLParen? || op.ORParen? || op.OBack_? ==> 0 < op.paren <= nsub }

  lemma {:induction false} Numbered(strip: Ops, o: nat, r: Re, open: multiset<nat>, nsub: nat, q: nat)
    requires Laid(strip, o, r) && Opened(r, open, nsub).Some? && o <= q < o + Len(r) && q < |strip|
    ensures NumberOk(strip[q], nsub)
    decreases r, 1
  {
    hide Laid, LaidAlts, Len, LenAlts, ChEnd, Opened, ClosedIn;
    OpenedParts(r, open, nsub);
    match r
    case Eps => LenOfEps();
    case Leaf(atom, k) =>
      LaidLeaf(strip, o, atom, k);
      LenOfLeaf(atom, k);
      if q > o {
        Numbered(strip, o + 1, k, Behind(atom, open), nsub, q);
      }
    case Plus(b, k) =>
      LaidPlus(strip, o, b, k);
      LenOfPlus(b, k);
      PairNumbered(strip, o, r, b, k, open, nsub, q);
    case Quest(b, k) =>
      LaidQuest(strip, o, b, k);
      LenOfQuest(b, k);
      PairNumbered(strip, o, r, b, k, open, nsub, q);
    case Back(i, b, k) =>
      LaidBack(strip, o, i, b, k);
      LenOfBack(i, b, k);
      PairNumbered(strip, o, r, b, k, open, nsub, q);
    case Choice(f, alts, k) =>
      ChoiceNumbered(strip, o, f, alts, k, open, nsub, q);
  }

  lemma {:induction false} ChoiceNumbered(strip: Ops, o: nat, f: Re, alts: Alts, k: Re, open: multiset<nat>,
        nsub: nat, q: nat)
    requires Laid(strip, o, Choice(f, alts, k)) && o <= q < o + Len(Choice(f, alts, k)) && q < |strip|
    requires Opened(f, open, nsub).Some? && ClosedIn(alts, open, nsub) && Opened(k, open, nsub).Some?
    ensures NumberOk(strip[q], nsub)
    decreases Choice(f, alts, k), 0
  {
    hide Laid, LaidAlts, Len, LenAlts, ChEnd, Opened, ClosedIn;
    var c := LaidChoice(strip, o, f, alts, k);
    LenOfChoice(f, alts, k);
    if o < q < o + 1 + Len(f) {
      Numbered(strip, o + 1, f, open, nsub, q);
    } else if o + 1 + Len(f) < q <= c {
      NumberedAlts(strip, o + 2 + Len(f), alts, open, nsub, q);
    } else if q > c {
      Numbered(strip, c + 1, k, open, nsub, q);
    }
  }

  lemma {:induction false} PairNumbered(strip: Ops, o: nat, r: Re, b: Re, k: Re, open: multiset<nat>, nsub: nat, q: nat)
    requires r == Plus(b, k) || r == Quest(b, k) || (r.Back? && r.body == b && r.next == k)
    requires o + 2 + Len(b) + Len(k) <= |strip| && Laid(strip, o + 1, b) && Laid(strip, o + 2 + Len(b), k)
    requires NumberOk(strip[o], nsub) && NumberOk(strip[o + 1 + Len(b)], nsub) && o <= q < o + 2 + Len(b) + Len(k)
    requires Opened(b, open, nsub).Some? && Opened(k, open, nsub).Some?
    ensures NumberOk(strip[q], nsub)
    decreases r, 0
  {
    hide Laid, Len, Opened, NumberOk;
    if o < q < o + 1 + Len(b) { Numbered(strip, o + 1, b, open, nsub, q); }
    else if q > o + 1 + Len(b) { Numbered(strip, o + 2 + Len(b), k, open, nsub, q); }
  }

  lemma {:induction false} NumberedAlts(strip: Ops, o: nat, alts: Alts, open: multiset<nat>, nsub: nat, q: nat)
    requires LaidAlts(strip, o, alts) && ClosedIn(alts, open, nsub) && o <= q < o + LenAlts(alts) && q < |strip|
    ensures NumberOk(strip[q], nsub)
    decreases alts, 1
  {
    hide Laid, LaidAlts, Len, LenAlts, ChEnd;
    match alts
    case Last(b) =>
      LaidLast(strip, o, b);
      LenOfLast(b);
      if o < q < o + 1 + Len(b) { Numbered(strip, o + 1, b, open, nsub, q); }
    case Or(b, m) =>
      LaidOr(strip, o, b, m);
      LenOfOr(b, m);
      if o < q < o + 1 + Len(b) { Numbered(strip, o + 1, b, open, nsub, q); }
      else if q > o + 1 + Len(b) { NumberedAlts(strip, o + 2 + Len(b), m, open, nsub, q); }
  }

  // ----- the text, the strip, and where a run is to end -----

  datatype Frame = Frame(x: Subject, strip: Ops, stop: nat, nsub: nat)
  {
    ghost predicate Valid() { Framed() && LoopsConsume(strip) }
    ghost predicate Framed() { x.Valid() && x.begin <= stop <= x.end }
    ghost predicate On(sp: nat) { x.begin <= sp <= stop }
  }

  /** The least place behind a part. */
  function Beyond(r: Re, p: nat): nat { if Nullable(r) then p else p + 1 }

  lemma {:induction false} BeyondLeaf(atom: Atom, k: Re, p: nat)
    ensures Beyond(Leaf(atom, k), p) <= Beyond(k, if Takes(atom) then p + 1 else p)
  {
  }
}
