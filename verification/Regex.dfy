/** Regular expressions as the strip lays them out, and what they match. */
module Regex {
  import opened Strip
  import opened Text

  /** Operators that are one strip element long. */
  datatype Atom = Chr(c: char) | Any | AnyOf(setno: nat) | Bol | Eol | Bow | Eow | LParen(n: nat) | RParen(n: nat)
  {
    function Code(): Sop {
      match this
      case Chr(c) => OChar(c)
      case Any => OAny
      case AnyOf(k) => OAnyOf(k)
      case Bol => OBol
      case Eol => OEol
      case Bow => OBow
      case Eow => OEow
      case LParen(n) => OLParen(n)
      case RParen(n) => ORParen(n)
    }
    predicate Paren() { LParen? || RParen? }
  }

  /** A concatenation: one operator or bracketed construct, then the `next` ones.
      Parentheses are atoms, because every routine of the engine steps over them singly. */
  datatype Re =
    | Eps
    | Leaf(atom: Atom, next: Re)
    | Plus(body: Re, next: Re)
    | Quest(body: Re, next: Re)
    | Choice(first: Re, rest: Alts, next: Re)
    | Back(n: nat, body: Re, next: Re)

  datatype Alts = Last(b: Re) | Or(b: Re, more: Alts)

  // ----- layout -----

  function Len(r: Re): nat {
    match r
    case Eps => 0
    case Leaf(_, k) => 1 + Len(k)
    case Plus(b, k) => 2 + Len(b) + Len(k)
    case Quest(b, k) => 2 + Len(b) + Len(k)
    case Choice(f, alts, k) => 2 + Len(f) + LenAlts(alts) + Len(k)
    case Back(_, b, k) => 2 + Len(b) + Len(k)
  }

  /** The branches after the first, from their OOR2 up to and including the O_CH. */
  function LenAlts(alts: Alts): (n: nat)
    ensures n >= 2
  {
    match alts
    case Last(b) => 2 + Len(b)
    case Or(b, m) => 2 + Len(b) + LenAlts(m)
  }

  function Layout(r: Re): (s: Ops)
    ensures |s| == Len(r)
  {
    match r
    case Eps => []
    case Leaf(a, k) => [a.Code()] + Layout(k)
    case Plus(b, k) => [OPlus_(Len(b) + 1)] + Layout(b) + [O_Plus(Len(b) + 1)] + Layout(k)
    case Quest(b, k) => [OQuest_(Len(b) + 1)] + Layout(b) + [O_Quest(Len(b) + 1)] + Layout(k)
    case Choice(f, alts, k) =>
      [OCh_(Len(f) + 2)] + Layout(f) + [OOr1(Len(f) + 1)] + LayoutAlts(alts) + Layout(k)
    case Back(n, b, k) => [OBack_(n)] + Layout(b) + [O_Back(n)] + Layout(k)
  }

  function LayoutAlts(alts: Alts): (s: Ops)
    ensures |s| == LenAlts(alts)
  {
    match alts
    case Last(b) => [OOr2(Len(b) + 1)] + Layout(b) + [O_Ch(Len(b) + 2)]
    case Or(b, m) => [OOr2(Len(b) + 2)] + Layout(b) + [OOr1(Len(b) + 2)] + LayoutAlts(m)
  }

  /** `r` stands in the strip at offset `o`. */
  ghost predicate Laid(strip: Ops, o: nat, r: Re)
    decreases r, 1
  {
    o + Len(r) <= |strip| &&
    match r
    case Eps => true
    case Leaf(a, k) => strip[o] == a.Code() && Laid(strip, o + 1, k)
    case Plus(b, _) => LaidPair(strip, o, OPlus_(Len(b) + 1), O_Plus(Len(b) + 1), r)
    case Quest(b, _) => LaidPair(strip, o, OQuest_(Len(b) + 1), O_Quest(Len(b) + 1), r)
    case Back(n, _, _) => LaidPair(strip, o, OBack_(n), O_Back(n), r)
    case Choice(_, _, _) => LaidBranches(strip, o, r)
  }

  /** An opener, the body, a closer, and the rest. */
  ghost predicate LaidPair(strip: Ops, o: nat, opener: Sop, closer: Sop, r: Re)
    requires r.Plus? || r.Quest? || r.Back?
    decreases r, 0
  {
    var L := Len(r.body);
    o + 2 + L + Len(r.next) <= |strip|
    && strip[o] == opener && Laid(strip, o + 1, r.body) && strip[o + 1 + L] == closer && Laid(strip, o + 2 + L, r.next)
  }

  ghost predicate LaidBranches(strip: Ops, o: nat, r: Re)
    requires r.Choice?
    decreases r, 0
  {
    var L := Len(r.first);
    o + 2 + L + LenAlts(r.rest) + Len(r.next) <= |strip|
    && strip[o] == OCh_(L + 2) && Laid(strip, o + 1, r.first) && strip[o + 1 + L] == OOr1(L + 1)
    && LaidAlts(strip, o + 2 + L, r.rest) && Laid(strip, o + 2 + L + LenAlts(r.rest), r.next)
  }

  ghost predicate LaidAlts(strip: Ops, o: nat, alts: Alts)
    decreases alts, 1
  {
    o + LenAlts(alts) <= |strip| &&
    match alts
    case Last(b) =>
      var L := Len(b);
      strip[o] == OOr2(L + 1) && Laid(strip, o + 1, b) && strip[o + 1 + L] == O_Ch(L + 2)
    case Or(b, m) =>
      var L := Len(b);
      strip[o] == OOr2(L + 2) && Laid(strip, o + 1, b) && strip[o + 1 + L] == OOr1(L + 2)
      && LaidAlts(strip, o + 2 + L, m)
  }

  // ----- meaning -----

  /** Where one atom leads; parentheses lead nowhere else. */
  function Moves(x: Subject, atom: Atom, a: At): (r: Option<At>)
    requires x.Valid() && x.begin <= a.p <= x.end
    ensures r.Some? ==> a.p <= r.value.p <= x.end
  {
    if atom.Paren() then Some(a) else x.Consume(atom.Code(), a)
  }

  ghost predicate In(x: Subject, a: At) {
    x.Valid() && x.begin <= a.p <= x.end
  }

  /** The reference relation: `r` matches the text from `a` to `b`, in its surroundings. */
  ghost predicate Match(x: Subject, r: Re, a: At, b: At)
    decreases r, 0
  {
    In(x, a) && In(x, b) &&
    match r
    case Eps => a == b
    case Leaf(atom, k) => Moves(x, atom, a).Some? && Match(x, k, Moves(x, atom, a).value, b)
    case Plus(body, k) => exists m :: Repeated(x, body, a, m) && Match(x, k, m, b)
    case Quest(body, k) => Match(x, k, a, b) || exists m :: Match(x, body, a, m) && Match(x, k, m, b)
    case Choice(f, alts, k) => exists m :: (Match(x, f, a, m) || MatchAlts(x, alts, a, m)) && Match(x, k, m, b)
    case Back(_, body, k) => exists m :: Match(x, body, a, m) && Match(x, k, m, b)
  }

  ghost predicate MatchAlts(x: Subject, alts: Alts, a: At, b: At)
    decreases alts, 0
  {
    match alts
    case Last(r) => Match(x, r, a, b)
    case Or(r, m) => Match(x, r, a, b) || MatchAlts(x, m, a, b)
  }

  /** Exactly `n` matches of `r`, one after the other. */
  ghost predicate Iter(x: Subject, r: Re, n: nat, a: At, b: At)
    decreases r, 1, n
  {
    if n == 0 then a == b && In(x, a)
    else exists m :: Iter(x, r, n - 1, a, m) && Match(x, r, m, b)
  }

  ghost predicate Repeated(x: Subject, r: Re, a: At, b: At)
    decreases r, 2
  {
    exists n: nat :: n > 0 && Iter(x, r, n, a, b)
  }

  /** `r` matches exactly the text from position `i` to position `j`. */
  ghost predicate Spans(x: Subject, r: Re, i: nat, j: nat) {
    Match(x, r, At(i, false), At(j, false)) || Match(x, r, At(i, false), At(j, true))
  }
}
