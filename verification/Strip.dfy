/** The compiled form of a regular expression: a strip of operators
    (include/regex/regex2.h). Operands that are offsets count operators. */
module Strip {

  datatype Option<+T> = None | Some(value: T)

  datatype Sop =
    | OEnd
    | OChar(c: char)
    | OBol
    | OEol
    | OAny
    | OAnyOf(setno: nat)
    | OBack_(paren: nat)
    | O_Back(paren: nat)
    | OPlus_(fwd: nat)
    | O_Plus(back: nat)
    | OQuest_(fwd: nat)
    | O_Quest(back: nat)
    | OLParen(paren: nat)
    | ORParen(paren: nat)
    | OCh_(fwd: nat)
    | OOr1(back: nat)
    | OOr2(fwd: nat)
    | O_Ch(back: nat)
    | OBow
    | OEow

  type Ops = seq<Sop>

  /** struct re_guts. A `must` of None is the null pointer. */
  datatype Guts = Guts(strip: Ops, sets: seq<set<char>>, newline: bool, nosub: bool, firststate: nat, laststate: nat,
                       nbol: nat, neol: nat, must: Option<string>, nsub: nat, backrefs: bool, nplus: nat)

  /** Follow the chain of OOR2 offsets from `q` to the O_CH that ends the choice. */
  function ChEnd(strip: Ops, q: nat): (r: Option<nat>)
    ensures r.Some? ==> q <= r.value < |strip| && strip[r.value].O_Ch?
    decreases |strip| - q
  {
    if q >= |strip| then None
    else match strip[q]
      case O_Ch(_) => Some(q)
      case OOr2(n) => if n > 0 then ChEnd(strip, q + n) else None
      case _ => None
  }

  /** The empty moves: what an operator's state reaches without looking at the text. */
  predicate EpsEdge(strip: Ops, s: nat, t: nat)
    requires s < |strip|
  {
    match strip[s]
    case OBack_(_) => t == s + 1
    case O_Back(_) => t == s + 1
    case OPlus_(_) => t == s + 1
    case O_Plus(n) => t == s + 1 || t + n == s
    case OQuest_(n) => t == s + 1 || t == s + n
    case O_Quest(_) => t == s + 1
    case OLParen(_) => t == s + 1
    case ORParen(_) => t == s + 1
    case OCh_(n) => t == s + 1 || t == s + n
    case OOr1(_) => ChEnd(strip, s + 1) == Some(t)
    case OOr2(n) => t == s + 1 || (t == s + n && t < |strip| && !strip[t].O_Ch?)
    case O_Ch(_) => t == s + 1
    case _ => false
  }

  /** What the sweep over a range needs of one operator; each clause is an assertion of the
      original or the bound of a look-up it makes. */
  predicate SopOk(strip: Ops, lo: nat, hi: nat, s: nat)
    requires lo <= s < hi <= |strip|
  {
    match strip[s]
    case OEnd => s == hi - 1
    case O_Plus(n) => lo + n <= s
    case OCh_(n) => s + n < |strip| && strip[s + n].OOr2?
    case OOr1(_) => ChEnd(strip, s + 1).Some?
    case OOr2(n) => s + n < |strip| && (strip[s + n].O_Ch? || strip[s + n].OOr2?)
    case _ => true
  }

  /** An optional part leads to its end. */
  predicate OptionalOk(strip: Ops, s: nat)
    requires s < |strip|
  {
    (strip[s].OQuest_? ==> s + strip[s].fwd < |strip| && strip[s + strip[s].fwd].O_Quest?)
    && (strip[s].OCh_? ==> ChEnd(strip, s + strip[s].fwd).Some?)
  }

  ghost predicate RangeOk(strip: Ops, lo: nat, hi: nat) {
    lo <= hi <= |strip| && forall s :: lo <= s < hi ==> SopOk(strip, lo, hi, s)
  }

  ghost predicate EpsClosed(strip: Ops, lo: nat, hi: nat, X: set<nat>)
    requires lo <= hi <= |strip|
  {
    forall s, t :: lo <= s < hi && s in X && EpsEdge(strip, s, t) ==> t in X
  }
}
