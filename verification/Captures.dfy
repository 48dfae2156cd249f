/** What the engine says matched what: the reference for `dissect`. Pieces of a concatenation take
    as much text as they can, the earlier ones first, as long as the rest can match the rest. */
module Captures {
  import opened Strip
  import opened Text
  import opened Regex
  import Thompson

  /** regmatch_t: a subexpression's start and end offset, -1 while unset. */
  datatype Span = Span(so: int, eo: int)

  const UNSET := Span(-1, -1)

  function SetSo(pm: seq<Span>, n: nat, v: int): (r: seq<Span>)
    ensures |r| == |pm|
  {
    if n < |pm| then pm[n := pm[n].(so := v)] else pm
  }

  function SetEo(pm: seq<Span>, n: nat, v: int): (r: seq<Span>)
    ensures |r| == |pm|
  {
    if n < |pm| then pm[n := pm[n].(eo := v)] else pm
  }

  /** No back references, and every group number is between 1 and `nsub`. */
  predicate Plain(r: Re, nsub: nat)
    decreases r
  {
    match r
    case Eps => true
    case Leaf(atom, k) => (atom.Paren() ==> 0 < atom.n <= nsub) && Plain(k, nsub)
    case Plus(b, k) => Plain(b, nsub) && Plain(k, nsub)
    case Quest(b, k) => Plain(b, nsub) && Plain(k, nsub)
    case Choice(f, alts, k) => Plain(f, nsub) && PlainAlts(alts, nsub) && Plain(k, nsub)
    case Back(_, _, _) => false
  }

  predicate PlainAlts(alts: Alts, nsub: nat)
    decreases alts
  {
    match alts
    case Last(b) => Plain(b, nsub)
    case Or(b, m) => Plain(b, nsub) && PlainAlts(m, nsub)
  }

  // ----- ends of matches -----

  /** The greatest end, by `stp`, of a match from `i`. */
  ghost function LongestEnd(x: Subject, r: Re, i: nat, stp: int): (m: Option<nat>)
    ensures m.Some? ==> i <= m.value <= stp && Spans(x, r, i, m.value)
    ensures m.Some? ==> forall q: nat :: m.value < q <= stp ==> !Spans(x, r, i, q)
    ensures m.None? ==> forall q: nat :: i <= q <= stp ==> !Spans(x, r, i, q)
    decreases stp - i
  {
    if stp < i then None
    else if Spans(x, r, i, stp) then Some(stp)
    else LongestEnd(x, r, i, stp - 1)
  }

  /** The greatest place, by `stp`, where the text from `i` to `j` splits into a match of `head`
      and a match of `next`. */
  ghost function SplitPoint(x: Subject, head: Re, next: Re, i: nat, j: nat, stp: int): (m: Option<nat>)
    ensures m.Some? ==> i <= m.value <= stp && Spans(x, head, i, m.value) && Spans(x, next, m.value, j)
    ensures m.Some? ==> forall q: nat :: m.value < q <= stp ==> !(Spans(x, head, i, q) && Spans(x, next, q, j))
    ensures m.None? ==> forall q: nat :: i <= q <= stp ==> !(Spans(x, head, i, q) && Spans(x, next, q, j))
    decreases stp - i
  {
    if stp < i then None
    else if Spans(x, head, i, stp) && Spans(x, next, stp, j) then Some(stp)
    else SplitPoint(x, head, next, i, j, stp - 1)
  }

  /** Going through [ssp, rest] by longest matches of the loop body: the last one, as start and
      end. `oldssp` is where the match before `ssp` began. */
  ghost function LastPass(x: Subject, b: Re, ssp: nat, oldssp: nat, rest: nat): (nat, nat)
    decreases rest - ssp
  {
    match LongestEnd(x, b, ssp, rest)
    case None => (oldssp, ssp)
    case Some(sep) => if sep == ssp then (ssp, ssp) else LastPass(x, b, sep, ssp, rest)
  }

  // ----- the reference -----

  /** The table of subexpressions after [i, j] has been divided among the parts of `r`. */
  ghost function Captured(x: Subject, r: Re, i: nat, j: nat, pm: seq<Span>): (out: seq<Span>)
    ensures |out| == |pm|
    decreases r
  {
    match r
    case Eps => pm
    case Leaf(atom, k) =>
      match atom {
        case LParen(n) => Captured(x, k, i, j, SetSo(pm, n, i))
        case RParen(n) => Captured(x, k, i, j, SetEo(pm, n, i))
        case Chr(_) => Captured(x, k, i + 1, j, pm)
        case Any => Captured(x, k, i + 1, j, pm)
        case AnyOf(_) => Captured(x, k, i + 1, j, pm)
        case _ => Captured(x, k, i, j, pm)
      }
    case Plus(b, k) =>
      var m := SplitPoint(x, Plus(b, Eps), k, i, j, j);
      if m.None? then pm
      else
        var last := LastPass(x, b, i, i, m.value);
        Captured(x, k, m.value, j, Captured(x, b, last.0, last.1, pm))
    case Quest(b, k) =>
      var m := SplitPoint(x, Quest(b, Eps), k, i, j, j);
      if m.None? then pm
      else Captured(x, k, m.value, j,
                    if LongestEnd(x, b, i, m.value).Some? then Captured(x, b, i, m.value, pm) else pm)
    case Choice(f, alts, k) =>
      var m := SplitPoint(x, Choice(f, alts, Eps), k, i, j, j);
      if m.None? then pm
      else Captured(x, k, m.value, j,
                    if Spans(x, f, i, m.value) then Captured(x, f, i, m.value, pm)
                    else CapturedAlts(x, alts, i, m.value, pm))
    case Back(_, _, _) => pm
  }

  /** The first later branch that matches all of [i, j]. */
  ghost function CapturedAlts(x: Subject, alts: Alts, i: nat, j: nat, pm: seq<Span>): (out: seq<Span>)
    ensures |out| == |pm|
    decreases alts
  {
    match alts
    case Last(b) => Captured(x, b, i, j, pm)
    case Or(b, m) => if Spans(x, b, i, j) then Captured(x, b, i, j, pm) else CapturedAlts(x, m, i, j, pm)
  }

  // ----- a match from a place is a match from that place unhindered -----

  /** `u` is the same place as `v`, or frees it of the mark left by a word boundary. */
  ghost predicate Freer(u: At, v: At) {
    u == v || (u.p == v.p && !u.w)
  }

  lemma {:induction false} Weaken(x: Subject, r: Re, a: At, b: At, a': At) returns (b': At)
    requires Match(x, r, a, b) && Freer(a', a)
    ensures Match(x, r, a', b') && Freer(b', b)
    decreases r, 1
  {
    hide Iter, Repeated;
    Thompson.MatchIsIn(x, r, a, b);
    match r
    case Eps => b' := a';
    case Leaf(atom, n) =>
      var m := Moves(x, atom, a).value;
      var m' := if a' == a || !atom.Paren() then m else a';
      b' := Weaken(x, n, m, b, m');
    case Plus(body, n) => b' := WeakenPlus(x, body, n, a, b, a');
    case Quest(body, n) =>
      var m := Thompson.QuestSplit(x, body, n, a, b);
      var m' := a';
      if m != a {
        m' := Weaken(x, body, a, m, a');
      }
      b' := Weaken(x, n, m, b, m');
    case Choice(f, alts, n) =>
      var m := Thompson.ChoiceSplit(x, f, alts, n, a, b);
      var m' := WeakenChoice(x, f, alts, n, a, m, a');
      b' := Weaken(x, n, m, b, m');
    case Back(i, body, n) =>
      var m := Thompson.BackSplit(x, i, body, n, a, b);
      var m' := Weaken(x, body, a, m, a');
      b' := Weaken(x, n, m, b, m');
  }

  lemma {:induction false} WeakenPlus(x: Subject, body: Re, n: Re, a: At, b: At, a': At) returns (b': At)
    requires Match(x, Plus(body, n), a, b) && Freer(a', a)
    ensures Match(x, Plus(body, n), a', b') && Freer(b', b)
    decreases Plus(body, n), 0
  {
    var m, k := Thompson.PlusSplit(x, body, n, a, b);
    var m' := WeakenIter(x, body, k, a, m, a');
    assert Repeated(x, body, a', m');
    b' := Weaken(x, n, m, b, m');
    Thompson.MatchIsIn(x, n, m', b');
    Thompson.MatchIsIn(x, Plus(body, n), a, b);
  }

  lemma {:induction false} WeakenIter(x: Subject, body: Re, k: nat, a: At, b: At, a': At) returns (b': At)
    requires Iter(x, body, k, a, b) && Freer(a', a)
    ensures Iter(x, body, k, a', b') && Freer(b', b)
    decreases body, 2, k
  {
    if k == 0 {
      b' := a';
    } else {
      var m := Thompson.IterSplit(x, body, k, a, b);
      var m' := WeakenIter(x, body, k - 1, a, m, a');
      b' := Weaken(x, body, m, b, m');
      assert Iter(x, body, k - 1, a', m') && Match(x, body, m', b');
    }
  }

  lemma {:induction false} WeakenChoice(x: Subject, f: Re, alts: Alts, n: Re, a: At, b: At, a': At) returns (b': At)
    requires Thompson.MatchChoice(x, f, alts, a, b) && Freer(a', a)
    ensures Thompson.MatchChoice(x, f, alts, a', b') && Freer(b', b)
    decreases Choice(f, alts, n), 0
  {
    if Match(x, f, a, b) {
      b' := Weaken(x, f, a, b, a');
    } else {
      b' := WeakenAlts(x, alts, a, b, a');
    }
  }

  lemma {:induction false} WeakenAlts(x: Subject, alts: Alts, a: At, b: At, a': At) returns (b': At)
    requires MatchAlts(x, alts, a, b) && Freer(a', a)
    ensures MatchAlts(x, alts, a', b') && Freer(b', b)
    decreases alts, 0
  {
    hide Match;
    match alts
    case Last(r) =>
      b' := Weaken(x, r, a, b, a');
    case Or(r, m) =>
      if Match(x, r, a, b) {
        b' := Weaken(x, r, a, b, a');
      } else {
        b' := WeakenAlts(x, m, a, b, a');
      }
  }

  // ----- matches move forward -----

  lemma {:induction false} Forward(x: Subject, r: Re, a: At, b: At)
    requires Match(x, r, a, b)
    ensures In(x, a) && In(x, b) && a.p <= b.p
    decreases r, 1
  {
    hide Iter, Repeated;
    match r
    case Eps =>
    case Leaf(atom, n) => Forward(x, n, Moves(x, atom, a).value, b);
    case Plus(body, n) =>
      var m, k := Thompson.PlusSplit(x, body, n, a, b);
      ForwardIter(x, body, k, a, m);
      Forward(x, n, m, b);
    case Quest(body, n) =>
      var m := Thompson.QuestSplit(x, body, n, a, b);
      if m != a { Forward(x, body, a, m); }
      Forward(x, n, m, b);
    case Choice(f, alts, n) =>
      var m := Thompson.ChoiceSplit(x, f, alts, n, a, b);
      ForwardChoice(x, f, alts, n, a, m);
      Forward(x, n, m, b);
    case Back(i, body, n) =>
      var m := Thompson.BackSplit(x, i, body, n, a, b);
      Forward(x, body, a, m);
      Forward(x, n, m, b);
  }

  lemma {:induction false} ForwardIter(x: Subject, body: Re, k: nat, a: At, b: At)
    requires Iter(x, body, k, a, b)
    ensures a.p <= b.p
    decreases body, 2, k
  {
    if k > 0 {
      var m := Thompson.IterSplit(x, body, k, a, b);
      ForwardIter(x, body, k - 1, a, m);
      Forward(x, body, m, b);
    }
  }

  lemma {:induction false} ForwardChoice(x: Subject, f: Re, alts: Alts, n: Re, a: At, b: At)
    requires Thompson.MatchChoice(x, f, alts, a, b)
    ensures a.p <= b.p
    decreases Choice(f, alts, n), 0
  {
    if Match(x, f, a, b) { Forward(x, f, a, b); } else { ForwardAlts(x, alts, a, b); }
  }

  lemma {:induction false} ForwardAlts(x: Subject, alts: Alts, a: At, b: At)
    requires MatchAlts(x, alts, a, b)
    ensures a.p <= b.p
    decreases alts, 0
  {
    hide Match;
    match alts
    case Last(r) => Forward(x, r, a, b);
    case Or(r, m) => if Match(x, r, a, b) { Forward(x, r, a, b); } else { ForwardAlts(x, m, a, b); }
  }

  lemma {:induction false} SpanIsIn(x: Subject, r: Re, i: nat, j: nat)
    requires Spans(x, r, i, j)
    ensures x.Valid() && x.begin <= i <= j <= x.end
  {
    var w := !Match(x, r, At(i, false), At(j, false));
    Forward(x, r, At(i, false), At(j, w));
  }

  lemma {:induction false} SpanOf(x: Subject, r: Re, i: nat, b: At)
    requires Match(x, r, At(i, false), b)
    ensures Spans(x, r, i, b.p)
  {
    assert b == At(b.p, false) || b == At(b.p, true);
  }

  lemma {:induction false} EndOf(x: Subject, r: Re, i: nat, j: nat) returns (b: At)
    requires Spans(x, r, i, j)
    ensures b.p == j && Match(x, r, At(i, false), b)
  {
    hide Match;
    b := At(j, !Match(x, r, At(i, false), At(j, false)));
  }

  /** What matches from a place matches from it with the word-boundary mark taken away. */
  lemma {:induction false} SpanFrom(x: Subject, r: Re, a: At, b: At)
    requires Match(x, r, a, b)
    ensures Spans(x, r, a.p, b.p)
  {
    hide Match;
    var b' := Weaken(x, r, a, b, At(a.p, false));
    SpanOf(x, r, a.p, b');
  }

  // ----- taking a span apart, piece by piece -----

  predicate Takes(atom: Atom) { atom.Chr? || atom.Any? || atom.AnyOf? }

  lemma {:induction false} LeafSpan(x: Subject, atom: Atom, k: Re, i: nat, j: nat)
    requires Spans(x, Leaf(atom, k), i, j)
    ensures Spans(x, k, if Takes(atom) then i + 1 else i, j)
  {
    hide Match;
    var b := EndOf(x, Leaf(atom, k), i, j);
    Thompson.LeafSplit(x, atom, k, At(i, false), b);
    SpanFrom(x, k, Moves(x, atom, At(i, false)).value, b);
  }

  predicate Bracket(r: Re) { r.Plus? || r.Quest? || r.Choice? }

  /** The first construct of a concatenation, alone. */
  function Head(r: Re): Re
    requires Bracket(r)
  {
    match r
    case Plus(b, _) => Plus(b, Eps)
    case Quest(b, _) => Quest(b, Eps)
    case Choice(f, alts, _) => Choice(f, alts, Eps)
  }

  lemma {:induction false} Joins(x: Subject, r: Re, a: At, b: At) returns (m: At)
    requires Bracket(r) && Match(x, r, a, b)
    ensures Match(x, Head(r), a, m) && Match(x, r.next, m, b)
  {
    hide Iter, Repeated;
    Thompson.MatchIsIn(x, r, a, b);
    match r
    case Plus(body, n) =>
      var e, k := Thompson.PlusSplit(x, body, n, a, b);
      m := e;
      EpsHere(x, n, m, b);
    case Quest(body, n) =>
      m := Thompson.QuestSplit(x, body, n, a, b);
      EpsHere(x, n, m, b);
    case Choice(f, alts, n) =>
      m := Thompson.ChoiceSplit(x, f, alts, n, a, b);
      EpsHere(x, n, m, b);
  }

  lemma {:induction false} EpsHere(x: Subject, n: Re, m: At, b: At)
    requires Match(x, n, m, b)
    ensures Match(x, Eps, m, m) && In(x, m)
  {
    Thompson.MatchIsIn(x, n, m, b);
  }

  lemma {:induction false} SplitExists(x: Subject, r: Re, i: nat, j: nat)
    requires Bracket(r) && Spans(x, r, i, j)
    ensures SplitPoint(x, Head(r), r.next, i, j, j).Some?
  {
    hide Match;
    var b := EndOf(x, r, i, j);
    var m := Joins(x, r, At(i, false), b);
    SpanOf(x, Head(r), i, m);
    SpanFrom(x, r.next, m, b);
    SpanIsIn(x, Head(r), i, m.p);
    SpanIsIn(x, r.next, m.p, j);
  }

  // ----- what each construct's own span says of its body -----

  lemma {:induction false} IterFirst(x: Subject, r: Re, k: nat, a: At, b: At) returns (m: At)
    requires k > 0 && Iter(x, r, k, a, b)
    ensures Match(x, r, a, m) && m.p <= b.p
    decreases k
  {
    hide Match;
    m := Thompson.IterSplit(x, r, k, a, b);
    if k == 1 {
      m := b;
    } else {
      Forward(x, r, m, b);
      m := IterFirst(x, r, k - 1, a, m);
    }
  }

  lemma {:induction false} PlusBodyStarts(x: Subject, b: Re, i: nat, mid: nat)
    requires Spans(x, Plus(b, Eps), i, mid)
    ensures LongestEnd(x, b, i, mid).Some?
  {
    hide Match, LongestEnd;
    var e := EndOf(x, Plus(b, Eps), i, mid);
    var m, k := Thompson.PlusSplit(x, b, Eps, At(i, false), e);
    Forward(x, Eps, m, e);
    var f := IterFirst(x, b, k, At(i, false), m);
    SpanOf(x, b, i, f);
    SpanIsIn(x, b, i, f.p);
    SomeEnd(x, b, i, f.p, mid);
  }

  lemma {:induction false} SomeEnd(x: Subject, r: Re, i: nat, q: nat, stp: nat)
    requires Spans(x, r, i, q) && i <= q <= stp
    ensures LongestEnd(x, r, i, stp).Some? && LongestEnd(x, r, i, stp).value >= q
  {
  }

  /** The loop over a + body always ends on a piece the body matches. */
  lemma {:induction false} LastPassSpans(x: Subject, b: Re, ssp: nat, oldssp: nat, rest: nat)
    requires ssp <= rest
    requires (oldssp < ssp && Spans(x, b, oldssp, ssp)) || LongestEnd(x, b, ssp, rest).Some?
    ensures var last := LastPass(x, b, ssp, oldssp, rest);
            Spans(x, b, last.0, last.1) && last.0 <= last.1 <= rest
            && (last.0 >= ssp || last == (oldssp, ssp))
    decreases rest - ssp
  {
    match LongestEnd(x, b, ssp, rest)
    case None =>
    case Some(sep) => if sep != ssp { LastPassSpans(x, b, sep, ssp, rest); }
  }

  lemma {:induction false} QuestBody(x: Subject, b: Re, i: nat, mid: nat)
    requires Spans(x, Quest(b, Eps), i, mid)
    ensures LongestEnd(x, b, i, mid).Some? ==> Spans(x, b, i, mid)
    ensures LongestEnd(x, b, i, mid).None? ==> i == mid
  {
    hide Match, LongestEnd;
    var e := EndOf(x, Quest(b, Eps), i, mid);
    var m := Thompson.QuestSplit(x, b, Eps, At(i, false), e);
    EpsStays(x, m, e);
    if m != At(i, false) || mid > i {
      SpanOf(x, b, i, m);
      SpanIsIn(x, b, i, mid);
      SomeEnd(x, b, i, mid, mid);
    }
  }

  lemma {:induction false} EpsStays(x: Subject, m: At, e: At)
    requires Match(x, Eps, m, e)
    ensures m == e
  {
  }

  ghost predicate SpansAlts(x: Subject, alts: Alts, i: nat, j: nat) {
    match alts
    case Last(b) => Spans(x, b, i, j)
    case Or(b, m) => Spans(x, b, i, j) || SpansAlts(x, m, i, j)
  }

  lemma {:induction false} AltsSpan(x: Subject, alts: Alts, i: nat, b: At)
    requires MatchAlts(x, alts, At(i, false), b)
    ensures SpansAlts(x, alts, i, b.p)
    decreases alts
  {
    hide Match, Spans;
    match alts
    case Last(r) => SpanOf(x, r, i, b);
    case Or(r, m) =>
      if Match(x, r, At(i, false), b) { SpanOf(x, r, i, b); } else { AltsSpan(x, m, i, b); }
  }

  lemma {:induction false} ChoiceBody(x: Subject, f: Re, alts: Alts, i: nat, mid: nat)
    requires Spans(x, Choice(f, alts, Eps), i, mid)
    ensures Spans(x, f, i, mid) || SpansAlts(x, alts, i, mid)
  {
    hide Match, MatchAlts;
    var e := EndOf(x, Choice(f, alts, Eps), i, mid);
    var m := Thompson.ChoiceSplit(x, f, alts, Eps, At(i, false), e);
    EpsStays(x, m, e);
    if Match(x, f, At(i, false), m) { SpanOf(x, f, i, m); } else { AltsSpan(x, alts, i, m); }
  }
}
