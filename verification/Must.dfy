/** The literal every match must contain (src/backend/regex/regcomp.c, findmust). */
module Must {
  import opened Strip
  import opened Text
  import opened Regex
  import opened Thompson
  import opened Captures

  function Better(cur: string, best: string): string {
    if |cur| > |best| then cur else best
  }

  // ----- the scan, as a function of the strip and of the expression -----

  /** From operator `s` to the OEND: `cur` is the run of characters being collected, `best` the
      longest finished so far. What is optional is skipped. */
  function ScanStrip(strip: Ops, s: nat, cur: string, best: string): string
    decreases |strip| - s
  {
    if s >= |strip| then Better(cur, best)
    else match strip[s]
      case OEnd => Better(cur, best)
      case OChar(c) => ScanStrip(strip, s + 1, cur + [c], best)
      case OPlus_(_) => ScanStrip(strip, s + 1, cur, best)
      case OLParen(_) => ScanStrip(strip, s + 1, cur, best)
      case ORParen(_) => ScanStrip(strip, s + 1, cur, best)
      case OQuest_(n) => ScanStrip(strip, s + n + 1, [], Better(cur, best))
      case OCh_(n) =>
        if ChEnd(strip, s + n).Some? then ScanStrip(strip, ChEnd(strip, s + n).value + 1, [], Better(cur, best))
        else Better(cur, best)
      case _ => ScanStrip(strip, s + 1, [], Better(cur, best))
  }

  function Scan(r: Re, cur: string, best: string): (string, string) {
    match r
    case Eps => (cur, best)
    case Leaf(atom, k) =>
      if atom.Chr? then Scan(k, cur + [atom.c], best)
      else if atom.Paren() then Scan(k, cur, best)
      else Scan(k, [], Better(cur, best))
    case Plus(b, k) => var p := Scan(b, cur, best); Scan(k, [], Better(p.0, p.1))
    case Quest(_, k) => Scan(k, [], Better(cur, best))
    case Choice(_, _, k) => Scan(k, [], Better(cur, best))
    case Back(_, b, k) => var p := Scan(b, [], Better(cur, best)); Scan(k, [], Better(p.0, p.1))
  }

  lemma {:induction false} ScanIsScan(strip: Ops, o: nat, r: Re, cur: string, best: string)
    requires Laid(strip, o, r)
    ensures ScanStrip(strip, o, cur, best)
         == var p := Scan(r, cur, best); ScanStrip(strip, o + Len(r), p.0, p.1)
    decreases r, 1
  {
    hide Laid, LaidAlts, Layout, LayoutAlts, ChEnd, Len, LenAlts, Better, ScanStrip;
    LayoutOf(r);
    match r
    case Eps =>
    case Leaf(atom, k) => ScanLeaf(strip, o, atom, k, cur, best);
    case Plus(b, k) =>
      LaidPlus(strip, o, b, k);
      ScanPlus(strip, o, cur, best);
      ScanBody(strip, o, r, b, k, cur, best);
    case Quest(b, k) =>
      LaidQuest(strip, o, b, k);
      ScanOver(strip, o, cur, best);
      ScanIsScan(strip, o + 2 + Len(b), k, [], Better(cur, best));
    case Choice(f, alts, k) =>
      var c := LaidChoice(strip, o, f, alts, k);
      ScanOver(strip, o, cur, best);
      ScanIsScan(strip, c + 1, k, [], Better(cur, best));
    case Back(i, b, k) =>
      LaidBack(strip, o, i, b, k);
      ScanPlus(strip, o, cur, best);
      ScanBody(strip, o, r, b, k, [], Better(cur, best));
  }

  /** The operators around bodies: one goes into the body of a +, and out of it again. */
  lemma {:induction false} ScanPlus(strip: Ops, o: nat, cur: string, best: string)
    requires o < |strip|
    ensures strip[o].OPlus_? ==> ScanStrip(strip, o, cur, best) == ScanStrip(strip, o + 1, cur, best)
    ensures strip[o].OBack_? || strip[o].O_Plus? || strip[o].O_Back? ==>
      ScanStrip(strip, o, cur, best) == ScanStrip(strip, o + 1, [], Better(cur, best))
  {
  }

  /** What is optional is skipped. */
  lemma {:induction false} ScanOver(strip: Ops, o: nat, cur: string, best: string)
    requires o < |strip|
    ensures strip[o].OQuest_? ==>
      ScanStrip(strip, o, cur, best) == ScanStrip(strip, o + strip[o].fwd + 1, [], Better(cur, best))
    ensures strip[o].OCh_? && ChEnd(strip, o + strip[o].fwd).Some? ==>
      ScanStrip(strip, o, cur, best) == ScanStrip(strip, ChEnd(strip, o + strip[o].fwd).value + 1, [],
        Better(cur, best))
  {
  }

  lemma {:induction false} ScanLeaf(strip: Ops, o: nat, atom: Atom, k: Re, cur: string, best: string)
    requires Laid(strip, o, Leaf(atom, k))
    ensures ScanStrip(strip, o, cur, best)
         == var p := Scan(Leaf(atom, k), cur, best); ScanStrip(strip, o + 1 + Len(k), p.0, p.1)
    decreases Leaf(atom, k), 0
  {
    hide Laid, Len, Better;
    LaidLeaf(strip, o, atom, k);
    var c, b := if atom.Chr? then cur + [atom.c] else if atom.Paren() then cur else [],
                if atom.Chr? || atom.Paren() then best else Better(cur, best);
    ScanIsScan(strip, o + 1, k, c, b);
  }

  lemma {:induction false} ScanBody(strip: Ops, o: nat, r: Re, b: Re, k: Re, cur: string, best: string)
    requires r == Plus(b, k) || (r.Back? && r.body == b && r.next == k)
    requires o + 2 + Len(b) + Len(k) <= |strip| && Laid(strip, o + 1, b) && Laid(strip, o + 2 + Len(b), k)
    requires strip[o + 1 + Len(b)].O_Plus? || strip[o + 1 + Len(b)].O_Back?
    ensures ScanStrip(strip, o + 1, cur, best)
         == var p := Scan(b, cur, best); var q := Scan(k, [], Better(p.0, p.1));
           ScanStrip(strip, o + 2 + Len(b) + Len(k), q.0, q.1)
    decreases r, 0
  {
    hide Laid, Len, Better, ScanStrip, Scan;
    ScanIsScan(strip, o + 1, b, cur, best);
    var p := Scan(b, cur, best);
    ScanPlus(strip, o + 1 + Len(b), p.0, p.1);
    ScanIsScan(strip, o + 2 + Len(b), k, [], Better(p.0, p.1));
  }

  // ----- what is collected is a longest run -----

  /** Operators that do not end a run of characters. */
  predicate InRun(op: Sop) { op.OChar? || op.OPlus_? || op.OLParen? || op.ORParen? }

  predicate IsRun(strip: Ops, a: nat, b: nat) {
    a <= b <= |strip| && forall s :: a <= s < b ==> InRun(strip[s])
  }

  /** Nothing optional that begins before `a` goes on behind it. */
  predicate Outside(strip: Ops, o: nat, a: nat) {
    o <= a <= |strip| && forall s :: o <= s < a ==>
      !strip[s].OEnd? && (strip[s].OQuest_? ==> s + strip[s].fwd + 1 <= a)
      && (strip[s].OCh_? ==> ChEnd(strip, s + strip[s].fwd).Some? && ChEnd(strip, s + strip[s].fwd).value + 1 <= a)
  }

  /** What has been collected is given up only for a longer run. */
  lemma {:induction false} ScanKeeps(strip: Ops, s: nat, cur: string, best: string)
    ensures |ScanStrip(strip, s, cur, best)| >= |cur|
    ensures |ScanStrip(strip, s, cur, best)| > |best| || ScanStrip(strip, s, cur, best) == best
    decreases |strip| - s
  {
    hide ChEnd;
    if s < |strip| && !strip[s].OEnd? {
      var op, better := strip[s], Better(cur, best);
      if InRun(op) {
        ScanKeeps(strip, s + 1, if op.OChar? then cur + [op.c] else cur, best);
      } else if op.OQuest_? {
        ScanKeeps(strip, s + op.fwd + 1, [], better);
      } else if op.OCh_? {
        if ChEnd(strip, s + op.fwd).Some? { ScanKeeps(strip, ChEnd(strip, s + op.fwd).value + 1, [], better); }
      } else {
        ScanKeeps(strip, s + 1, [], better);
      }
    }
  }

  /** No run that every match has to go through is longer than what is collected. */
  lemma {:induction false} NoLongerRun(strip: Ops, o: nat, a: nat, b: nat, cur: string, best: string)
    requires Outside(strip, o, a) && IsRun(strip, a, b)
    ensures |ScanStrip(strip, o, cur, best)| >= |Chars(strip, a, b)|
    decreases a - o
  {
    assert o <= a;
    hide ChEnd, Better, ScanStrip, Outside;
    if o == a {
      WithMore(strip, a, b, cur, best);
    } else {
      OneOn(strip, o, a, cur, best);
      var op, better := strip[o], Better(cur, best);
      if InRun(op) {
        NoLongerRun(strip, o + 1, a, b, if op.OChar? then cur + [op.c] else cur, best);
      } else {
        NoLongerRun(strip, After(strip, o), a, b, [], better);
      }
    }
  }

  /** Where the scan goes on behind what ends a run. */
  function After(strip: Ops, o: nat): nat
    requires o < |strip|
  {
    if strip[o].OQuest_? then o + strip[o].fwd + 1
    else if strip[o].OCh_? && ChEnd(strip, o + strip[o].fwd).Some? then ChEnd(strip, o + strip[o].fwd).value + 1
    else o + 1
  }

  lemma {:induction false} OneOn(strip: Ops, o: nat, a: nat, cur: string, best: string)
    requires Outside(strip, o, a) && o < a
    ensures o < |strip| && (InRun(strip[o]) ==> Outside(strip, o + 1, a))
    ensures !InRun(strip[o]) ==> o < After(strip, o) && Outside(strip, After(strip, o), a)
    ensures ScanStrip(strip, o, cur, best) ==
      if InRun(strip[o]) then ScanStrip(strip, o + 1, if strip[o].OChar? then cur + [strip[o].c] else cur, best)
      else ScanStrip(strip, After(strip, o), [], Better(cur, best))
  {
    hide ChEnd, Better;
  }

  /** What has been collected before makes it no shorter. */
  lemma {:induction false} WithMore(strip: Ops, a: nat, b: nat, cur: string, best: string)
    requires IsRun(strip, a, b)
    ensures |ScanStrip(strip, a, cur, best)| >= |Chars(strip, a, b)|
    decreases b - a
  {
    var u := cur + Chars(strip, a, b);
    RunOn(strip, a, a, b, cur, cur, best);
    ScanKeeps(strip, b, u, best);
  }

  lemma {:induction false} RunOn(strip: Ops, a: nat, m: nat, b: nat, first: string, cur: string, best: string)
    requires IsRun(strip, a, b) && a <= m <= b && cur == first + Chars(strip, a, m)
    ensures ScanStrip(strip, m, cur, best) == ScanStrip(strip, b, first + Chars(strip, a, b), best)
    decreases b - m
  {
    hide ChEnd, Better;
    if m < b {
      var op := strip[m];
      assert InRun(op);
      var cur1 := if op.OChar? then cur + [op.c] else cur;
      assert cur1 == first + Chars(strip, a, m + 1);
      RunOn(strip, a, m + 1, b, first, cur1, best);
    }
  }

  // ----- every match contains what was collected -----

  /** `u` stands somewhere in the text between `lo` and `hi`. */
  ghost predicate Occurs(x: Subject, u: string, lo: nat, hi: nat) {
    exists p: nat :: StandsAt(x, u, p) && lo <= p && p + |u| <= hi
  }

  predicate StandsAt(x: Subject, u: string, p: nat) {
    p + |u| <= |x.text| && x.text[p..p + |u|] == u
  }

  lemma {:induction false} StandsThere(x: Subject, u: string, p: nat)
    ensures StandsAt(x, u, p) <==> p + |u| <= |x.text| && forall i :: 0 <= i < |u| ==> u[i] == x.text[p + i]
  {
    if p + |u| <= |x.text| {
      var v := x.text[p..p + |u|];
      assert forall i :: 0 <= i < |u| ==> v[i] == x.text[p + i];
      if forall i :: 0 <= i < |u| ==> u[i] == x.text[p + i] { assert v == u; }
    }
  }

  /** `cur` is what the text read last, `best` was read somewhere since `lo`. */
  ghost predicate Read(x: Subject, lo: nat, p: nat, cur: string, best: string) {
    lo + |cur| <= p <= |x.text| && StandsAt(x, cur, p - |cur|) && Occurs(x, best, lo, p)
  }

  lemma {:induction false} ReadOn(x: Subject, lo: nat, p: nat, q: nat, cur: string, best: string)
    requires Read(x, lo, p, cur, best) && p <= q <= |x.text|
    ensures Read(x, lo, q, [], Better(cur, best)) && Occurs(x, Better(cur, best), lo, q)
  {
    assert StandsAt(x, [], q);
    assert StandsAt(x, cur, p - |cur|);
  }

  lemma {:induction false} ReadChar(x: Subject, lo: nat, p: nat, c: char, cur: string, best: string)
    requires Read(x, lo, p, cur, best) && p < |x.text| && x.text[p] == c
    ensures Read(x, lo, p + 1, cur + [c], best)
  {
    var s := p - |cur|;
    assert x.text[s..p + 1] == x.text[s..p] + [c];
    assert StandsAt(x, cur + [c], s);
    var m: nat :| StandsAt(x, best, m) && lo <= m && m + |best| <= p;
  }

  lemma {:induction false} ScanReads(x: Subject, r: Re, a: At, b: At, lo: nat, cur: string, best: string)
    requires Match(x, r, a, b) && Read(x, lo, a.p, cur, best)
    ensures var p := Scan(r, cur, best); Read(x, lo, b.p, p.0, p.1)
    decreases r
  {
    hide Match, Iter, Repeated, Read, Better;
    Forward(x, r, a, b);
    match r
    case Eps => EpsStays(x, a, b);
    case Leaf(atom, k) =>
      LeafSplit(x, atom, k, a, b);
      var m := Moves(x, atom, a).value;
      if atom.Chr? {
        ReadChar(x, lo, a.p, atom.c, cur, best);
        ScanReads(x, k, m, b, lo, cur + [atom.c], best);
      } else if atom.Paren() {
        ScanReads(x, k, m, b, lo, cur, best);
      } else {
        ReadOn(x, lo, a.p, m.p, cur, best);
        ScanReads(x, k, m, b, lo, [], Better(cur, best));
      }
    case Plus(body, k) =>
      var m, n := PlusSplit(x, body, k, a, b);
      var f := IterFirst(x, body, n, a, m);
      ScanReads(x, body, a, f, lo, cur, best);
      var p := Scan(body, cur, best);
      MatchIsIn(x, k, m, b);
      ReadOn(x, lo, f.p, m.p, p.0, p.1);
      ScanReads(x, k, m, b, lo, [], Better(p.0, p.1));
    case Quest(body, k) =>
      var m := QuestSplit(x, body, k, a, b);
      if m != a { Forward(x, body, a, m); }
      MatchIsIn(x, k, m, b);
      ReadOn(x, lo, a.p, m.p, cur, best);
      ScanReads(x, k, m, b, lo, [], Better(cur, best));
    case Choice(f, alts, k) =>
      var m := ChoiceSplit(x, f, alts, k, a, b);
      ForwardChoice(x, f, alts, k, a, m);
      MatchIsIn(x, k, m, b);
      ReadOn(x, lo, a.p, m.p, cur, best);
      ScanReads(x, k, m, b, lo, [], Better(cur, best));
    case Back(i, body, k) =>
      var m := BackSplit(x, i, body, k, a, b);
      ReadOn(x, lo, a.p, a.p, cur, best);
      ScanReads(x, body, a, m, lo, [], Better(cur, best));
      var p := Scan(body, [], Better(cur, best));
      MatchIsIn(x, k, m, b);
      ReadOn(x, lo, m.p, m.p, p.0, p.1);
      ScanReads(x, k, m, b, lo, [], Better(p.0, p.1));
  }

  /** Every match of the expression contains the literal. */
  ghost predicate Mandatory(r: Re, u: string) {
    forall x, i, j :: Spans(x, r, i, j) ==> Occurs(x, u, i, j)
  }

  lemma {:induction false} ScanIsMandatory(strip: Ops, o: nat, r: Re)
    requires Laid(strip, o, r) && o + Len(r) < |strip| && strip[o + Len(r)].OEnd?
    ensures Mandatory(r, ScanStrip(strip, o, [], []))
  {
    hide Laid, Len, Spans, Scan, Better, Read;
    ScanIsScan(strip, o, r, [], []);
    forall x, i, j | Spans(x, r, i, j)
      ensures Occurs(x, ScanStrip(strip, o, [], []), i, j)
    {
      SpanIsIn(x, r, i, j);
      var b := EndOf(x, r, i, j);
      ReadNothing(x, i);
      ScanReads(x, r, At(i, false), b, i, [], []);
      var p := Scan(r, [], []);
      ReadOn(x, i, j, j, p.0, p.1);
    }
  }

  lemma {:induction false} ReadNothing(x: Subject, i: nat)
    requires i <= |x.text|
    ensures Read(x, i, i, [], [])
  {
    assert StandsAt(x, [], i);
  }

  // ----- the code -----

  /** The characters of the OCHARs in a stretch of the strip. */
  function Chars(strip: Ops, lo: nat, hi: nat): string
    requires lo <= hi <= |strip|
    decreases hi - lo
  {
    if lo == hi then []
    else Chars(strip, lo, hi - 1) + if strip[hi - 1].OChar? then [strip[hi - 1].c] else []
  }

  /** Skip an optional part (lines 1656-1668): the chain of offsets to its O_QUEST or O_CH. */
  method SkipOptional(strip: Ops, at: nat) returns (scan: nat)
    requires at < |strip| && (strip[at].OQuest_? || strip[at].OCh_?)
    requires strip[at].OQuest_? ==> at + strip[at].fwd < |strip| && strip[at + strip[at].fwd].O_Quest?
    requires strip[at].OCh_? ==> ChEnd(strip, at + strip[at].fwd).Some?
    ensures strip[at].OQuest_? ==> scan == at + strip[at].fwd
    ensures strip[at].OCh_? ==> ChEnd(strip, at + strip[at].fwd) == Some(scan)
  {
    scan := at + strip[at].fwd;
    while !strip[scan].O_Quest? && !strip[scan].O_Ch?
      invariant scan < |strip|
      invariant strip[at].OQuest_? ==> scan == at + strip[at].fwd
      invariant strip[at].OCh_? ==> ChEnd(strip, scan) == ChEnd(strip, at + strip[at].fwd)
      decreases |strip| - scan
    {
      scan := scan + strip[scan].fwd;
    }
  }

  /** Optional parts can be skipped, and there is an end marker. */
  ghost predicate Scannable(strip: Ops, o: nat) {
    o < |strip| && strip[|strip| - 1].OEnd? && forall s :: o <= s < |strip| ==> OptionalOk(strip, s)
  }

  /** The run being collected, and the best one so far, as stretches of the strip. */
  ghost predicate Holds(strip: Ops, o: nat, scan: nat, newstart: nat, newlen: nat, start: nat, stop: nat, mlen: nat,
        cur: string, best: string)
  {
    o <= newstart <= scan <= |strip| && o <= start <= stop <= |strip| && |cur| == newlen && |best| == mlen
    && (newlen > 0 ==> cur == Chars(strip, newstart, scan)) && best == Chars(strip, start, stop)
    && ScanStrip(strip, o, [], []) == ScanStrip(strip, scan, cur, best)
  }

  lemma {:induction false} TakeChar(strip: Ops, o: nat, scan: nat, newstart: nat, newlen: nat, start: nat, stop: nat,
        mlen: nat, cur: string, best: string)
    requires Holds(strip, o, scan, newstart, newlen, start, stop, mlen, cur, best) && scan < |strip|
    requires strip[scan].OChar?
    ensures Holds(strip, o, scan + 1, if newlen == 0 then scan else newstart, newlen + 1, start, stop, mlen,
                  cur + [strip[scan].c], best)
  {
    assert Chars(strip, scan, scan) == [];
    assert newlen == 0 ==> cur == [];
  }

  lemma {:induction false} PassOver(strip: Ops, o: nat, scan: nat, newstart: nat, newlen: nat, start: nat, stop: nat,
        mlen: nat, cur: string, best: string)
    requires Holds(strip, o, scan, newstart, newlen, start, stop, mlen, cur, best) && scan < |strip|
    requires strip[scan].OPlus_? || strip[scan].OLParen? || strip[scan].ORParen?
    ensures Holds(strip, o, scan + 1, newstart, newlen, start, stop, mlen, cur, best)
  {
  }

  /** Where the scan goes on after an operator that breaks a run. */
  ghost predicate Breaks(strip: Ops, scan: nat, next: nat)
    requires scan < |strip|
  {
    !strip[scan].OEnd? && !strip[scan].OChar? && !strip[scan].OPlus_? && !strip[scan].OLParen? && !strip[scan].ORParen?
    && (if strip[scan].OQuest_? then next == scan + strip[scan].fwd
        else if strip[scan].OCh_? then ChEnd(strip, scan + strip[scan].fwd) == Some(next)
        else next == scan + 1)
  }

  lemma {:induction false} Break(strip: Ops, o: nat, scan: nat, newstart: nat, newlen: nat, start: nat, stop: nat,
        mlen: nat, cur: string, best: string, next: nat)
    requires Holds(strip, o, scan, newstart, newlen, start, stop, mlen, cur, best) && scan < |strip|
    requires OptionalOk(strip, scan)
    requires Breaks(strip, scan, next)
    ensures scan <= next <= |strip|
    ensures newlen > mlen ==> Holds(strip, o, next, newstart, 0, newstart, scan, newlen, [], cur)
    ensures newlen <= mlen ==> Holds(strip, o, next, newstart, 0, start, stop, mlen, [], best)
  {
    if next < |strip| {
      BreakTwice(strip, next, Better(cur, best));
    }
  }

  /** findmust: the longest run of characters nothing optional interrupts, the first of its length. */
  method FindMust(strip: Ops, o: nat) returns (must: Option<string>)
    requires Scannable(strip, o)
    ensures var u := ScanStrip(strip, o, [], []); must == if u == [] then None else Some(u)
  {
    hide Holds, ChEnd;
    var scan: nat, newstart: nat, newlen: nat, start: nat, mlen: nat := o, o, 0, o, 0;
    ghost var cur: string, best: string := [], [];
    ghost var stop := o;
    StartScan(strip, o);
    while !strip[scan].OEnd?
      invariant o <= scan < |strip| && Holds(strip, o, scan, newstart, newlen, start, stop, mlen, cur, best)
      decreases |strip| - scan, strip[scan].OQuest_? || strip[scan].OCh_?
    {
      if strip[scan].OChar? {
        TakeChar(strip, o, scan, newstart, newlen, start, stop, mlen, cur, best);
        if newlen == 0 {
          newstart := scan;
        }
        newlen := newlen + 1;
        cur := cur + [strip[scan].c];
        scan := scan + 1;
      } else if strip[scan].OPlus_? || strip[scan].OLParen? || strip[scan].ORParen? {
        PassOver(strip, o, scan, newstart, newlen, start, stop, mlen, cur, best);
        scan := scan + 1;
      } else {
        ghost var at := scan;
        assert OptionalOk(strip, scan);
        if strip[scan].OQuest_? || strip[scan].OCh_? {
          scan := SkipOptional(strip, scan);
        } else {
          scan := scan + 1;
        }
        Break(strip, o, at, newstart, newlen, start, stop, mlen, cur, best, scan);
        if newlen > mlen {
          start, mlen := newstart, newlen;
          stop, best := at, cur;
        }
        newlen := 0;
        cur := [];
      }
    }
    EndScan(strip, o, scan, newstart, newlen, start, stop, mlen, cur, best);
    if newlen > mlen {
      start, mlen := newstart, newlen;
      stop := scan;
    }
    must := None;
    if mlen > 0 {
      var u := Collect(strip, start, mlen, stop);
      must := Some(u);
    }
  }

  lemma {:induction false} StartScan(strip: Ops, o: nat)
    requires o <= |strip|
    ensures Holds(strip, o, o, o, 0, o, o, 0, [], [])
  {
  }

  lemma {:induction false} EndScan(strip: Ops, o: nat, scan: nat, newstart: nat, newlen: nat, start: nat, stop: nat,
        mlen: nat, cur: string, best: string)
    requires Holds(strip, o, scan, newstart, newlen, start, stop, mlen, cur, best) && scan < |strip|
    requires strip[scan].OEnd?
    ensures newlen > mlen ==> newstart <= scan && ScanStrip(strip, o, [], []) == Chars(strip, newstart, scan)
                              && |Chars(strip, newstart, scan)| == newlen
    ensures newlen <= mlen ==> start <= stop <= |strip| && ScanStrip(strip, o, [], []) == Chars(strip, start, stop)
                               && |Chars(strip, start, stop)| == mlen
  {
  }

  /** At the O_QUEST or O_CH the scan has skipped to, there is nothing left to lose. */
  lemma {:induction false} BreakTwice(strip: Ops, scan: nat, best: string)
    requires scan < |strip|
    ensures strip[scan].O_Quest? || strip[scan].O_Ch? ==>
      ScanStrip(strip, scan, [], best) == ScanStrip(strip, scan + 1, [], best)
  {
  }

  /** Turn the run into a string (lines 1689-1698). */
  method Collect(strip: Ops, start: nat, mlen: nat, ghost stop: nat) returns (must: string)
    requires start <= stop <= |strip| && mlen == |Chars(strip, start, stop)|
    ensures must == Chars(strip, start, stop)
  {
    must := [];
    var scan := start;
    while |must| < mlen
      invariant start <= scan <= stop && must == Chars(strip, start, scan)
      decreases stop - scan
    {
      if strip[scan].OChar? {
        must := must + [strip[scan].c];
      }
      scan := scan + 1;
    }
    CharsGrow(strip, start, scan, stop);
  }

  lemma {:induction false} CharsGrow(strip: Ops, lo: nat, m: nat, hi: nat)
    requires lo <= m <= hi <= |strip|
    ensures |Chars(strip, lo, m)| <= |Chars(strip, lo, hi)|
    ensures |Chars(strip, lo, m)| == |Chars(strip, lo, hi)| ==> Chars(strip, lo, m) == Chars(strip, lo, hi)
    decreases hi - m
  {
    if m < hi {
      CharsGrow(strip, lo, m, hi - 1);
    }
  }

  /** The code of any expression can be scanned, and what is found is mandatory. */
  lemma {:induction false} CodeIsScannable(strip: Ops, o: nat, r: Re)
    requires Laid(strip, o, r) && o + Len(r) + 1 == |strip| && strip[o + Len(r)].OEnd?
    ensures Scannable(strip, o)
  {
    hide Laid, Len, OptionalOk;
    LaidSops(strip, o, o, r);
    forall s | o <= s < |strip|
      ensures OptionalOk(strip, s)
    {
      if s == |strip| - 1 { EndIsOk(strip, s); }
    }
  }

  lemma {:induction false} EndIsOk(strip: Ops, s: nat)
    requires s < |strip| && strip[s].OEnd?
    ensures OptionalOk(strip, s)
  {
  }
}
