/** matcher, the entry to the engine (include/regex/engine.c, lines 144-303): find a match, and
    report where it and its subexpressions are. */
module Matching {
  import opened Strip
  import opened Text
  import opened Regex
  import opened Paths
  import opened Simulation
  import opened Captures
  import opened Backtrack
  import opened Must
  import opened Engine
  import opened BackrefSound
  import opened Levels
  import Thompson

  /** Failed stands for a failed assertion: of line 252, that only back references make backtracking
      refuse a match, or of line 278, that there is text left to try. */
  datatype Outcome = Ok | NoMatch | InvArg | Failed(line: nat)

  datatype Flags = Flags(notbol: bool, noteol: bool, startend: bool, backr: bool)

  /** strlen; the end of the sequence counts as a terminator too. */
  function StrLen(s: string): (n: nat)
    ensures n <= |s| && (n < |s| ==> s[n] == '\0') && forall i :: 0 <= i < n ==> s[i] != '\0'
  {
    if s == [] || s[0] == '\0' then 0
    else
      var n := StrLen(s[1..]);
      assert forall i :: 1 <= i < n + 1 ==> s[i] == s[1..][i - 1];
      n + 1
  }

  /** What regcomp guarantees of a compiled expression `r`. */
  ghost predicate Compiled(g: Guts, r: Re) {
    g.firststate + 1 + Len(r) == g.laststate < |g.strip|
    && Laid(g.strip, g.firststate + 1, r)
    && Counted(g.strip, g.firststate + 1, g.laststate, g.nbol, g.neol)
    && (g.must.Some? ==> g.must.value != [] && Mandatory(r, g.must.value))
    && (!g.backrefs ==> Plain(r, g.nsub)) && g.nplus == Depth(r) && WellGrouped(r, g.nsub)
  }

  /** The text that is searched: all of the string, or what pmatch[0] says. */
  function SubjectOf(g: Guts, s: string, first: Span, flags: Flags): Subject
    requires flags.startend ==> 0 <= first.so && 0 <= first.eo
  {
    if flags.startend then Subject(s, first.so, first.eo, g.newline, flags.notbol, flags.noteol, g.sets)
    else Subject(s, 0, StrLen(s), g.newline, flags.notbol, flags.noteol, g.sets)
  }

  /** No group has been recorded. */
  predicate Clean(pm: seq<Span>, nsub: nat) {
    |pm| == nsub + 1 && forall i :: 1 <= i <= nsub ==> pm[i] == UNSET
  }

  /** The size of lastpos, when it is needed (lines 237-239). */
  function LastSize(g: Guts): nat { if g.nplus > 0 then g.nplus + 1 else 0 }

  /** The tables a run of backtracking begins with. */
  predicate Tables(mem: Memory, g: Guts) { Clean(mem.pm, g.nsub) && |mem.last| == LastSize(g) }

  /** The caller's table shows the match, `pm` for the groups there are, and nothing beyond. */
  predicate Reports(user: seq<Span>, nm: nat, s: nat, e: nat, pm: seq<Span>) {
    nm <= |user| && (nm > 0 ==> user[0] == Span(s, e))
    && forall i :: 1 <= i < nm ==> user[i] == if i < |pm| then pm[i] else UNSET
  }

  /** From clean tables, backtracking gets from `s` to `e`; `pm` is what it captures. */
  ghost predicate Backtracked(x: Subject, g: Guts, s: nat, e: nat, pm: seq<Span>)
    requires x.Valid() && x.begin <= s <= e <= x.end && LoopsConsume(g.strip)
  {
    exists mem: Memory :: Tables(mem, g) && Succeeds(x, g, s, e, mem) && Final(x, g, s, e, mem) == pm
  }

  ghost predicate Succeeds(x: Subject, g: Guts, s: nat, e: nat, mem: Memory)
    requires x.Valid() && x.begin <= s <= e <= x.end && LoopsConsume(g.strip)
  {
    Run(x, g.strip, e, g.laststate, g.firststate + 1, s, 0, mem).end.Some?
  }

  ghost function Final(x: Subject, g: Guts, s: nat, e: nat, mem: Memory): seq<Span>
    requires x.Valid() && x.begin <= s <= e <= x.end && LoopsConsume(g.strip)
  {
    Run(x, g.strip, e, g.laststate, g.firststate + 1, s, 0, mem).mem.pm
  }

  /** Backtracking was tried on [s, e] from a clean table, and failed. */
  ghost predicate Refused(x: Subject, g: Guts, s: nat, e: nat)
    requires x.Valid() && x.begin <= s <= e <= x.end && LoopsConsume(g.strip)
  {
    exists mem: Memory :: Tables(mem, g) && !Succeeds(x, g, s, e, mem)
  }

  /** Look for the literal that every match contains (lines 177-180). */
  method Prescreen(must: string, x: Subject) returns (found: bool)
    requires x.Valid() && must != []
    ensures found <==> Occurs(x, must, x.begin, x.end)
    ensures found <==> exists p: nat :: x.begin <= p && p + |must| <= x.end && StandsAt(x, must, p)
  {
    var dp := x.begin;
    while dp < x.end
      invariant x.begin <= dp <= x.end
      invariant forall p: nat :: x.begin <= p < dp && p + |must| <= x.end ==> !StandsAt(x, must, p)
    {
      if x.text[dp] == must[0] && x.end - dp >= |must| && x.text[dp..dp + |must|] == must {
        assert StandsAt(x, must, dp);
        break;
      }
      if StandsAt(x, must, dp) {
        assert x.text[dp] == x.text[dp..dp + |must|][0];
      }
      dp := dp + 1;
    }
    found := dp != x.end;
  }

  ghost predicate Whole(m: Matcher, r: Re) {
    m.Ready() && m.Stands(m.Gf(), m.Gl(), r)
  }

  /** Some match starts at or after `a`. */
  ghost predicate MatchFrom(x: Subject, r: Re, a: nat) {
    exists i: nat, j: nat :: a <= i && j <= x.end && Spans(x, r, i, j)
  }

  /** No match starts at `a` or after it but before `b`. */
  ghost predicate NoneFrom(x: Subject, r: Re, a: nat, b: nat) {
    forall i: nat, j: nat :: a <= i < b && j <= x.end ==> !Spans(x, r, i, j)
  }

  lemma {:induction false} PathSpan(m: Matcher, r: Re, i: nat, j: nat)
    requires Whole(m, r) && m.x.begin <= i <= m.x.end
    ensures Path(m.x, m.g.strip, m.Gf(), m.Gl(), i, j) <==> Spans(m.x, r, i, j)
    ensures Spans(m.x, r, i, j) ==> i <= j <= m.x.end
  {
    hide Spans, Path, Laid, Len;
    Thompson.PathsAreMatches(m.x, m.g.strip, m.Gf(), r, i, j);
    if Spans(m.x, r, i, j) { SpanIsIn(m.x, r, i, j); }
  }

  lemma {:induction false} NoPathNoMatch(m: Matcher, r: Re, start: nat)
    requires Whole(m, r) && m.x.begin <= start <= m.x.end
    requires m.NoPathBefore(start, m.x.end + 1, m.Gf(), m.Gl())
    ensures !MatchFrom(m.x, r, start)
  {
    hide Spans, Path;
    forall i: nat, j: nat | start <= i && j <= m.x.end
      ensures !Spans(m.x, r, i, j)
    {
      if i <= m.x.end { PathSpan(m, r, i, j); }
      if Spans(m.x, r, i, j) { SpanIsIn(m.x, r, i, j); }
    }
  }

  lemma {:induction false} NoPathNoneFrom(m: Matcher, r: Re, a: nat, b: nat)
    requires Whole(m, r) && m.x.begin <= a && b <= m.x.end
    requires forall i, j :: a <= i < b && i <= j <= m.x.end ==> !Path(m.x, m.g.strip, m.Gf(), m.Gl(), i, j)
    ensures NoneFrom(m.x, r, a, b)
  {
    hide Spans, Path;
    forall i: nat, j: nat | a <= i < b && j <= m.x.end
      ensures !Spans(m.x, r, i, j)
    {
      PathSpan(m, r, i, j);
    }
  }

  /** fast over the whole expression, in terms of what it matches. */
  method FastOn(m: Matcher, start: nat, ghost r: Re) returns (found: bool)
    requires Whole(m, r) && m.x.begin <= start <= m.x.end
    modifies m`coldp
    ensures found <==> MatchFrom(m.x, r, start)
    ensures found ==> start <= m.coldp <= m.x.end && MatchFrom(m.x, r, m.coldp)
    ensures found && NoReentry(m.g.strip, m.Gf(), m.Gl()) ==> NoneFrom(m.x, r, start, m.coldp)
  {
    hide Spans, Path, NoReentry;
    m.CanSearchIt(m.Gf(), m.Gl(), r);
    var e := m.Fast(start, m.x.end, m.Gf(), m.Gl());
    found := e != None;
    if found {
      ghost var i, j :| m.coldp <= i <= j && j + 1 == e.value && Path(m.x, m.g.strip, m.Gf(), m.Gl(), i, j);
      PathSpan(m, r, i, j);
      if NoReentry(m.g.strip, m.Gf(), m.Gl()) {
        NoPathNoneFrom(m, r, start, m.coldp);
      }
    } else {
      NoPathNoMatch(m, r, start);
    }
  }

  lemma {:induction false} NotHere(x: Subject, r: Re, a: nat)
    requires a <= x.end && LongestEnd(x, r, a, x.end).None?
    ensures NoneFrom(x, r, a, a + 1)
    ensures MatchFrom(x, r, a) ==> a < x.end && MatchFrom(x, r, a + 1)
  {
    hide Spans;
    forall i: nat, j: nat | Spans(x, r, i, j)
      ensures i <= j
    {
      SpanIsIn(x, r, i, j);
    }
  }

  /** Move coldp up to where a match really starts, and take the longest one from there (lines
      210-220). */
  method FindStart(m: Matcher, ghost r: Re) returns (endp: nat)
    requires Whole(m, r) && m.x.begin <= m.coldp <= m.x.end && MatchFrom(m.x, r, m.coldp)
    modifies m`coldp
    ensures old(m.coldp) <= m.coldp <= endp <= m.x.end
    ensures LongestEnd(m.x, r, m.coldp, m.x.end) == Some(endp)
    ensures NoneFrom(m.x, r, old(m.coldp), m.coldp)
  {
    hide Spans, MatchFrom;
    while true
      invariant old(m.coldp) <= m.coldp <= m.x.end && MatchFrom(m.x, r, m.coldp)
      invariant NoneFrom(m.x, r, old(m.coldp), m.coldp)
      decreases m.x.end - m.coldp
    {
      var e := m.SlowOn(m.coldp, m.x.end, m.Gf(), m.Gl(), r);
      if e != None {
        return e.value;
      }
      NotHere(m.x, r, m.coldp);
      assert m.coldp < m.x.end;
      m.coldp := m.coldp + 1;
    }
  }

  // ----- subexpressions -----

  /** Forget what the groups captured (lines 231-232), in a table made at first need. */
  method ClearGroups(m: Matcher)
    requires m.pmatch == null || m.pmatch.Length == m.g.nsub + 1
    modifies m`pmatch, m.pmatch
    ensures m.pmatch != null && (m.pmatch == old(m.pmatch) || fresh(m.pmatch)) && Clean(m.pmatch[..], m.g.nsub)
  {
    if m.pmatch == null {
      m.pmatch := new Span[m.g.nsub + 1];
    }
    for i := 1 to m.g.nsub + 1
      invariant m.pmatch != null && (m.pmatch == old(m.pmatch) || fresh(m.pmatch)) && m.pmatch.Length == m.g.nsub + 1
      invariant forall k :: 1 <= k < i ==> m.pmatch[k] == UNSET
    {
      m.pmatch[i] := UNSET;
    }
  }

  ghost predicate CanBacktrack(m: Matcher, endp: nat)
    reads m`pmatch, m`lastpos, m`coldp
  {
    m.x.Valid() && m.x.begin <= m.coldp <= endp <= m.x.end && LoopsConsume(m.g.strip) && m.g.laststate <= |m.g.strip|
    && m.pmatch != null && m.lastpos != null && m.lastpos.Length == LastSize(m.g)
  }

  /** One call of backref over the whole expression, from clean tables. */
  method Try(m: Matcher, endp: nat) returns (dp: Option<nat>)
    requires CanBacktrack(m, endp) && Clean(m.pmatch[..], m.g.nsub)
    modifies m.pmatch, m.lastpos
    ensures dp == Some(endp) ==> Backtracked(m.x, m.g, m.coldp, endp, m.pmatch[..])
    ensures dp != Some(endp) ==> dp == None && Refused(m.x, m.g, m.coldp, endp) && Clean(m.pmatch[..], m.g.nsub)
  {
    hide LoopsConsume, Run;
    ghost var mem := m.Mem();
    dp := m.Backref(m.coldp, endp, m.Gf(), m.Gl(), 0);
    Restores(m.x, m.g.strip, endp, m.Gl(), m.Gf(), m.coldp, 0, mem);
    if dp != None {
      assert Succeeds(m.x, m.g, m.coldp, endp, mem) && Final(m.x, m.g, m.coldp, endp, mem) == m.pmatch[..];
    } else {
      assert !Succeeds(m.x, m.g, m.coldp, endp, mem);
    }
  }

  /** Every match from `s` that ends after `e` was tried by backtracking, and refused. */
  ghost predicate RefusedBeyond(x: Subject, g: Guts, r: Re, s: nat, e: int)
    requires x.Valid() && x.begin <= s && LoopsConsume(g.strip)
  {
    forall j: nat :: s <= j <= x.end && e < j && Spans(x, r, s, j) ==> Refused(x, g, s, j)
  }

  lemma {:induction false} BeyondLongest(x: Subject, g: Guts, r: Re, s: nat, stop: nat, e: nat)
    requires x.Valid() && x.begin <= s && stop == x.end && LoopsConsume(g.strip) && LongestEnd(x, r, s, stop) == Some(e)
    ensures s <= e <= stop && Spans(x, r, s, e) && RefusedBeyond(x, g, r, s, e)
  {
    hide Spans, LoopsConsume, Refused;
  }

  /** Refused at `endp`: what is left are the matches that are shorter. */
  lemma {:induction false} NextBeyond(x: Subject, g: Guts, r: Re, s: nat, endp: nat, e: Option<nat>)
    requires x.Valid() && x.begin <= s < endp <= x.end && LoopsConsume(g.strip) && e == LongestEnd(x, r, s, endp - 1)
    requires RefusedBeyond(x, g, r, s, endp) && Refused(x, g, s, endp)
    ensures RefusedBeyond(x, g, r, s, if e.Some? then e.value else -1)
    ensures e.Some? ==> s <= e.value < endp && Spans(x, r, s, e.value)
  {
    hide Spans, LoopsConsume, Refused;
  }

  /** Refused at `endp`, and no place is left for a shorter one. */
  lemma {:induction false} NoneBeyond(x: Subject, g: Guts, r: Re, s: nat, endp: nat)
    requires x.Valid() && x.begin <= s && LoopsConsume(g.strip) && endp <= s <= x.end
    requires RefusedBeyond(x, g, r, s, endp) && (endp == s ==> Refused(x, g, s, s))
    ensures RefusedBeyond(x, g, r, s, -1)
  {
    hide Spans, LoopsConsume, Refused;
  }

  /** backref, on the longest match and then on ever shorter ones (lines 237-271). Without back
      references it is not expected to fail, and the assertion of line 252 ends the attempt. */
  method TryAll(m: Matcher, endp0: nat, ghost r: Re) returns (dp: Option<nat>, endp: nat)
    requires Whole(m, r) && CanBacktrack(m, endp0) && Clean(m.pmatch[..], m.g.nsub)
    requires LongestEnd(m.x, r, m.coldp, m.x.end) == Some(endp0)
    modifies m.pmatch, m.lastpos
    ensures dp.Some? ==> m.coldp <= endp <= m.x.end && Spans(m.x, r, m.coldp, endp)
    ensures dp.Some? ==> Backtracked(m.x, m.g, m.coldp, endp, m.pmatch[..])
    ensures dp.Some? || m.g.backrefs ==> RefusedBeyond(m.x, m.g, r, m.coldp, if dp.Some? then endp else -1)
    ensures dp.None? && !m.g.backrefs ==> endp == endp0 && Refused(m.x, m.g, m.coldp, endp0)
  {
    hide Spans, LoopsConsume, Backtracked, Refused, Whole, LongestEnd, RefusedBeyond;
    endp := endp0;
    BeyondLongest(m.x, m.g, r, m.coldp, m.x.end, endp);
    dp := Try(m, endp);
    if dp == None && !m.g.backrefs {
      return;
    }
    while dp == None && endp > m.coldp
      invariant m.coldp <= endp <= m.x.end && Spans(m.x, r, m.coldp, endp)
      invariant dp.Some? ==> dp == Some(endp) && Backtracked(m.x, m.g, m.coldp, endp, m.pmatch[..])
      invariant dp.None? ==> Refused(m.x, m.g, m.coldp, endp) && Clean(m.pmatch[..], m.g.nsub)
      invariant RefusedBeyond(m.x, m.g, r, m.coldp, endp) && (dp.Some? || m.g.backrefs)
      decreases endp
    {
      var e := SlowShorter(m, endp - 1, r);
      NextBeyond(m.x, m.g, r, m.coldp, endp, e);
      if e == None {
        return;
      }
      // lines 263-266: the failed attempt has left no capture behind
      assert forall i :: 1 <= i <= m.g.nsub ==> m.pmatch[i] == UNSET;
      endp := e.value;
      dp := Try(m, endp);
    }
    if dp == None {
      NoneBeyond(m.x, m.g, r, m.coldp, endp);
    }
  }

  method SlowShorter(m: Matcher, stop: nat, ghost r: Re) returns (e: Option<nat>)
    requires Whole(m, r) && m.x.begin <= m.coldp <= stop <= m.x.end
    ensures e == LongestEnd(m.x, r, m.coldp, stop)
  {
    e := m.SlowOn(m.coldp, stop, m.Gf(), m.Gl(), r);
  }

  // ----- the search -----

  /** Does the outcome hang on backtracking? */
  predicate Deep(g: Guts, nm: nat, flags: Flags) { g.backrefs || (flags.backr && nm > 1) }

  /** With REG_NOSUB nothing is reported. */
  function Wanted(g: Guts, nmatch: nat): nat { if g.nosub then 0 else nmatch }

  /** Every match that starts at `a` or after it but before `b` was tried by backtracking, and
      refused. */
  ghost predicate AllRefused(x: Subject, g: Guts, r: Re, a: nat, b: nat)
    requires x.Valid() && x.begin <= a && LoopsConsume(g.strip)
  {
    forall i: nat :: a <= i < b ==> RefusedBeyond(x, g, r, i, -1)
  }

  /** Without backtracking: the longest match there is from where it starts, the first such place
      if no text is matched past a fresh start, and what dissect finds in it. */
  ghost predicate FoundPlain(x: Subject, g: Guts, r: Re, s: nat, e: nat, pm: seq<Span>, nm: nat)
    requires g.firststate + 1 <= g.laststate <= |g.strip|
  {
    LongestEnd(x, r, s, x.end) == Some(e)
    && (NoReentry(g.strip, g.firststate + 1, g.laststate) ==> NoneFrom(x, r, x.begin, s))
    && (nm > 1 ==> exists pm0 :: Clean(pm0, g.nsub) && pm == Captured(x, r, s, e, pm0))
  }

  /** With it: a match that backtracking accepts, every longer one from there refused. */
  ghost predicate FoundDeep(x: Subject, g: Guts, r: Re, s: nat, e: nat, pm: seq<Span>)
    requires x.Valid() && LoopsConsume(g.strip) && g.firststate + 1 <= g.laststate <= |g.strip|
  {
    x.begin <= s <= e <= x.end && Spans(x, r, s, e) && Backtracked(x, g, s, e, pm) && RefusedBeyond(x, g, r, s, e)
    && (NoReentry(g.strip, g.firststate + 1, g.laststate) ==> AllRefused(x, g, r, x.begin, s))
  }

  /** The longest match from `s` was tried by backtracking, and refused. */
  ghost predicate LongestRefused(x: Subject, g: Guts, r: Re, s: nat, e: nat)
    requires x.Valid() && LoopsConsume(g.strip)
  {
    x.begin <= s <= e <= x.end && LongestEnd(x, r, s, x.end) == Some(e) && Refused(x, g, s, e)
  }

  /** What an outcome says. Without backtracking there is success exactly when there is a match.
      With it, success means a match was accepted, and failure that all were refused, unless line
      252 is where it fails, because the longest match from some place was refused; the last clause
      says when it is line 278. */
  ghost predicate Answer(x: Subject, g: Guts, r: Re, nm: nat, flags: Flags, code: Outcome, s: nat, e: nat,
        pm: seq<Span>)
    requires x.Valid() && g.firststate + 1 <= g.laststate <= |g.strip| && (Deep(g, nm, flags) ==> LoopsConsume(g.strip))
  {
    (!Deep(g, nm, flags) ==> !code.Failed? && (code == Ok <==> MatchFrom(x, r, x.begin)))
    && (!Deep(g, nm, flags) && code == Ok && nm > 0 ==> FoundPlain(x, g, r, s, e, pm, nm))
    && (Deep(g, nm, flags) && code == Ok ==> FoundDeep(x, g, r, s, e, pm))
    && (Deep(g, nm, flags) && code != Ok && code != Failed(252)
        && NoReentry(g.strip, g.firststate + 1, g.laststate) ==>
          AllRefused(x, g, r, x.begin, x.end + 1))
    && (Deep(g, nm, flags) && code == Failed(252) ==> !g.backrefs && LongestRefused(x, g, r, s, e))
    && (code != Ok && code != Failed(252) ==> (code == Failed(278) <==> MatchFrom(x, r, x.end)))
    && (code.Failed? ==> code.line == 252 || code.line == 278)
  }

  ghost predicate CanSearchFor(m: Matcher, r: Re, nm: nat, flags: Flags) {
    Whole(m, r) && m.Gl() < |m.g.strip| && (!m.g.backrefs ==> Plain(r, m.g.nsub))
    && (Deep(m.g, nm, flags) ==> LoopsConsume(m.g.strip))
  }

  function Groups(m: Matcher): seq<Span>
    reads m`pmatch, m.pmatch
  {
    if m.pmatch == null then [] else m.pmatch[..]
  }

  /** By backtracking, with a table of places made at first need (lines 236-271). */
  method DetailsByBackref(m: Matcher, endp0: nat, ghost r: Re) returns (dp: Option<nat>, endp: nat)
    requires Whole(m, r) && LoopsConsume(m.g.strip) && m.pmatch != null && Clean(m.pmatch[..], m.g.nsub)
    requires m.x.begin <= m.coldp <= m.x.end && LongestEnd(m.x, r, m.coldp, m.x.end) == Some(endp0)
    requires m.lastpos != null ==> m.lastpos.Length == LastSize(m.g)
    modifies m`lastpos, m.pmatch, m.lastpos
    ensures m.lastpos == old(m.lastpos) || (m.lastpos != null && fresh(m.lastpos))
    ensures m.lastpos != null ==> m.lastpos.Length == LastSize(m.g)
    ensures dp.Some? || m.g.backrefs ==> RefusedBeyond(m.x, m.g, r, m.coldp, if dp.Some? then endp else -1)
    ensures dp.None? && !m.g.backrefs ==> LongestRefused(m.x, m.g, r, m.coldp, endp)
    ensures dp.Some? ==> m.coldp <= endp <= m.x.end && Spans(m.x, r, m.coldp, endp)
                         && Backtracked(m.x, m.g, m.coldp, endp, m.pmatch[..])
  {
    hide Spans, LoopsConsume, Backtracked, Refused, RefusedBeyond, Laid, Counted;
    if m.lastpos == null {
      m.lastpos := new nat[LastSize(m.g)];
    }
    SpanInRange(m.x, r, m.coldp, endp0);
    dp, endp := TryAll(m, endp0, r);
  }

  /** Dissect, by whichever method, the longest match from coldp (lines 224-272). */
  method Details(m: Matcher, endp0: nat, nm: nat, flags: Flags, ghost r: Re) returns (dp: Option<nat>, endp: nat)
    requires CanSearchFor(m, r, nm, flags) && (nm > 1 || m.g.backrefs)
    requires m.x.begin <= m.coldp <= m.x.end && LongestEnd(m.x, r, m.coldp, m.x.end) == Some(endp0)
    requires m.pmatch != null ==> m.pmatch.Length == m.g.nsub + 1
    requires m.lastpos != null ==> m.lastpos.Length == LastSize(m.g)
    modifies m`pmatch, m`lastpos, m.pmatch, m.lastpos
    ensures m.pmatch != null && (m.pmatch == old(m.pmatch) || fresh(m.pmatch)) && m.pmatch.Length == m.g.nsub + 1
    ensures m.lastpos == old(m.lastpos) || (m.lastpos != null && fresh(m.lastpos) && m.lastpos.Length == LastSize(m.g))
    ensures !Deep(m.g, nm, flags) ==> dp == Some(endp0) && endp == endp0
    ensures !Deep(m.g, nm, flags) ==>
      exists pm0 :: Clean(pm0, m.g.nsub) && m.pmatch[..] == Captured(m.x, r, m.coldp, endp, pm0)
    ensures Deep(m.g, nm, flags) && (dp.Some? || m.g.backrefs) ==>
      RefusedBeyond(m.x, m.g, r, m.coldp, if dp.Some? then endp else -1)
    ensures Deep(m.g, nm, flags) && dp.None? && !m.g.backrefs ==> LongestRefused(m.x, m.g, r, m.coldp, endp)
    ensures Deep(m.g, nm, flags) && dp.Some? ==> m.coldp <= endp <= m.x.end && Spans(m.x, r, m.coldp, endp)
                                                 && Backtracked(m.x, m.g, m.coldp, endp, m.pmatch[..])
  {
    hide Spans, LoopsConsume, Backtracked, RefusedBeyond, LongestRefused, Captured, Plain;
    ClearGroups(m);
    ghost var pm0 := m.pmatch[..];
    if !m.g.backrefs && !flags.backr {
      endp := endp0;
      SpanInRange(m.x, r, m.coldp, endp);
      var sp := m.Dissect(m.coldp, endp, m.Gf(), m.Gl(), r);
      dp := Some(sp);
    } else {
      dp, endp := DetailsByBackref(m, endp0, r);
    }
  }

  lemma {:induction false} SpanInRange(x: Subject, r: Re, i: nat, e: nat)
    requires LongestEnd(x, r, i, x.end) == Some(e)
    ensures Spans(x, r, i, e) && i <= e <= x.end
  {
  }

  lemma {:induction false} NoneLater(x: Subject, r: Re, a: nat, b: nat)
    requires a <= b && !MatchFrom(x, r, a)
    ensures !MatchFrom(x, r, b)
  {
  }

  lemma {:induction false} EndMatches(x: Subject, r: Re, a: nat, e: nat)
    requires LongestEnd(x, r, a, x.end) == Some(e)
    ensures MatchFrom(x, r, a)
  {
  }

  lemma {:induction false} JoinNone(x: Subject, r: Re, a: nat, b: nat, c: nat)
    requires NoneFrom(x, r, a, b) && NoneFrom(x, r, b, c)
    ensures NoneFrom(x, r, a, c)
  {
  }

  lemma {:induction false} NoneRefused(x: Subject, g: Guts, r: Re, a: nat, b: nat)
    requires x.Valid() && x.begin <= a && LoopsConsume(g.strip) && (NoneFrom(x, r, a, b) || !MatchFrom(x, r, a))
    ensures AllRefused(x, g, r, a, b)
  {
    hide Spans, Refused, LoopsConsume;
  }

  lemma {:induction false} JoinRefused(x: Subject, g: Guts, r: Re, a: nat, b: nat, c: nat)
    requires x.Valid() && x.begin <= a <= b && LoopsConsume(g.strip)
    requires AllRefused(x, g, r, a, b) && AllRefused(x, g, r, b, c)
    ensures AllRefused(x, g, r, a, c)
  {
    hide RefusedBeyond, LoopsConsume;
  }

  /** What a round of the search adds: nothing before coldp, and coldp itself refused. */
  lemma {:induction false} RoundRefused(x: Subject, g: Guts, r: Re, start: nat, c0: nat, c: nat)
    requires x.Valid() && x.begin <= start <= c0 <= c && LoopsConsume(g.strip)
    requires AllRefused(x, g, r, x.begin, start) && NoneFrom(x, r, start, c0) && NoneFrom(x, r, c0, c)
    ensures AllRefused(x, g, r, x.begin, c)
    ensures RefusedBeyond(x, g, r, c, -1) ==> AllRefused(x, g, r, x.begin, c + 1)
  {
    hide RefusedBeyond, LoopsConsume, NoneFrom;
    NoneRefused(x, g, r, start, c0);
    NoneRefused(x, g, r, c0, c);
    JoinRefused(x, g, r, x.begin, start, c0);
    JoinRefused(x, g, r, x.begin, c0, c);
    if RefusedBeyond(x, g, r, c, -1) {
      assert AllRefused(x, g, r, c, c + 1);
      JoinRefused(x, g, r, x.begin, c, c + 1);
    }
  }

  /** The state of the search before a round that begins at `start`. */
  ghost predicate SoFar(x: Subject, g: Guts, r: Re, nm: nat, flags: Flags, start: nat)
    requires x.Valid() && g.firststate + 1 <= g.laststate <= |g.strip| && (Deep(g, nm, flags) ==> LoopsConsume(g.strip))
  {
    x.begin <= start && (!Deep(g, nm, flags) ==> start == x.begin)
    && (Deep(g, nm, flags) && NoReentry(g.strip, g.firststate + 1, g.laststate) ==> AllRefused(x, g, r, x.begin, start))
  }

  ghost predicate CanAnswer(x: Subject, g: Guts, nm: nat, flags: Flags) {
    x.Valid() && g.firststate + 1 <= g.laststate <= |g.strip| && (Deep(g, nm, flags) ==> LoopsConsume(g.strip))
  }

  lemma {:induction false} AnswerMiss(x: Subject, g: Guts, r: Re, nm: nat, flags: Flags, start: nat, s: nat, e: nat,
        pm: seq<Span>)
    requires CanAnswer(x, g, nm, flags) && SoFar(x, g, r, nm, flags, start) && start <= x.end && !MatchFrom(x, r, start)
    ensures Answer(x, g, r, nm, flags, NoMatch, s, e, pm)
  {
    hide LoopsConsume, FoundPlain, FoundDeep, AllRefused, NoReentry, MatchFrom, NoneFrom;
    NoneLater(x, r, start, x.end);
    if Deep(g, nm, flags) && NoReentry(g.strip, g.firststate + 1, g.laststate) {
      NoneRefused(x, g, r, start, x.end + 1);
      JoinRefused(x, g, r, x.begin, start, x.end + 1);
    }
  }

  /** After fast and slow: where the first match may start, and the longest one from there. */
  ghost predicate Candidate(x: Subject, g: Guts, r: Re, start: nat, c0: nat, c: nat, endp: nat)
    requires g.firststate + 1 <= g.laststate <= |g.strip|
  {
    start <= c0 <= c <= endp <= x.end && LongestEnd(x, r, c, x.end) == Some(endp) && NoneFrom(x, r, c0, c)
    && (NoReentry(g.strip, g.firststate + 1, g.laststate) ==> NoneFrom(x, r, start, c0))
  }

  lemma {:induction false} AnswerPlain(x: Subject, g: Guts, r: Re, nm: nat, flags: Flags, c0: nat, s: nat, e: nat,
        pm: seq<Span>)
    requires CanAnswer(x, g, nm, flags) && !Deep(g, nm, flags) && MatchFrom(x, r, x.begin)
    requires Candidate(x, g, r, x.begin, c0, s, e)
    requires nm > 1 ==> exists pm0 :: Clean(pm0, g.nsub) && pm == Captured(x, r, s, e, pm0)
    ensures Answer(x, g, r, nm, flags, Ok, s, e, pm)
  {
    hide LoopsConsume, FoundDeep, AllRefused, NoReentry, MatchFrom, NoneFrom, LongestEnd, Captured;
    if NoReentry(g.strip, g.firststate + 1, g.laststate) {
      JoinNone(x, r, x.begin, c0, s);
    }
  }

  lemma {:induction false} AnswerDeep(x: Subject, g: Guts, r: Re, nm: nat, flags: Flags, start: nat, c0: nat, s: nat,
        e0: nat, e: nat, pm: seq<Span>)
    requires CanAnswer(x, g, nm, flags) && Deep(g, nm, flags) && SoFar(x, g, r, nm, flags, start)
    requires Candidate(x, g, r, start, c0, s, e0)
    requires s <= e <= x.end && Spans(x, r, s, e) && Backtracked(x, g, s, e, pm) && RefusedBeyond(x, g, r, s, e)
    ensures Answer(x, g, r, nm, flags, Ok, s, e, pm)
  {
    hide LoopsConsume, FoundPlain, AllRefused, NoReentry, MatchFrom, NoneFrom, LongestEnd, Spans, Backtracked,
      RefusedBeyond;
    if NoReentry(g.strip, g.firststate + 1, g.laststate) {
      RoundRefused(x, g, r, start, c0, s);
    }
  }

  lemma {:induction false} AnswerNowhere(x: Subject, g: Guts, r: Re, nm: nat, flags: Flags, start: nat, c0: nat,
        e0: nat, e: nat, pm: seq<Span>)
    requires CanAnswer(x, g, nm, flags) && Deep(g, nm, flags) && SoFar(x, g, r, nm, flags, start)
    requires Candidate(x, g, r, start, c0, x.end, e0) && RefusedBeyond(x, g, r, x.end, -1)
    ensures Answer(x, g, r, nm, flags, Failed(278), x.end, e, pm)
  {
    hide LoopsConsume, FoundPlain, FoundDeep, AllRefused, NoReentry, MatchFrom, NoneFrom, LongestEnd, Spans,
      RefusedBeyond;
    EndMatches(x, r, x.end, e0);
    if NoReentry(g.strip, g.firststate + 1, g.laststate) {
      RoundRefused(x, g, r, start, c0, x.end);
    }
  }

  lemma {:induction false} AnswerSurprise(x: Subject, g: Guts, r: Re, nm: nat, flags: Flags, s: nat, e: nat,
        pm: seq<Span>)
    requires CanAnswer(x, g, nm, flags) && Deep(g, nm, flags) && !g.backrefs && LongestRefused(x, g, r, s, e)
    ensures Answer(x, g, r, nm, flags, Failed(252), s, e, pm)
  {
    hide LoopsConsume, FoundPlain, FoundDeep, AllRefused, NoReentry, MatchFrom, NoneFrom, LongestEnd, Spans,
      RefusedBeyond;
  }

  lemma {:induction false} NextRound(x: Subject, g: Guts, r: Re, nm: nat, flags: Flags, start: nat, c0: nat, s: nat,
        e0: nat)
    requires CanAnswer(x, g, nm, flags) && Deep(g, nm, flags) && SoFar(x, g, r, nm, flags, start)
    requires Candidate(x, g, r, start, c0, s, e0) && RefusedBeyond(x, g, r, s, -1)
    ensures SoFar(x, g, r, nm, flags, s + 1)
  {
    hide LoopsConsume, AllRefused, NoReentry, NoneFrom, LongestEnd, RefusedBeyond;
    if NoReentry(g.strip, g.firststate + 1, g.laststate) {
      RoundRefused(x, g, r, start, c0, s);
    }
  }

  lemma {:induction false} AnswerBare(x: Subject, g: Guts, r: Re, flags: Flags, s: nat, e: nat, pm: seq<Span>)
    requires CanAnswer(x, g, 0, flags) && !g.backrefs && MatchFrom(x, r, x.begin)
    ensures Answer(x, g, r, 0, flags, Ok, s, e, pm)
  {
    hide FoundPlain, FoundDeep, AllRefused, NoReentry, MatchFrom;
  }

  lemma {:induction false} Begin(x: Subject, g: Guts, r: Re, nm: nat, flags: Flags)
    requires CanAnswer(x, g, nm, flags)
    ensures SoFar(x, g, r, nm, flags, x.begin)
  {
  }

  /** The subexpressions of a candidate: they make it an answer, or it is refused. */
  method Attempt(m: Matcher, endp0: nat, nm: nat, flags: Flags, ghost r: Re, ghost start: nat, ghost c0: nat)
    returns (dp: Option<nat>, endp: nat)
    requires CanSearchFor(m, r, nm, flags) && (nm > 1 || m.g.backrefs) && SoFar(m.x, m.g, r, nm, flags, start)
    requires Candidate(m.x, m.g, r, start, c0, m.coldp, endp0) && MatchFrom(m.x, r, start)
    requires m.pmatch != null ==> m.pmatch.Length == m.g.nsub + 1
    requires m.lastpos != null ==> m.lastpos.Length == LastSize(m.g)
    modifies m`pmatch, m`lastpos, m.pmatch, m.lastpos
    ensures m.pmatch != null && (m.pmatch == old(m.pmatch) || fresh(m.pmatch)) && m.pmatch.Length == m.g.nsub + 1
    ensures m.lastpos == old(m.lastpos) || (m.lastpos != null && fresh(m.lastpos) && m.lastpos.Length == LastSize(m.g))
    ensures dp.Some? ==> Answer(m.x, m.g, r, nm, flags, Ok, m.coldp, endp, Groups(m))
    ensures dp.None? ==> Deep(m.g, nm, flags)
    ensures dp.None? && m.g.backrefs ==> RefusedBeyond(m.x, m.g, r, m.coldp, -1)
    ensures dp.None? && !m.g.backrefs ==> LongestRefused(m.x, m.g, r, m.coldp, endp)
  {
    hide Spans, LoopsConsume, Backtracked, RefusedBeyond, Captured, Plain, NoReentry, MatchFrom, NoneFrom, Answer,
      LongestEnd;
    dp, endp := Details(m, endp0, nm, flags, r);
    if dp != None {
      if Deep(m.g, nm, flags) {
        AnswerDeep(m.x, m.g, r, nm, flags, start, c0, m.coldp, endp0, endp, Groups(m));
      } else {
        AnswerPlain(m.x, m.g, r, nm, flags, c0, m.coldp, endp, Groups(m));
      }
    }
  }

  lemma {:induction false} CanBegin(m: Matcher, r: Re, nm: nat, flags: Flags)
    requires CanSearchFor(m, r, nm, flags)
    ensures m.x.begin <= m.x.end && m.Gf() <= m.Gl() <= |m.g.strip| && Whole(m, r) && CanAnswer(m.x, m.g, nm, flags)
    ensures m.x.Valid() && (Deep(m.g, nm, flags) ==> LoopsConsume(m.g.strip))
  {
    hide LoopsConsume, Plain;
  }

  /** One round of the search, from `start` on. If it is not the last, what starts at coldp was
      refused. */
  method Round(m: Matcher, start: nat, nm: nat, flags: Flags, ghost r: Re)
    returns (more: bool, code: Outcome, endp: nat)
    requires CanSearchFor(m, r, nm, flags) && m.x.begin <= start <= m.x.end
    requires !Deep(m.g, nm, flags) ==> start == m.x.begin
    requires CanAnswer(m.x, m.g, nm, flags) && SoFar(m.x, m.g, r, nm, flags, start)
    requires m.pmatch != null ==> m.pmatch.Length == m.g.nsub + 1
    requires m.lastpos != null ==> m.lastpos.Length == LastSize(m.g)
    modifies m, m.pmatch, m.lastpos
    ensures m.pmatch == old(m.pmatch) || (m.pmatch != null && fresh(m.pmatch))
    ensures m.pmatch != null ==> m.pmatch.Length == m.g.nsub + 1
    ensures m.lastpos == old(m.lastpos) || (m.lastpos != null && fresh(m.lastpos))
    ensures m.lastpos != null ==> m.lastpos.Length == LastSize(m.g)
    ensures code != InvArg && (nm > 1 && code == Ok && !more ==> m.pmatch != null)
    ensures !more ==> Answer(m.x, m.g, r, nm, flags, code, m.coldp, endp, Groups(m))
    ensures more ==> start <= m.coldp < m.x.end && Deep(m.g, nm, flags) && SoFar(m.x, m.g, r, nm, flags, m.coldp + 1)
  {
    hide Spans, LoopsConsume, RefusedBeyond, NoReentry, MatchFrom, NoneFrom, Answer, SoFar, LongestEnd, Whole,
      CanSearchFor, CanAnswer, LongestRefused;
    ghost var x, g := m.x, m.g;
    CanBegin(m, r, nm, flags);
    endp := start;
    var found := FastOn(m, start, r);
    if !found {
      AnswerMiss(x, g, r, nm, flags, start, m.coldp, endp, Groups(m));
      return false, NoMatch, endp;
    }
    if nm == 0 && !m.g.backrefs {
      AnswerBare(x, g, r, flags, m.coldp, endp, Groups(m));
      return false, Ok, endp;
    }
    ghost var c0 := m.coldp;
    endp := FindStart(m, r);
    assert Candidate(x, g, r, start, c0, m.coldp, endp);
    if nm == 1 && !m.g.backrefs {
      AnswerPlain(x, g, r, nm, flags, c0, m.coldp, endp, Groups(m));
      return false, Ok, endp;
    }
    ghost var e0 := endp;
    var dp;
    dp, endp := Attempt(m, endp, nm, flags, r, start, c0);
    if dp != None {
      return false, Ok, endp;
    }
    if !m.g.backrefs {
      AnswerSurprise(x, g, r, nm, flags, m.coldp, endp, Groups(m));
      return false, Failed(252), endp;
    }
    if m.coldp == m.x.end {
      AnswerNowhere(x, g, r, nm, flags, start, c0, e0, endp, Groups(m));
      return false, Failed(278), endp;
    }
    NextRound(x, g, r, nm, flags, start, c0, m.coldp, e0);
    return true, NoMatch, endp;
  }

  /** The loop of lines 201-279, which goes round again only when backtracking refuses a match. */
  method Search(m: Matcher, nm: nat, flags: Flags, ghost r: Re) returns (code: Outcome, endp: nat)
    requires CanSearchFor(m, r, nm, flags) && m.pmatch == null && m.lastpos == null
    modifies m
    ensures code != InvArg && (m.pmatch != null ==> fresh(m.pmatch))
    ensures nm > 1 && code == Ok ==> m.pmatch != null && m.pmatch.Length == m.g.nsub + 1
    ensures Answer(m.x, m.g, r, nm, flags, code, m.coldp, endp, Groups(m))
  {
    hide Spans, LoopsConsume, RefusedBeyond, NoReentry, MatchFrom, NoneFrom, Answer, SoFar, LongestEnd, Whole,
      CanSearchFor, CanAnswer;
    ghost var x, g := m.x, m.g;
    CanBegin(m, r, nm, flags);
    Begin(x, g, r, nm, flags);
    var start := m.x.begin;
    endp := m.x.begin;
    while true
      invariant m.x.begin <= start <= m.x.end && (!Deep(g, nm, flags) ==> start == x.begin)
      invariant m.pmatch != null ==> fresh(m.pmatch) && m.pmatch.Length == m.g.nsub + 1
      invariant m.lastpos != null ==> fresh(m.lastpos) && m.lastpos.Length == LastSize(m.g)
      invariant SoFar(x, g, r, nm, flags, start)
      decreases m.x.end - start
    {
      var more;
      more, code, endp := Round(m, start, nm, flags, r);
      if !more {
        return;
      }
      start := m.coldp + 1;
    }
  }

  // ----- matcher -----

  /** pmatch[0] on entry. */
  function First(pmatch: array<Span>): Span
    reads pmatch
  {
    if pmatch.Length == 0 then UNSET else pmatch[0]
  }

  /** Is it worth searching at all (lines 176-183)? */
  method Screened(g: Guts, x: Subject, ghost r: Re) returns (go: bool)
    requires Compiled(g, r) && x.Valid()
    ensures !go ==> g.must.Some? && !Occurs(x, g.must.value, x.begin, x.end)
  {
    hide Compiled, Occurs, Plain;
    CompiledFits(g, r);
    go := true;
    if g.must.Some? {
      go := Prescreen(g.must.value, x);
    }
  }

  /** matcher: is there a match, and where? The ghost results are the text searched, the bounds of
      the match, and its groups. */
  method RunMatcher(g: Guts, str: string, nmatch: nat, pmatch: array<Span>, flags: Flags, ghost r: Re)
    returns (code: Outcome, ghost x: Subject, ghost s: nat, ghost e: nat, ghost pm: seq<Span>)
    requires Compiled(g, r) && Wanted(g, nmatch) <= pmatch.Length
    requires flags.startend ==> pmatch.Length > 0 && 0 <= pmatch[0].so <= |str| && 0 <= pmatch[0].eo <= |str|
    requires Deep(g, Wanted(g, nmatch), flags) ==> LoopsConsume(g.strip)
    modifies pmatch
    ensures x == old(SubjectOf(g, str, First(pmatch), flags))
    ensures x.text == str && x.notbol == flags.notbol && x.noteol == flags.noteol && x.newline == g.newline
    ensures x.sets == g.sets && (flags.startend ==> old(pmatch[0]) == Span(x.begin, x.end))
    ensures !flags.startend ==>
      x.begin == 0 && x.end <= |str| && (forall i :: 0 <= i < x.end ==> str[i] != '\0')
      && (x.end < |str| ==> str[x.end] == '\0')
    ensures g.nosub ==> pmatch[..] == old(pmatch[..])
    ensures code == Ok && !g.nosub && nmatch > 0 ==> pmatch[0] == Span(s, e)
    ensures code == Ok && !g.nosub ==>
      forall i :: 1 <= i < nmatch ==> pmatch[i] == if i < |pm| then pm[i] else Span(-1, -1)
    ensures code == InvArg <==> x.end < x.begin
    ensures code != InvArg ==> Answer(x, g, r, Wanted(g, nmatch), flags, code, s, e, pm)
    ensures code == Ok ==> Reports(pmatch[..], Wanted(g, nmatch), s, e, pm)
    ensures code != Ok ==> pmatch[..] == old(pmatch[..])
    ensures forall i :: Wanted(g, nmatch) <= i < pmatch.Length ==> pmatch[i] == old(pmatch[i])
  {
    hide LoopsConsume, Answer, Whole, Compiled, Reports, Plain, Occurs;
    var nm := Wanted(g, nmatch);
    var searched := SubjectOf(g, str, First(pmatch), flags);
    x, s, e, pm := searched, 0, 0, [];
    if searched.end < searched.begin {
      return InvArg, x, s, e, pm;
    }
    CompiledFits(g, r);
    var go := Screened(g, searched, r);
    if !go {
      NoLiteral(x, g, r, nm, flags);
      return NoMatch, x, s, e, pm;
    }
    var m := new Matcher(g, searched);
    CompiledIsWhole(m, r);
    var endp;
    code, endp := Search(m, nm, flags, r);
    s, e, pm := m.coldp, endp, Groups(m);
    if code == Ok {
      FillIn(m, nm, endp, pmatch);
      Reported(pmatch[..], nm, s, e, pm);
    }
  }

  lemma {:induction false} Reported(user: seq<Span>, nm: nat, s: nat, e: nat, pm: seq<Span>)
    requires Reports(user, nm, s, e, pm)
    ensures nm <= |user| && (nm > 0 ==> user[0] == Span(s, e))
    ensures forall i :: 1 <= i < nm ==> user[i] == if i < |pm| then pm[i] else Span(-1, -1)
  {
  }

  /** When backtracking decides, and what is then said of a match that was found. */
  lemma {:induction false} AnswerSays(x: Subject, g: Guts, r: Re, nmatch: nat, flags: Flags, code: Outcome, s: nat,
        e: nat, pm: seq<Span>)
    requires CanAnswer(x, g, Wanted(g, nmatch), flags) && Answer(x, g, r, Wanted(g, nmatch), flags, code, s, e, pm)
    ensures !g.backrefs && (!flags.backr || g.nosub || nmatch <= 1) ==>
      !code.Failed? && (code == Ok <==> exists i: nat, j: nat :: x.begin <= i && j <= x.end && Spans(x, r, i, j))
      && (code == Ok && !g.nosub && nmatch > 0 ==>
            Spans(x, r, s, e) && e <= x.end && forall q: nat :: e < q <= x.end ==> !Spans(x, r, s, q))
      && (code == Ok && !g.nosub && nmatch > 1 ==> exists pm0 :: Clean(pm0, g.nsub) && pm == Captured(x, r, s, e, pm0))
    ensures code == Ok && (g.backrefs || (flags.backr && !g.nosub && nmatch > 1)) ==>
      LoopsConsume(g.strip) && x.begin <= s <= e <= x.end && Spans(x, r, s, e) && Backtracked(x, g, s, e, pm)
  {
    hide Spans, LoopsConsume, Captured, NoReentry, Backtracked, AllRefused, RefusedBeyond;
  }

  lemma {:induction false} CompiledFits(g: Guts, r: Re)
    requires Compiled(g, r)
    ensures g.firststate + 1 <= g.laststate < |g.strip| && (g.must.Some? ==> g.must.value != [])
    ensures !g.backrefs ==> Plain(r, g.nsub)
  {
    hide Plain, Depth, WellGrouped;
  }

  lemma {:induction false} NoLiteral(x: Subject, g: Guts, r: Re, nm: nat, flags: Flags)
    requires Compiled(g, r) && g.must.Some? && x.Valid() && !Occurs(x, g.must.value, x.begin, x.end)
    requires Deep(g, nm, flags) ==> LoopsConsume(g.strip)
    ensures Answer(x, g, r, nm, flags, NoMatch, 0, 0, [])
  {
    hide Spans, LoopsConsume, Plain, FoundPlain, FoundDeep, AllRefused, Laid, Counted, NoReentry, Mandatory, MatchFrom,
      NoneFrom, Depth, WellGrouped;
    MatchHoldsLiteral(x, g, r);
    NoneLater(x, r, x.begin, x.end);
    if Deep(g, nm, flags) {
      NoneRefused(x, g, r, x.begin, x.end + 1);
    }
  }

  lemma {:induction false} MatchHoldsLiteral(x: Subject, g: Guts, r: Re)
    requires Compiled(g, r) && g.must.Some?
    ensures MatchFrom(x, r, x.begin) ==> Occurs(x, g.must.value, x.begin, x.end)
  {
    hide Spans, Laid, Counted, Plain, Depth, WellGrouped;
    if MatchFrom(x, r, x.begin) {
      var i: nat, j: nat :| x.begin <= i && j <= x.end && Spans(x, r, i, j);
      assert Occurs(x, g.must.value, i, j);
    }
  }

  lemma {:induction false} CompiledIsWhole(m: Matcher, r: Re)
    requires Compiled(m.g, r) && m.x.Valid() && m.x.sets == m.g.sets
    ensures Whole(m, r)
  {
    hide Laid, Counted, Plain, Mandatory, Depth, WellGrouped;
  }

  /** Fill in the details (lines 281-295). */
  method FillIn(m: Matcher, nm: nat, endp: nat, pmatch: array<Span>)
    requires nm <= pmatch.Length && m.pmatch != pmatch
    requires nm > 1 ==> m.pmatch != null && m.pmatch.Length == m.g.nsub + 1
    modifies pmatch
    ensures Reports(pmatch[..], nm, m.coldp, endp, old(Groups(m)))
    ensures forall i :: nm <= i < pmatch.Length ==> pmatch[i] == old(pmatch[i])
  {
    if nm > 0 {
      pmatch[0] := Span(m.coldp, endp);
    }
    if nm > 1 {
      for i := 1 to nm
        invariant pmatch[0] == Span(m.coldp, endp) && m.pmatch[..] == old(Groups(m))
        invariant forall k :: 1 <= k < i ==> pmatch[k] == if k <= m.g.nsub then m.pmatch[k] else UNSET
        invariant forall k :: nm <= k < pmatch.Length ==> pmatch[k] == old(pmatch[k])
      {
        pmatch[i] := if i <= m.g.nsub then m.pmatch[i] else UNSET;
      }
    }
  }
}
