/** The assertions and the table indices of `backref` (include/regex/engine.c, lines 600-690): on compiled
    code none of them fails, however deep the calls get. What bounds the level is what pluscount counts; what
    bounds a group's number is nsub; and a group that a back reference asks for has been closed whenever it has
    an end. */
module Sanity {
  import opened Strip
  import opened Text
  import opened Regex
  import opened Thompson
  import opened Captures
  import opened Backtrack
  import opened Consuming
  import opened Levels
  import opened Bounds

  // ----- runs in which nothing is out of range -----

  /** What the assertions of lines 602-607 ask of the table entry of a group. */
  ghost predicate Usable(f: Frame, s: Span)
    requires f.Framed()
  {
    s.eo != -1 ==> s.so != -1 && 0 <= s.so <= s.eo <= f.x.end && s.eo - s.so <= f.stop - f.x.begin
  }

  /** A run that fails and is not cut short, and then the rest. */
  ghost predicate GoesOn(v: Option<Trial>) { v.Some? && v.value.end.None? }

  /** The run, call by call and up to `n` calls deep, meets every assertion and stays within its tables and the
      strip. */
  ghost predicate Sane(n: nat, f: Frame, stopst: nat, ss: nat, sp: nat, lev: nat, mem: Memory)
    requires f.Framed() && f.On(sp)
    decreases n, 1
  {
    if n == 0 || ss >= stopst then true
    else if ss >= |f.strip| then false
    else
      match EasyStep(f.x, f.strip, f.stop, ss, sp) {
        case No => f.strip[ss].OOr1? ==> ChEnd(f.strip, ss + 1).Some?
        case To(ss', sp') => Sane(n - 1, f, stopst, ss', sp', lev, mem)
        case Hard =>
          match f.strip[ss] {
            case OBack_(i) =>
              var q := FindBack(f.strip, ss, i);
              0 < i <= f.nsub && i < |mem.pm| && Usable(f, mem.pm[i])
              && (Repeats(f.x, f.stop, sp, mem.pm[i]) ==>
                    q.Some? && Sane(n - 1, f, stopst, q.value + 1, sp + (mem.pm[i].eo - mem.pm[i].so), lev, mem))
            case OQuest_(k) =>
              var v := RunFor(n - 1, f.x, f.strip, f.stop, stopst, ss + 1, sp, lev, mem);
              Sane(n - 1, f, stopst, ss + 1, sp, lev, mem)
              && (GoesOn(v) ==> Sane(n - 1, f, stopst, ss + k + 1, sp, lev, v.value.mem))
            case OPlus_(_) =>
              lev + 1 < |mem.last|
              && Sane(n - 1, f, stopst, ss + 1, sp, lev + 1, mem.(last := Put(mem.last, lev + 1, sp)))
            case O_Plus(k) =>
              0 < lev < |mem.last| && k <= ss
              && if sp == mem.last[lev] then Sane(n - 1, f, stopst, ss + 1, sp, lev - 1, mem)
                 else
                   var m := mem.(last := Put(mem.last, lev, sp));
                   var v := RunFor(n - 1, f.x, f.strip, f.stop, stopst, ss - k + 1, sp, lev, m);
                   Sane(n - 1, f, stopst, ss - k + 1, sp, lev, m)
                   && (GoesOn(v) ==> Sane(n - 1, f, stopst, ss + 1, sp, lev - 1, v.value.mem))
            case OCh_(_) => SaneBranches(n - 1, f, ss, sp, lev, mem)
            case OLParen(i) =>
              0 < i <= f.nsub && i < |mem.pm|
              && Sane(n - 1, f, stopst, ss + 1, sp, lev, mem.(pm := SetSo(mem.pm, i, sp)))
            case ORParen(i) =>
              0 < i <= f.nsub && i < |mem.pm|
              && Sane(n - 1, f, stopst, ss + 1, sp, lev, mem.(pm := SetEo(mem.pm, i, sp)))
            case _ => false
          }
      }
  }

  ghost predicate SaneBranches(n: nat, f: Frame, h: nat, sp: nat, lev: nat, mem: Memory)
    requires f.Framed() && f.On(sp) && h < |f.strip|
    decreases n, 0
  {
    n == 0 ||
    var e := BranchEnd(f.strip, h);
    e.Some?
    && (var v := RunFor(n - 1, f.x, f.strip, f.stop, e.value, h + 1, sp, lev, mem);
        Sane(n - 1, f, e.value, h + 1, sp, lev, mem)
        && (GoesOn(v) && !f.strip[e.value].O_Ch? ==> SaneBranches(n - 1, f, e.value + 1, sp, lev, v.value.mem)))
  }

  // ----- the tables a run may meet -----

  /** The tables have their sizes; a closed group has no end or a proper span, an open one a start. */
  ghost predicate Fits(f: Frame, nl: nat, open: multiset<nat>, sp: nat, mem: Memory)
    requires f.Framed()
  {
    |mem.pm| == f.nsub + 1 && |mem.last| == nl && forall i :: 1 <= i <= f.nsub ==> FitsAt(f, open, sp, mem.pm, i)
  }

  ghost predicate FitsAt(f: Frame, open: multiset<nat>, sp: nat, pm: seq<Span>, i: nat)
    requires f.Framed() && i < |pm|
  {
    if i in open then f.x.begin <= pm[i].so <= sp
    else pm[i].eo == -1 || f.x.begin <= pm[i].so <= pm[i].eo <= sp
  }

  /** At level `lev`, with these groups open, every run from `ss` is sane up to `n` calls deep. */
  ghost predicate All(n: nat, f: Frame, nl: nat, stopst: nat, ss: nat, lev: nat, open: multiset<nat>)
    requires f.Framed()
  {
    forall k: nat, sp: nat, mem: Memory :: k <= n && f.On(sp) && Fits(f, nl, open, sp, mem) ==>
      Sane(k, f, stopst, ss, sp, lev, mem)
  }

  lemma {:induction false} LessDeep(n: nat, m: nat, f: Frame, nl: nat, stopst: nat, ss: nat, lev: nat,
        open: multiset<nat>)
    requires f.Framed() && m <= n && All(n, f, nl, stopst, ss, lev, open)
    ensures All(m, f, nl, stopst, ss, lev, open)
  {
    hide Sane, Fits;
  }

  lemma {:induction false} StillFits(f: Frame, nl: nat, open: multiset<nat>, sp: nat, t: nat, mem: Memory, m: Memory)
    requires f.Framed() && Fits(f, nl, open, sp, mem) && sp <= t && m.pm == mem.pm && |m.last| == |mem.last|
    ensures Fits(f, nl, open, t, m)
  {
    forall i | 1 <= i <= f.nsub
      ensures FitsAt(f, open, t, m.pm, i)
    {
      assert FitsAt(f, open, sp, mem.pm, i);
    }
  }

  /** The tables fit again behind a run that has failed. */
  lemma {:induction false} FitsAgain(n: nat, f: Frame, nl: nat, open: multiset<nat>, stopst: nat, ss: nat, sp: nat,
        lev: nat, mem: Memory)
    requires f.Framed() && f.On(sp) && Fits(f, nl, open, sp, mem)
    ensures var v := RunFor(n, f.x, f.strip, f.stop, stopst, ss, sp, lev, mem);
            GoesOn(v) ==> Fits(f, nl, open, sp, v.value.mem)
  {
    hide RunFor, Fits;
    var v := RunFor(n, f.x, f.strip, f.stop, stopst, ss, sp, lev, mem);
    Leaves(n, f.x, f.strip, f.stop, stopst, ss, sp, lev, mem);
    if GoesOn(v) { StillFits(f, nl, open, sp, sp, mem, v.value.mem); }
  }

  // ----- one operator -----

  lemma {:induction false} EasySane(n: nat, f: Frame, nl: nat, stopst: nat, o: nat, lev: nat, open: multiset<nat>)
    requires f.Framed() && o < stopst && o < |f.strip| && All(n, f, nl, stopst, o + 1, lev, open)
    requires f.strip[o].O_Quest? || exists atom: Atom :: !atom.Paren() && f.strip[o] == atom.Code()
    ensures All(n, f, nl, stopst, o, lev, open)
  {
    hide SaneBranches, RunFor, BranchesFor, Repeats, FindBack, Fits;
    forall k: nat, sp: nat, mem: Memory | k <= n && f.On(sp) && Fits(f, nl, open, sp, mem)
      ensures Sane(k, f, stopst, o, sp, lev, mem)
    {
      var e := EasyStep(f.x, f.strip, f.stop, o, sp);
      if e.To? { StillFits(f, nl, open, sp, e.sp, mem, mem); }
    }
  }

  lemma {:induction false} LeafSane(n: nat, f: Frame, nl: nat, stopst: nat, o: nat, atom: Atom, lev: nat,
        open: multiset<nat>)
    requires f.Framed() && o < stopst && o < |f.strip| && f.strip[o] == atom.Code()
    requires atom.Paren() ==> 0 < atom.n <= f.nsub && (atom.RParen? ==> atom.n in open)
    requires All(n, f, nl, stopst, o + 1, lev, Behind(atom, open))
    ensures All(n, f, nl, stopst, o, lev, open)
  {
    hide All;
    if atom.LParen? {
      OpenSane(n, f, nl, stopst, o, atom.n, lev, open);
    } else if atom.RParen? {
      CloseSane(n, f, nl, stopst, o, atom.n, lev, open);
    } else {
      EasySane(n, f, nl, stopst, o, lev, open);
    }
  }

  lemma {:induction false} OpenSane(n: nat, f: Frame, nl: nat, stopst: nat, o: nat, g: nat, lev: nat,
        open: multiset<nat>)
    requires f.Framed() && o < stopst && o < |f.strip| && f.strip[o] == OLParen(g) && 0 < g <= f.nsub
    requires All(n, f, nl, stopst, o + 1, lev, open + multiset{g})
    ensures All(n, f, nl, stopst, o, lev, open)
  {
    hide SaneBranches, RunFor, BranchesFor, Repeats, FindBack;
    forall k: nat, sp: nat, mem: Memory | k <= n && f.On(sp) && Fits(f, nl, open, sp, mem)
      ensures Sane(k, f, stopst, o, sp, lev, mem)
    {
      var m := mem.(pm := SetSo(mem.pm, g, sp));
      forall i | 1 <= i <= f.nsub
        ensures FitsAt(f, open + multiset{g}, sp, m.pm, i)
      {
        assert FitsAt(f, open, sp, mem.pm, i);
      }
      assert Fits(f, nl, open + multiset{g}, sp, m);
    }
  }

  lemma {:induction false} CloseSane(n: nat, f: Frame, nl: nat, stopst: nat, o: nat, g: nat, lev: nat,
        open: multiset<nat>)
    requires f.Framed() && o < stopst && o < |f.strip| && f.strip[o] == ORParen(g) && 0 < g <= f.nsub && g in open
    requires All(n, f, nl, stopst, o + 1, lev, open - multiset{g})
    ensures All(n, f, nl, stopst, o, lev, open)
  {
    hide SaneBranches, RunFor, BranchesFor, Repeats, FindBack;
    forall k: nat, sp: nat, mem: Memory | k <= n && f.On(sp) && Fits(f, nl, open, sp, mem)
      ensures Sane(k, f, stopst, o, sp, lev, mem)
    {
      var m := mem.(pm := SetEo(mem.pm, g, sp));
      forall i | 1 <= i <= f.nsub
        ensures FitsAt(f, open - multiset{g}, sp, m.pm, i)
      {
        assert FitsAt(f, open, sp, mem.pm, i);
      }
      assert Fits(f, nl, open - multiset{g}, sp, m);
    }
  }

  lemma {:induction false} BackSane(n: nat, f: Frame, nl: nat, stopst: nat, o: nat, g: nat, e: nat, lev: nat,
        open: multiset<nat>)
    requires f.Framed() && o < stopst && o < |f.strip| && f.strip[o] == OBack_(g) && 0 < g <= f.nsub && g !in open
    requires FindBack(f.strip, o, g) == Some(e) && All(n, f, nl, stopst, e + 1, lev, open)
    ensures All(n, f, nl, stopst, o, lev, open)
  {
    hide SaneBranches, RunFor, BranchesFor, FindBack;
    forall k: nat, sp: nat, mem: Memory | k <= n && f.On(sp) && Fits(f, nl, open, sp, mem)
      ensures Sane(k, f, stopst, o, sp, lev, mem)
    {
      assert FitsAt(f, open, sp, mem.pm, g);
      if Repeats(f.x, f.stop, sp, mem.pm[g]) {
        StillFits(f, nl, open, sp, sp + (mem.pm[g].eo - mem.pm[g].so), mem, mem);
      }
    }
  }

  lemma {:induction false} QuestSane(n: nat, f: Frame, nl: nat, stopst: nat, o: nat, d: nat, lev: nat,
        open: multiset<nat>)
    requires f.Framed() && o < stopst && o < |f.strip| && f.strip[o] == OQuest_(d)
    requires All(n, f, nl, stopst, o + 1, lev, open) && All(n, f, nl, stopst, o + d + 1, lev, open)
    ensures All(n, f, nl, stopst, o, lev, open)
  {
    hide SaneBranches, RunFor, BranchesFor, Repeats, FindBack, Fits;
    forall k: nat, sp: nat, mem: Memory | k <= n && f.On(sp) && Fits(f, nl, open, sp, mem)
      ensures Sane(k, f, stopst, o, sp, lev, mem)
    {
      if k > 0 { FitsAgain(k - 1, f, nl, open, stopst, o + 1, sp, lev, mem); }
    }
  }

  lemma {:induction false} EnterSane(n: nat, f: Frame, nl: nat, stopst: nat, o: nat, lev: nat, open: multiset<nat>)
    requires f.Framed() && o < stopst && o < |f.strip| && f.strip[o].OPlus_? && lev + 1 < nl
    requires All(n, f, nl, stopst, o + 1, lev + 1, open)
    ensures All(n, f, nl, stopst, o, lev, open)
  {
    hide SaneBranches, RunFor, BranchesFor, Repeats, FindBack;
    forall k: nat, sp: nat, mem: Memory | k <= n && f.On(sp) && Fits(f, nl, open, sp, mem)
      ensures Sane(k, f, stopst, o, sp, lev, mem)
    {
      StillFits(f, nl, open, sp, sp, mem, mem.(last := Put(mem.last, lev + 1, sp)));
    }
  }

  /** The end of a pass: another from here, or on. */
  lemma {:induction false} AgainSane(n: nat, f: Frame, nl: nat, stopst: nat, q: nat, lev: nat, open: multiset<nat>)
    requires f.Framed() && q < stopst && q < |f.strip| && f.strip[q].O_Plus? && 0 < f.strip[q].back <= q && 0 < lev < nl
    requires n > 0 ==> All(n - 1, f, nl, stopst, q - f.strip[q].back + 1, lev, open)
    requires All(n, f, nl, stopst, q + 1, lev - 1, open)
    ensures All(n, f, nl, stopst, q, lev, open)
  {
    hide SaneBranches, RunFor, BranchesFor, Repeats, FindBack, Fits;
    var b := q - f.strip[q].back + 1;
    forall k: nat, sp: nat, mem: Memory | k <= n && f.On(sp) && Fits(f, nl, open, sp, mem)
      ensures Sane(k, f, stopst, q, sp, lev, mem)
    {
      var m := mem.(last := Put(mem.last, lev, sp));
      StillFits(f, nl, open, sp, sp, mem, m);
      FitsSizes(f, nl, open, sp, mem);
      if k > 0 { FitsAgain(k - 1, f, nl, open, stopst, b, sp, lev, m); }
    }
  }

  lemma {:induction false} FitsSizes(f: Frame, nl: nat, open: multiset<nat>, sp: nat, mem: Memory)
    requires f.Framed() && Fits(f, nl, open, sp, mem)
    ensures |mem.pm| == f.nsub + 1 && |mem.last| == nl
  {
  }

  // ----- a whole expression -----

  /** Where runs stop nothing can go wrong. */
  lemma {:induction false} StopSane(n: nat, f: Frame, nl: nat, stopst: nat, lev: nat, open: multiset<nat>)
    requires f.Framed()
    ensures All(n, f, nl, stopst, stopst, lev, open)
  {
  }

  lemma {:induction false} CodeSane(n: nat, f: Frame, nl: nat, stopst: nat, o: nat, r: Re, lev: nat,
        open: multiset<nat>)
    requires f.Framed() && Laid(f.strip, o, r) && o + Len(r) <= stopst && o + Len(r) <= |f.strip|
    requires Opened(r, open, f.nsub).Some? && (Depth(r) > 0 ==> lev + Depth(r) < nl)
    requires All(n, f, nl, stopst, o + Len(r), lev, Opened(r, open, f.nsub).value)
    ensures All(n, f, nl, stopst, o, lev, open)
    decreases r, 1, 0
  {
    hide Laid, LaidAlts, Len, LenAlts, All, Opened, ClosedIn, Depth, DepthAlts;
    OpenedParts(r, open, f.nsub);
    DepthParts(r);
    match r
    case Eps => LenOfEps();
    case Leaf(atom, k) =>
      LaidLeaf(f.strip, o, atom, k);
      LenOfLeaf(atom, k);
      CodeSane(n, f, nl, stopst, o + 1, k, lev, Behind(atom, open));
      LeafSane(n, f, nl, stopst, o, atom, lev, open);
    case Plus(b, k) =>
      LenOfPlus(b, k);
      LoopSane(n, f, nl, stopst, o, b, k, lev, open);
    case Quest(b, k) =>
      LenOfQuest(b, k);
      OptionSane(n, f, nl, stopst, o, b, k, lev, open);
    case Back(g, b, k) =>
      LaidBack(f.strip, o, g, b, k);
      LenOfBack(g, b, k);
      BackEnds(f.strip, o, g, b, k);
      CodeSane(n, f, nl, stopst, o + 2 + Len(b), k, lev, open);
      BackSane(n, f, nl, stopst, o, g, o + 1 + Len(b), lev, open);
    case Choice(g, alts, k) =>
      LenOfChoice(g, alts, k);
      ChoiceSane(n, f, nl, stopst, o, g, alts, k, lev, open);
  }

  lemma {:induction false} LoopSane(n: nat, f: Frame, nl: nat, stopst: nat, o: nat, b: Re, k: Re, lev: nat,
        open: multiset<nat>)
    requires f.Framed() && Laid(f.strip, o, Plus(b, k))
    requires o + 2 + Len(b) + Len(k) <= stopst && o + 2 + Len(b) + Len(k) <= |f.strip|
    requires Opened(b, open, f.nsub) == Some(open) && Opened(k, open, f.nsub).Some?
    requires lev + 1 + Depth(b) < nl && (Depth(k) > 0 ==> lev + Depth(k) < nl)
    requires All(n, f, nl, stopst, o + 2 + Len(b) + Len(k), lev, Opened(k, open, f.nsub).value)
    ensures All(n, f, nl, stopst, o, lev, open)
    decreases Plus(b, k), 0, n + 1
  {
    hide Laid, Len, All, Opened, Depth;
    LaidPlus(f.strip, o, b, k);
    CodeSane(n, f, nl, stopst, o + 2 + Len(b), k, lev, open);
    PassSane(n, f, nl, stopst, o + 1, Plus(b, k), b, k, lev, open);
    EnterSane(n, f, nl, stopst, o, lev, open);
  }

  /** The body of a loop, however many passes follow: each is deeper down. */
  lemma {:induction false} PassSane(n: nat, f: Frame, nl: nat, stopst: nat, o: nat, r: Re, b: Re, k: Re, lev: nat,
        open: multiset<nat>)
    requires f.Framed() && r == Plus(b, k) && Laid(f.strip, o, b)
    requires o >= 1 && o + Len(b) < stopst && o + Len(b) < |f.strip| && f.strip[o + Len(b)] == O_Plus(Len(b) + 1)
    requires Opened(b, open, f.nsub) == Some(open) && lev + 1 + Depth(b) < nl
    requires All(n, f, nl, stopst, o + Len(b) + 1, lev, open)
    ensures All(n, f, nl, stopst, o, lev + 1, open)
    decreases r, 0, n
  {
    hide Laid, Len, All, Opened, Depth;
    if n > 0 {
      LessDeep(n, n - 1, f, nl, stopst, o + Len(b) + 1, lev, open);
      PassSane(n - 1, f, nl, stopst, o, r, b, k, lev, open);
    }
    AgainSane(n, f, nl, stopst, o + Len(b), lev + 1, open);
    CodeSane(n, f, nl, stopst, o, b, lev + 1, open);
  }

  lemma {:induction false} OptionSane(n: nat, f: Frame, nl: nat, stopst: nat, o: nat, b: Re, k: Re, lev: nat,
        open: multiset<nat>)
    requires f.Framed() && Laid(f.strip, o, Quest(b, k))
    requires o + 2 + Len(b) + Len(k) <= stopst && o + 2 + Len(b) + Len(k) <= |f.strip|
    requires Opened(b, open, f.nsub) == Some(open) && Opened(k, open, f.nsub).Some?
    requires (Depth(b) > 0 ==> lev + Depth(b) < nl) && (Depth(k) > 0 ==> lev + Depth(k) < nl)
    requires All(n, f, nl, stopst, o + 2 + Len(b) + Len(k), lev, Opened(k, open, f.nsub).value)
    ensures All(n, f, nl, stopst, o, lev, open)
    decreases Quest(b, k), 0, 0
  {
    hide Laid, Len, All, Opened, Depth;
    LaidQuest(f.strip, o, b, k);
    var e := o + 1 + Len(b);
    CodeSane(n, f, nl, stopst, e + 1, k, lev, open);
    EasySane(n, f, nl, stopst, e, lev, open);
    CodeSane(n, f, nl, stopst, o + 1, b, lev, open);
    QuestSane(n, f, nl, stopst, o, Len(b) + 1, lev, open);
  }

  // ----- choices -----

  /** Every branch of a choice, from the one headed at `h`. */
  ghost predicate AllBranches(n: nat, f: Frame, nl: nat, h: nat, lev: nat, open: multiset<nat>)
    requires f.Framed() && h < |f.strip|
  {
    forall k: nat, sp: nat, mem: Memory :: k <= n && f.On(sp) && Fits(f, nl, open, sp, mem) ==>
      SaneBranches(k, f, h, sp, lev, mem)
  }

  lemma {:induction false} ChoiceSane(n: nat, f: Frame, nl: nat, stopst: nat, o: nat, g: Re, alts: Alts, k: Re,
        lev: nat, open: multiset<nat>)
    requires f.Framed() && Laid(f.strip, o, Choice(g, alts, k)) && o < stopst
    requires Opened(Choice(g, alts, k), open, f.nsub).Some?
    requires Depth(Choice(g, alts, k)) > 0 ==> lev + Depth(Choice(g, alts, k)) < nl
    ensures All(n, f, nl, stopst, o, lev, open)
    decreases Choice(g, alts, k), 0, 0
  {
    hide Laid, LaidAlts, Len, LenAlts, All, ChEnd;
    var c := LaidChoice(f.strip, o, g, alts, k);
    StopSane(n, f, nl, o + 1 + Len(g), lev, open);
    CodeSane(n, f, nl, o + 1 + Len(g), o + 1, g, lev, open);
    AltsSane(n, f, nl, o + 2 + Len(g), alts, lev, open);
    MoreBranches(n, f, nl, o, o + 1 + Len(g), lev, open);
    ChoiceOpSane(n, f, nl, stopst, o, lev, open);
  }

  lemma {:induction false} ChoiceOpSane(n: nat, f: Frame, nl: nat, stopst: nat, o: nat, lev: nat, open: multiset<nat>)
    requires f.Framed() && o < stopst && o < |f.strip| && f.strip[o].OCh_? && AllBranches(n, f, nl, o, lev, open)
    ensures All(n, f, nl, stopst, o, lev, open)
  {
    hide SaneBranches, RunFor, BranchesFor, Repeats, FindBack, Fits;
    forall k: nat, sp: nat, mem: Memory | k <= n && f.On(sp) && Fits(f, nl, open, sp, mem)
      ensures Sane(k, f, stopst, o, sp, lev, mem)
    {
      assert k > 0 ==> SaneBranches(k - 1, f, o, sp, lev, mem);
    }
  }

  /** A branch that ends in an OOR1, and those behind it. */
  lemma {:induction false} MoreBranches(n: nat, f: Frame, nl: nat, h: nat, e: nat, lev: nat, open: multiset<nat>)
    requires f.Framed() && h < |f.strip| && BranchEnd(f.strip, h) == Some(e) && f.strip[e].OOr1? && e + 1 < |f.strip|
    requires All(n, f, nl, e, h + 1, lev, open) && AllBranches(n, f, nl, e + 1, lev, open)
    ensures AllBranches(n, f, nl, h, lev, open)
  {
    hide Sane, RunFor, BranchesFor, Fits, BranchEnd;
    forall k: nat, sp: nat, mem: Memory | k <= n && f.On(sp) && Fits(f, nl, open, sp, mem)
      ensures SaneBranches(k, f, h, sp, lev, mem)
    {
      if k > 0 { FitsAgain(k - 1, f, nl, open, e, h + 1, sp, lev, mem); }
    }
  }

  lemma {:induction false} LastBranch(n: nat, f: Frame, nl: nat, h: nat, e: nat, lev: nat, open: multiset<nat>)
    requires f.Framed() && h < |f.strip| && BranchEnd(f.strip, h) == Some(e) && f.strip[e].O_Ch?
    requires All(n, f, nl, e, h + 1, lev, open)
    ensures AllBranches(n, f, nl, h, lev, open)
  {
    hide Sane, RunFor, BranchesFor, Fits, BranchEnd;
    forall k: nat, sp: nat, mem: Memory | k <= n && f.On(sp) && Fits(f, nl, open, sp, mem)
      ensures SaneBranches(k, f, h, sp, lev, mem)
    {
      assert k > 0 ==> Sane(k - 1, f, e, h + 1, sp, lev, mem);
    }
  }

  lemma {:induction false} AltsSane(n: nat, f: Frame, nl: nat, h: nat, alts: Alts, lev: nat, open: multiset<nat>)
    requires f.Framed() && LaidAlts(f.strip, h, alts) && ClosedIn(alts, open, f.nsub)
    requires DepthAlts(alts) > 0 ==> lev + DepthAlts(alts) < nl
    ensures h < |f.strip| && AllBranches(n, f, nl, h, lev, open)
    decreases alts, 0, 0
  {
    hide Laid, LaidAlts, Len, LenAlts, All, ChEnd;
    var b := alts.b;
    if alts.Last? { LaidLast(f.strip, h, b); LenOfLast(b); } else { LaidOr(f.strip, h, b, alts.more); }
    var e := h + 1 + Len(b);
    StopSane(n, f, nl, e, lev, open);
    CodeSane(n, f, nl, e, h + 1, b, lev, open);
    if alts.Last? {
      LastBranch(n, f, nl, h, e, lev, open);
    } else {
      AltsSane(n, f, nl, e + 1, alts.more, lev, open);
      MoreBranches(n, f, nl, h, e, lev, open);
    }
  }

  // ----- what it comes to -----

  /** On the code of an expression, with a table of places as long as its loops are deep and one entry per group,
      backref meets all its assertions. */
  lemma {:induction false} TablesAreSane(n: nat, f: Frame, o: nat, r: Re, nl: nat, sp: nat, mem: Memory)
    requires f.Framed() && f.On(sp) && Laid(f.strip, o, r) && o + Len(r) <= |f.strip| && WellGrouped(r, f.nsub)
    requires |mem.pm| == f.nsub + 1 && (forall i :: 1 <= i <= f.nsub ==> mem.pm[i] == UNSET)
    requires |mem.last| == nl && (Depth(r) > 0 ==> nl == Depth(r) + 1)
    ensures Sane(n, f, o + Len(r), o, sp, 0, mem)
  {
    hide Laid, Len, Sane, Opened, Depth;
    StopSane(n, f, nl, o + Len(r), 0, multiset{});
    CodeSane(n, f, nl, o + Len(r), o, r, 0, multiset{});
    forall i | 1 <= i <= f.nsub
      ensures FitsAt(f, multiset{}, sp, mem.pm, i)
    {
    }
  }
}
