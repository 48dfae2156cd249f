/** Backtracking with a bound on the depth of calls (include/regex/engine.c, lines 493-692), for any strip. Where
    every + body takes text it agrees with the unbounded function, and some bound is enough. */
module Bounds {
  import opened Strip
  import opened Text
  import opened Captures
  import opened Backtrack
  import opened BackrefSound

  /** A run of backref that gives up, with None, where calls are more than `n` deep. */
  ghost function RunFor(n: nat, x: Subject, strip: Ops, stop: nat, stopst: nat, ss: nat, sp: nat, lev: nat,
        mem: Memory): Option<Trial>
    requires x.Valid() && x.begin <= sp <= stop <= x.end
    decreases n, 1
  {
    if n == 0 then None
    else if ss >= stopst then Some(Trial(if sp == stop then Some(sp) else None, mem))
    else if ss >= |strip| then Some(Trial(None, mem))
    else
      match EasyStep(x, strip, stop, ss, sp) {
        case No => Some(Trial(None, mem))
        case To(ss', sp') => RunFor(n - 1, x, strip, stop, stopst, ss', sp', lev, mem)
        case Hard =>
          match strip[ss] {
            case OBack_(i) =>
              var q := FindBack(strip, ss, i);
              if i >= |mem.pm| || q.None? || !Repeats(x, stop, sp, mem.pm[i]) then Some(Trial(None, mem))
              else RunFor(n - 1, x, strip, stop, stopst, q.value + 1, sp + (mem.pm[i].eo - mem.pm[i].so), lev, mem)
            case OQuest_(k) =>
              var v := RunFor(n - 1, x, strip, stop, stopst, ss + 1, sp, lev, mem);
              if v.None? || v.value.end.Some? then v
              else RunFor(n - 1, x, strip, stop, stopst, ss + k + 1, sp, lev, v.value.mem)
            case OPlus_(_) =>
              RunFor(n - 1, x, strip, stop, stopst, ss + 1, sp, lev + 1, mem.(last := Put(mem.last, lev + 1, sp)))
            case O_Plus(k) =>
              if lev == 0 || lev >= |mem.last| || k > ss then Some(Trial(None, mem))
              else if sp == mem.last[lev] then RunFor(n - 1, x, strip, stop, stopst, ss + 1, sp, lev - 1, mem)
              else
                var v := RunFor(n - 1, x, strip, stop, stopst, ss - k + 1, sp, lev,
                  mem.(last := Put(mem.last, lev, sp)));
                if v.None? || v.value.end.Some? then v
                else RunFor(n - 1, x, strip, stop, stopst, ss + 1, sp, lev - 1, v.value.mem)
            case OCh_(_) => BranchesFor(n - 1, x, strip, stop, ss, sp, lev, mem)
            case OLParen(i) =>
              if i >= |mem.pm| then Some(Trial(None, mem))
              else
                var v := RunFor(n - 1, x, strip, stop, stopst, ss + 1, sp, lev, mem.(pm := SetSo(mem.pm, i, sp)));
                if v.None? || v.value.end.Some? then v
                else Some(Trial(None, v.value.mem.(pm := SetSo(v.value.mem.pm, i, mem.pm[i].so))))
            case ORParen(i) =>
              if i >= |mem.pm| then Some(Trial(None, mem))
              else
                var v := RunFor(n - 1, x, strip, stop, stopst, ss + 1, sp, lev, mem.(pm := SetEo(mem.pm, i, sp)));
                if v.None? || v.value.end.Some? then v
                else Some(Trial(None, v.value.mem.(pm := SetEo(v.value.mem.pm, i, mem.pm[i].eo))))
            case _ => Some(Trial(None, mem))
          }
      }
  }

  ghost function BranchesFor(n: nat, x: Subject, strip: Ops, stop: nat, h: nat, sp: nat, lev: nat,
        mem: Memory): Option<Trial>
    requires x.Valid() && x.begin <= sp <= stop <= x.end && h < |strip|
    decreases n, 0
  {
    if n == 0 then None
    else
      var e := BranchEnd(strip, h);
      if e.None? then Some(Trial(None, mem))
      else
        var v := RunFor(n - 1, x, strip, stop, e.value, h + 1, sp, lev, mem);
        if v.None? || v.value.end.Some? then v
        else if strip[e.value].O_Ch? then Some(Trial(None, v.value.mem))
        else BranchesFor(n - 1, x, strip, stop, e.value + 1, sp, lev, v.value.mem)
  }

  /** What a parenthesis records. */
  function Set(op: Sop, pm: seq<Span>, sp: nat): seq<Span>
    requires op.OLParen? || op.ORParen?
  {
    if op.OLParen? then SetSo(pm, op.paren, sp) else SetEo(pm, op.paren, sp)
  }

  // ----- where every + body takes text -----

  /** What a bounded run finds is what the run finds. */
  lemma {:induction false} Agrees(n: nat, x: Subject, strip: Ops, stop: nat, stopst: nat, ss: nat, sp: nat, lev: nat,
        mem: Memory)
    requires x.Valid() && x.begin <= sp <= stop <= x.end && LoopsConsume(strip)
    ensures var v := RunFor(n, x, strip, stop, stopst, ss, sp, lev, mem);
            v.Some? ==> v.value == Run(x, strip, stop, stopst, ss, sp, lev, mem)
    decreases n, 1
  {
    hide Rank, CanLoop, Repeats, FindBack, ChEnd, BranchEnd;
    if n > 0 && ss < stopst && ss < |strip| {
      match EasyStep(x, strip, stop, ss, sp)
      case No =>
      case To(ss', sp') => Agrees(n - 1, x, strip, stop, stopst, ss', sp', lev, mem);
      case Hard =>
        match strip[ss] {
          case OBack_(i) => AgreesBack(n, x, strip, stop, stopst, ss, sp, lev, mem);
          case OQuest_(k) => AgreesQuest(n, x, strip, stop, stopst, ss, sp, lev, mem);
          case OPlus_(_) =>
            Agrees(n - 1, x, strip, stop, stopst, ss + 1, sp, lev + 1, mem.(last := Put(mem.last, lev + 1, sp)));
          case O_Plus(k) => AgreesLoop(n, x, strip, stop, stopst, ss, sp, lev, mem);
          case OCh_(_) => BranchesAgree(n - 1, x, strip, stop, ss, sp, lev, mem);
          case OLParen(i) =>
            if i < |mem.pm| {
              Agrees(n - 1, x, strip, stop, stopst, ss + 1, sp, lev, mem.(pm := SetSo(mem.pm, i, sp)));
            }
          case ORParen(i) =>
            if i < |mem.pm| {
              Agrees(n - 1, x, strip, stop, stopst, ss + 1, sp, lev, mem.(pm := SetEo(mem.pm, i, sp)));
            }
          case _ =>
        }
    }
  }

  lemma {:induction false} AgreesBack(n: nat, x: Subject, strip: Ops, stop: nat, stopst: nat, ss: nat, sp: nat,
        lev: nat, mem: Memory)
    requires x.Valid() && x.begin <= sp <= stop <= x.end && LoopsConsume(strip)
    requires n > 0 && ss < stopst && ss < |strip| && strip[ss].OBack_?
    ensures var v := RunFor(n, x, strip, stop, stopst, ss, sp, lev, mem);
            v.Some? ==> v.value == Run(x, strip, stop, stopst, ss, sp, lev, mem)
    decreases n, 0
  {
    hide Rank, CanLoop, FindBack, RunBranches, BranchesFor;
    var i := strip[ss].paren;
    var q := FindBack(strip, ss, i);
    if i < |mem.pm| && q.Some? && Repeats(x, stop, sp, mem.pm[i]) {
      Agrees(n - 1, x, strip, stop, stopst, q.value + 1, sp + (mem.pm[i].eo - mem.pm[i].so), lev, mem);
    }
  }

  lemma {:induction false} AgreesQuest(n: nat, x: Subject, strip: Ops, stop: nat, stopst: nat, ss: nat, sp: nat,
        lev: nat, mem: Memory)
    requires x.Valid() && x.begin <= sp <= stop <= x.end && LoopsConsume(strip)
    requires n > 0 && ss < stopst && ss < |strip| && strip[ss].OQuest_?
    ensures var v := RunFor(n, x, strip, stop, stopst, ss, sp, lev, mem);
            v.Some? ==> v.value == Run(x, strip, stop, stopst, ss, sp, lev, mem)
    decreases n, 0
  {
    hide Rank, CanLoop, RunBranches, BranchesFor;
    var k := strip[ss].fwd;
    var v := RunFor(n - 1, x, strip, stop, stopst, ss + 1, sp, lev, mem);
    Agrees(n - 1, x, strip, stop, stopst, ss + 1, sp, lev, mem);
    if v.Some? { Agrees(n - 1, x, strip, stop, stopst, ss + k + 1, sp, lev, v.value.mem); }
  }

  lemma {:induction false} AgreesLoop(n: nat, x: Subject, strip: Ops, stop: nat, stopst: nat, ss: nat, sp: nat,
        lev: nat, mem: Memory)
    requires x.Valid() && x.begin <= sp <= stop <= x.end && LoopsConsume(strip)
    requires n > 0 && ss < stopst && ss < |strip| && strip[ss].O_Plus?
    ensures var v := RunFor(n, x, strip, stop, stopst, ss, sp, lev, mem);
            v.Some? ==> v.value == Run(x, strip, stop, stopst, ss, sp, lev, mem)
    decreases n, 0
  {
    hide Rank, CanLoop, BranchesFor, RunBranches, FindBack, BranchEnd, ChEnd, Put;
    var k := strip[ss].back;
    if lev != 0 && lev < |mem.last| {
      Agrees(n - 1, x, strip, stop, stopst, ss + 1, sp, lev - 1, mem);
      var m := mem.(last := Put(mem.last, lev, sp));
      var v := RunFor(n - 1, x, strip, stop, stopst, ss - k + 1, sp, lev, m);
      Agrees(n - 1, x, strip, stop, stopst, ss - k + 1, sp, lev, m);
      if v.Some? { Agrees(n - 1, x, strip, stop, stopst, ss + 1, sp, lev - 1, v.value.mem); }
    }
  }

  lemma {:induction false} BranchesAgree(n: nat, x: Subject, strip: Ops, stop: nat, h: nat, sp: nat, lev: nat,
        mem: Memory)
    requires x.Valid() && x.begin <= sp <= stop <= x.end && LoopsConsume(strip) && h < |strip|
    ensures var v := BranchesFor(n, x, strip, stop, h, sp, lev, mem);
            v.Some? ==> v.value == RunBranches(x, strip, stop, h, sp, lev, mem)
    decreases n, 0
  {
    hide Rank, CanLoop, BranchEnd;
    var e := BranchEnd(strip, h);
    if n > 0 && e.Some? {
      var v := RunFor(n - 1, x, strip, stop, e.value, h + 1, sp, lev, mem);
      Agrees(n - 1, x, strip, stop, e.value, h + 1, sp, lev, mem);
      if v.Some? && !strip[e.value].O_Ch? {
        BranchesAgree(n - 1, x, strip, stop, e.value + 1, sp, lev, v.value.mem);
      }
    }
  }

  /** A larger bound gives the same. */
  lemma {:induction false} Deeper(n: nat, m: nat, x: Subject, strip: Ops, stop: nat, stopst: nat, ss: nat, sp: nat,
        lev: nat, mem: Memory)
    requires x.Valid() && x.begin <= sp <= stop <= x.end && n <= m
    requires RunFor(n, x, strip, stop, stopst, ss, sp, lev, mem).Some?
    ensures RunFor(m, x, strip, stop, stopst, ss, sp, lev, mem) == RunFor(n, x, strip, stop, stopst, ss, sp, lev, mem)
    decreases n, 1
  {
    hide FindBack, ChEnd, BranchEnd;
    if ss < stopst && ss < |strip| {
      match EasyStep(x, strip, stop, ss, sp)
      case No =>
      case To(ss', sp') => Deeper(n - 1, m - 1, x, strip, stop, stopst, ss', sp', lev, mem);
      case Hard =>
        match strip[ss] {
          case OBack_(i) => DeeperBack(n, m, x, strip, stop, stopst, ss, sp, lev, mem);
          case OQuest_(k) => DeeperQuest(n, m, x, strip, stop, stopst, ss, sp, lev, mem);
          case OPlus_(_) =>
            Deeper(n - 1, m - 1, x, strip, stop, stopst, ss + 1, sp, lev + 1, mem.(last := Put(mem.last, lev + 1, sp)));
          case O_Plus(k) => DeeperLoop(n, m, x, strip, stop, stopst, ss, sp, lev, mem);
          case OCh_(_) => BranchesDeeper(n - 1, m - 1, x, strip, stop, ss, sp, lev, mem);
          case OLParen(i) =>
            if i < |mem.pm| {
              Deeper(n - 1, m - 1, x, strip, stop, stopst, ss + 1, sp, lev, mem.(pm := SetSo(mem.pm, i, sp)));
            }
          case ORParen(i) =>
            if i < |mem.pm| {
              Deeper(n - 1, m - 1, x, strip, stop, stopst, ss + 1, sp, lev, mem.(pm := SetEo(mem.pm, i, sp)));
            }
          case _ =>
        }
    }
  }

  lemma {:induction false} DeeperBack(n: nat, m: nat, x: Subject, strip: Ops, stop: nat, stopst: nat, ss: nat,
        sp: nat, lev: nat, mem: Memory)
    requires x.Valid() && x.begin <= sp <= stop <= x.end && n <= m && ss < stopst && ss < |strip| && strip[ss].OBack_?
    requires RunFor(n, x, strip, stop, stopst, ss, sp, lev, mem).Some?
    ensures RunFor(m, x, strip, stop, stopst, ss, sp, lev, mem) == RunFor(n, x, strip, stop, stopst, ss, sp, lev, mem)
    decreases n, 0
  {
    hide FindBack, BranchesFor;
    var i := strip[ss].paren;
    var q := FindBack(strip, ss, i);
    if i < |mem.pm| && q.Some? && Repeats(x, stop, sp, mem.pm[i]) {
      var t := sp + (mem.pm[i].eo - mem.pm[i].so);
      Deeper(n - 1, m - 1, x, strip, stop, stopst, q.value + 1, t, lev, mem);
    }
  }

  lemma {:induction false} DeeperQuest(n: nat, m: nat, x: Subject, strip: Ops, stop: nat, stopst: nat, ss: nat,
        sp: nat, lev: nat, mem: Memory)
    requires x.Valid() && x.begin <= sp <= stop <= x.end && n <= m && ss < stopst && ss < |strip| && strip[ss].OQuest_?
    requires RunFor(n, x, strip, stop, stopst, ss, sp, lev, mem).Some?
    ensures RunFor(m, x, strip, stop, stopst, ss, sp, lev, mem) == RunFor(n, x, strip, stop, stopst, ss, sp, lev, mem)
    decreases n, 0
  {
    hide BranchesFor;
    Deeper(n - 1, m - 1, x, strip, stop, stopst, ss + 1, sp, lev, mem);
    var v := RunFor(n - 1, x, strip, stop, stopst, ss + 1, sp, lev, mem).value;
    if v.end.None? { Deeper(n - 1, m - 1, x, strip, stop, stopst, ss + strip[ss].fwd + 1, sp, lev, v.mem); }
  }

  lemma {:induction false} DeeperLoop(n: nat, m: nat, x: Subject, strip: Ops, stop: nat, stopst: nat, ss: nat,
        sp: nat, lev: nat, mem: Memory)
    requires x.Valid() && x.begin <= sp <= stop <= x.end && n <= m && ss < stopst && ss < |strip| && strip[ss].O_Plus?
    requires RunFor(n, x, strip, stop, stopst, ss, sp, lev, mem).Some?
    ensures RunFor(m, x, strip, stop, stopst, ss, sp, lev, mem) == RunFor(n, x, strip, stop, stopst, ss, sp, lev, mem)
    decreases n, 0
  {
    var k := strip[ss].back;
    if 0 < lev < |mem.last| && k <= ss {
      if sp == mem.last[lev] {
        Deeper(n - 1, m - 1, x, strip, stop, stopst, ss + 1, sp, lev - 1, mem);
      } else {
        var mem1 := mem.(last := Put(mem.last, lev, sp));
        Deeper(n - 1, m - 1, x, strip, stop, stopst, ss - k + 1, sp, lev, mem1);
        var v := RunFor(n - 1, x, strip, stop, stopst, ss - k + 1, sp, lev, mem1).value;
        if v.end.None? { Deeper(n - 1, m - 1, x, strip, stop, stopst, ss + 1, sp, lev - 1, v.mem); }
      }
    }
  }

  lemma {:induction false} BranchesDeeper(n: nat, m: nat, x: Subject, strip: Ops, stop: nat, h: nat, sp: nat,
        lev: nat, mem: Memory)
    requires x.Valid() && x.begin <= sp <= stop <= x.end && n <= m && h < |strip|
    requires BranchesFor(n, x, strip, stop, h, sp, lev, mem).Some?
    ensures BranchesFor(m, x, strip, stop, h, sp, lev, mem) == BranchesFor(n, x, strip, stop, h, sp, lev, mem)
    decreases n, 0
  {
    hide BranchEnd;
    var e := BranchEnd(strip, h);
    if e.Some? {
      Deeper(n - 1, m - 1, x, strip, stop, e.value, h + 1, sp, lev, mem);
      var v := RunFor(n - 1, x, strip, stop, e.value, h + 1, sp, lev, mem).value;
      if v.end.None? && !strip[e.value].O_Ch? {
        BranchesDeeper(n - 1, m - 1, x, strip, stop, e.value + 1, sp, lev, v.mem);
      }
    }
  }

  /** Some bound gives `v`. */
  ghost predicate Ends(x: Subject, strip: Ops, stop: nat, stopst: nat, ss: nat, sp: nat, lev: nat, mem: Memory,
        v: Trial)
    requires x.Valid() && x.begin <= sp <= stop <= x.end
  {
    exists n: nat :: RunFor(n, x, strip, stop, stopst, ss, sp, lev, mem) == Some(v)
  }

  ghost predicate BranchesEnd(x: Subject, strip: Ops, stop: nat, h: nat, sp: nat, lev: nat, mem: Memory, v: Trial)
    requires x.Valid() && x.begin <= sp <= stop <= x.end && h < |strip|
  {
    exists n: nat :: BranchesFor(n, x, strip, stop, h, sp, lev, mem) == Some(v)
  }

  /** Where every + body takes text, every run ends, and gives what the unbounded function says. */
  lemma {:induction false} RunEnds(x: Subject, strip: Ops, stop: nat, stopst: nat, ss: nat, sp: nat, lev: nat,
        mem: Memory)
    requires x.Valid() && x.begin <= sp <= stop <= x.end && LoopsConsume(strip)
    ensures Ends(x, strip, stop, stopst, ss, sp, lev, mem, Run(x, strip, stop, stopst, ss, sp, lev, mem))
    decreases stop - sp, Rank(strip, ss), |strip| - ss, 1
  {
    hide Rank, CanLoop, Repeats, FindBack, ChEnd, BranchEnd, Ends;
    if ss < stopst && ss < |strip| {
      EasyRank(x, strip, stop, ss, sp);
      match EasyStep(x, strip, stop, ss, sp)
      case No => AtOnce(x, strip, stop, stopst, ss, sp, lev, mem);
      case To(ss', sp') =>
        RunEnds(x, strip, stop, stopst, ss', sp', lev, mem);
        EasyEnds(x, strip, stop, stopst, ss, sp, lev, mem);
      case Hard =>
        if ZeroNext(strip, ss) { RankDown(strip, ss, ss + 1); }
        match strip[ss] {
          case OBack_(i) => ReferenceEnds(x, strip, stop, stopst, ss, sp, lev, mem);
          case OQuest_(k) =>
            RankDown(strip, ss, ss + k + 1);
            RunEnds(x, strip, stop, stopst, ss + 1, sp, lev, mem);
            var v := Run(x, strip, stop, stopst, ss + 1, sp, lev, mem);
            RunEnds(x, strip, stop, stopst, ss + k + 1, sp, lev, v.mem);
            QuestEnds(x, strip, stop, stopst, ss, sp, lev, mem);
          case OPlus_(_) =>
            RunEnds(x, strip, stop, stopst, ss + 1, sp, lev + 1, mem.(last := Put(mem.last, lev + 1, sp)));
            EnterEnds(x, strip, stop, stopst, ss, sp, lev, mem);
          case O_Plus(k) => LoopEnds(x, strip, stop, stopst, ss, sp, lev, mem);
          case OCh_(_) =>
            EndOfBranches(x, strip, stop, ss, sp, lev, mem);
            ChoiceEnds(x, strip, stop, stopst, ss, sp, lev, mem);
          case OLParen(i) =>
            RunEnds(x, strip, stop, stopst, ss + 1, sp, lev, mem.(pm := SetSo(mem.pm, i, sp)));
            ParenEnds(x, strip, stop, stopst, ss, sp, lev, mem);
          case ORParen(i) =>
            RunEnds(x, strip, stop, stopst, ss + 1, sp, lev, mem.(pm := SetEo(mem.pm, i, sp)));
            ParenEnds(x, strip, stop, stopst, ss, sp, lev, mem);
          case _ => AtOnce(x, strip, stop, stopst, ss, sp, lev, mem);
        }
    } else {
      AtOnce(x, strip, stop, stopst, ss, sp, lev, mem);
    }
  }

  predicate Stuck(op: Sop) {
    op.OEnd? || op.O_Back? || op.OOr2? || op.O_Ch?
  }

  lemma {:induction false} AtOnce(x: Subject, strip: Ops, stop: nat, stopst: nat, ss: nat, sp: nat, lev: nat,
        mem: Memory)
    requires x.Valid() && x.begin <= sp <= stop <= x.end && LoopsConsume(strip)
    requires ss >= stopst || ss >= |strip| || EasyStep(x, strip, stop, ss, sp) == No || Stuck(strip[ss])
    ensures Ends(x, strip, stop, stopst, ss, sp, lev, mem, Run(x, strip, stop, stopst, ss, sp, lev, mem))
  {
    hide Rank, CanLoop, ChEnd;
    assert RunFor(1, x, strip, stop, stopst, ss, sp, lev, mem) == Some(Run(x, strip, stop, stopst, ss, sp, lev, mem));
  }

  lemma {:induction false} EasyEnds(x: Subject, strip: Ops, stop: nat, stopst: nat, ss: nat, sp: nat, lev: nat,
        mem: Memory)
    requires x.Valid() && x.begin <= sp <= stop <= x.end && LoopsConsume(strip) && ss < stopst && ss < |strip|
    requires var e := EasyStep(x, strip, stop, ss, sp);
             e.To? && Ends(x, strip, stop, stopst, e.ss, e.sp, lev, mem,
               Run(x, strip, stop, stopst, e.ss, e.sp, lev, mem))
    ensures Ends(x, strip, stop, stopst, ss, sp, lev, mem, Run(x, strip, stop, stopst, ss, sp, lev, mem))
  {
    hide Rank, CanLoop, EasyStep, LoopsConsume;
    var e := EasyStep(x, strip, stop, ss, sp);
    var v := Run(x, strip, stop, stopst, e.ss, e.sp, lev, mem);
    var n: nat :| RunFor(n, x, strip, stop, stopst, e.ss, e.sp, lev, mem) == Some(v);
    assert RunFor(n + 1, x, strip, stop, stopst, ss, sp, lev, mem) == Some(v);
  }

  lemma {:induction false} ReferenceEnds(x: Subject, strip: Ops, stop: nat, stopst: nat, ss: nat, sp: nat, lev: nat,
        mem: Memory)
    requires x.Valid() && x.begin <= sp <= stop <= x.end && LoopsConsume(strip)
    requires ss < stopst && ss < |strip| && strip[ss].OBack_?
    ensures Ends(x, strip, stop, stopst, ss, sp, lev, mem, Run(x, strip, stop, stopst, ss, sp, lev, mem))
    decreases stop - sp, Rank(strip, ss), |strip| - ss, 0
  {
    hide Rank, CanLoop, FindBack, LoopsConsume;
    var i := strip[ss].paren;
    var q := FindBack(strip, ss, i);
    if i < |mem.pm| && q.Some? && Repeats(x, stop, sp, mem.pm[i]) {
      var t := sp + (mem.pm[i].eo - mem.pm[i].so);
      RankDown(strip, ss, q.value + 1);
      RunEnds(x, strip, stop, stopst, q.value + 1, t, lev, mem);
      var v := Run(x, strip, stop, stopst, q.value + 1, t, lev, mem);
      var n: nat :| RunFor(n, x, strip, stop, stopst, q.value + 1, t, lev, mem) == Some(v);
      assert RunFor(n + 1, x, strip, stop, stopst, ss, sp, lev, mem) == Some(v);
    } else {
      assert RunFor(1, x, strip, stop, stopst, ss, sp, lev, mem) == Some(Trial(None, mem));
    }
  }

  /** A bound that is enough for two runs. */
  lemma {:induction false} Both(x: Subject, strip: Ops, stop: nat, stopst: nat, s1: nat, p1: nat, l1: nat, m1: Memory,
        v1: Trial, s2: nat, p2: nat, l2: nat, m2: Memory, v2: Trial) returns (n: nat)
    requires x.Valid() && x.begin <= p1 <= stop <= x.end && x.begin <= p2 <= stop
    requires Ends(x, strip, stop, stopst, s1, p1, l1, m1, v1) && Ends(x, strip, stop, stopst, s2, p2, l2, m2, v2)
    ensures RunFor(n, x, strip, stop, stopst, s1, p1, l1, m1) == Some(v1)
    ensures RunFor(n, x, strip, stop, stopst, s2, p2, l2, m2) == Some(v2)
  {
    hide RunFor;
    var a: nat :| RunFor(a, x, strip, stop, stopst, s1, p1, l1, m1) == Some(v1);
    var b: nat :| RunFor(b, x, strip, stop, stopst, s2, p2, l2, m2) == Some(v2);
    n := if a < b then b else a;
    Deeper(a, n, x, strip, stop, stopst, s1, p1, l1, m1);
    Deeper(b, n, x, strip, stop, stopst, s2, p2, l2, m2);
  }

  lemma {:induction false} QuestEnds(x: Subject, strip: Ops, stop: nat, stopst: nat, ss: nat, sp: nat, lev: nat,
        mem: Memory)
    requires x.Valid() && x.begin <= sp <= stop <= x.end && LoopsConsume(strip)
    requires ss < stopst && ss < |strip| && strip[ss].OQuest_?
    requires var v := Run(x, strip, stop, stopst, ss + 1, sp, lev, mem);
             var t := ss + strip[ss].fwd + 1;
             Ends(x, strip, stop, stopst, ss + 1, sp, lev, mem, v)
             && Ends(x, strip, stop, stopst, t, sp, lev, v.mem, Run(x, strip, stop, stopst, t, sp, lev, v.mem))
    ensures Ends(x, strip, stop, stopst, ss, sp, lev, mem, Run(x, strip, stop, stopst, ss, sp, lev, mem))
  {
    hide Rank, CanLoop, LoopsConsume;
    var t := ss + strip[ss].fwd + 1;
    var v := Run(x, strip, stop, stopst, ss + 1, sp, lev, mem);
    var w := Run(x, strip, stop, stopst, t, sp, lev, v.mem);
    var n := Both(x, strip, stop, stopst, ss + 1, sp, lev, mem, v, t, sp, lev, v.mem, w);
    assert RunFor(n + 1, x, strip, stop, stopst, ss, sp, lev, mem) == Some(if v.end.Some? then v else w);
  }

  lemma {:induction false} EnterEnds(x: Subject, strip: Ops, stop: nat, stopst: nat, ss: nat, sp: nat, lev: nat,
        mem: Memory)
    requires x.Valid() && x.begin <= sp <= stop <= x.end && LoopsConsume(strip)
    requires ss < stopst && ss < |strip| && strip[ss].OPlus_?
    requires var m := mem.(last := Put(mem.last, lev + 1, sp));
             Ends(x, strip, stop, stopst, ss + 1, sp, lev + 1, m, Run(x, strip, stop, stopst, ss + 1, sp, lev + 1, m))
    ensures Ends(x, strip, stop, stopst, ss, sp, lev, mem, Run(x, strip, stop, stopst, ss, sp, lev, mem))
  {
    hide Rank, CanLoop, LoopsConsume, Put;
    var m := mem.(last := Put(mem.last, lev + 1, sp));
    var v := Run(x, strip, stop, stopst, ss + 1, sp, lev + 1, m);
    var n: nat :| RunFor(n, x, strip, stop, stopst, ss + 1, sp, lev + 1, m) == Some(v);
    assert RunFor(n + 1, x, strip, stop, stopst, ss, sp, lev, mem) == Some(v);
  }

  lemma {:induction false} LoopEnds(x: Subject, strip: Ops, stop: nat, stopst: nat, ss: nat, sp: nat, lev: nat,
        mem: Memory)
    requires x.Valid() && x.begin <= sp <= stop <= x.end && LoopsConsume(strip)
    requires ss < stopst && ss < |strip| && strip[ss].O_Plus?
    ensures Ends(x, strip, stop, stopst, ss, sp, lev, mem, Run(x, strip, stop, stopst, ss, sp, lev, mem))
    decreases stop - sp, Rank(strip, ss), |strip| - ss, 0
  {
    hide CanLoop;
    LoopHere(strip, ss);
    RankDown(strip, ss, ss + 1);
    var b := ss - strip[ss].back + 1;
    if lev == 0 || lev >= |mem.last| {
      assert RunFor(1, x, strip, stop, stopst, ss, sp, lev, mem) == Some(Trial(None, mem));
    } else if sp == mem.last[lev] {
      RunEnds(x, strip, stop, stopst, ss + 1, sp, lev - 1, mem);
      var v := Run(x, strip, stop, stopst, ss + 1, sp, lev - 1, mem);
      var n: nat :| RunFor(n, x, strip, stop, stopst, ss + 1, sp, lev - 1, mem) == Some(v);
      assert RunFor(n + 1, x, strip, stop, stopst, ss, sp, lev, mem) == Some(v);
    } else {
      var m := mem.(last := Put(mem.last, lev, sp));
      RunEnds(x, strip, stop, stopst, b, sp, lev, m);
      var v := Run(x, strip, stop, stopst, b, sp, lev, m);
      RunEnds(x, strip, stop, stopst, ss + 1, sp, lev - 1, v.mem);
      var w := Run(x, strip, stop, stopst, ss + 1, sp, lev - 1, v.mem);
      var n := Both(x, strip, stop, stopst, b, sp, lev, m, v, ss + 1, sp, lev - 1, v.mem, w);
      assert RunFor(n + 1, x, strip, stop, stopst, ss, sp, lev, mem) == Some(if v.end.Some? then v else w);
    }
  }

  lemma {:induction false} ParenEnds(x: Subject, strip: Ops, stop: nat, stopst: nat, ss: nat, sp: nat, lev: nat,
        mem: Memory)
    requires x.Valid() && x.begin <= sp <= stop <= x.end && LoopsConsume(strip)
    requires ss < stopst && ss < |strip| && (strip[ss].OLParen? || strip[ss].ORParen?)
    requires var m := mem.(pm := Set(strip[ss], mem.pm, sp));
             Ends(x, strip, stop, stopst, ss + 1, sp, lev, m, Run(x, strip, stop, stopst, ss + 1, sp, lev, m))
    ensures Ends(x, strip, stop, stopst, ss, sp, lev, mem, Run(x, strip, stop, stopst, ss, sp, lev, mem))
  {
    hide Rank, CanLoop, LoopsConsume, SetSo, SetEo;
    var m := mem.(pm := Set(strip[ss], mem.pm, sp));
    var v := Run(x, strip, stop, stopst, ss + 1, sp, lev, m);
    var n: nat :| RunFor(n, x, strip, stop, stopst, ss + 1, sp, lev, m) == Some(v);
    assert RunFor(n + 1, x, strip, stop, stopst, ss, sp, lev, mem)
        == Some(Run(x, strip, stop, stopst, ss, sp, lev, mem));
  }

  lemma {:induction false} ChoiceEnds(x: Subject, strip: Ops, stop: nat, stopst: nat, ss: nat, sp: nat, lev: nat,
        mem: Memory)
    requires x.Valid() && x.begin <= sp <= stop <= x.end && LoopsConsume(strip)
    requires ss < stopst && ss < |strip| && strip[ss].OCh_?
    requires BranchesEnd(x, strip, stop, ss, sp, lev, mem, RunBranches(x, strip, stop, ss, sp, lev, mem))
    ensures Ends(x, strip, stop, stopst, ss, sp, lev, mem, Run(x, strip, stop, stopst, ss, sp, lev, mem))
  {
    hide Rank, CanLoop, LoopsConsume, BranchesFor, RunBranches;
    var v := RunBranches(x, strip, stop, ss, sp, lev, mem);
    var n: nat :| BranchesFor(n, x, strip, stop, ss, sp, lev, mem) == Some(v);
    assert RunFor(n + 1, x, strip, stop, stopst, ss, sp, lev, mem) == Some(v);
  }

  lemma {:induction false} EndOfBranches(x: Subject, strip: Ops, stop: nat, h: nat, sp: nat, lev: nat, mem: Memory)
    requires x.Valid() && x.begin <= sp <= stop <= x.end && LoopsConsume(strip) && h < |strip|
    ensures BranchesEnd(x, strip, stop, h, sp, lev, mem, RunBranches(x, strip, stop, h, sp, lev, mem))
    decreases stop - sp, Rank(strip, h), |strip| - h, 0
  {
    hide Rank, CanLoop, LoopsConsume, BranchEnd, RunFor, Run;
    var e := BranchEnd(strip, h);
    if e.None? {
      assert BranchesFor(1, x, strip, stop, h, sp, lev, mem) == Some(Trial(None, mem));
    } else {
      NextHead(strip, h, e.value);
      RankDown(strip, h, h + 1);
      RunEnds(x, strip, stop, e.value, h + 1, sp, lev, mem);
      var v := Run(x, strip, stop, e.value, h + 1, sp, lev, mem);
      var n: nat :| RunFor(n, x, strip, stop, e.value, h + 1, sp, lev, mem) == Some(v);
      if v.end.Some? || strip[e.value].O_Ch? {
        assert BranchesFor(n + 1, x, strip, stop, h, sp, lev, mem)
            == Some(if v.end.Some? then v else Trial(None, v.mem));
      } else {
        RankDown(strip, h, e.value + 1);
        EndOfBranches(x, strip, stop, e.value + 1, sp, lev, v.mem);
        var w := RunBranches(x, strip, stop, e.value + 1, sp, lev, v.mem);
        var k: nat :| BranchesFor(k, x, strip, stop, e.value + 1, sp, lev, v.mem) == Some(w);
        var m := if n < k then k else n;
        Deeper(n, m, x, strip, stop, e.value, h + 1, sp, lev, mem);
        BranchesDeeper(k, m, x, strip, stop, e.value + 1, sp, lev, v.mem);
        assert BranchesFor(m + 1, x, strip, stop, h, sp, lev, mem) == Some(w);
      }
    }
  }

  // ----- what a bounded run leaves behind -----

  /** A run that fails leaves the captures as they were, and both tables keep their sizes. */
  ghost predicate Undone(mem: Memory, v: Option<Trial>) {
    v.Some? ==> |v.value.mem.pm| == |mem.pm| && |v.value.mem.last| == |mem.last|
                && (v.value.end.None? ==> v.value.mem.pm == mem.pm)
  }

  lemma {:induction false} Leaves(n: nat, x: Subject, strip: Ops, stop: nat, stopst: nat, ss: nat, sp: nat, lev: nat,
        mem: Memory)
    requires x.Valid() && x.begin <= sp <= stop <= x.end
    ensures Undone(mem, RunFor(n, x, strip, stop, stopst, ss, sp, lev, mem))
    decreases n, 1
  {
    hide FindBack, ChEnd, BranchEnd, Repeats;
    if n > 0 && ss < stopst && ss < |strip| {
      match EasyStep(x, strip, stop, ss, sp)
      case No =>
      case To(ss', sp') => Leaves(n - 1, x, strip, stop, stopst, ss', sp', lev, mem);
      case Hard =>
        match strip[ss] {
          case OBack_(i) =>
            var q := FindBack(strip, ss, i);
            if i < |mem.pm| && q.Some? && Repeats(x, stop, sp, mem.pm[i]) {
              RepeatsThere(x, stop, sp, mem.pm[i]);
              Leaves(n - 1, x, strip, stop, stopst, q.value + 1, sp + (mem.pm[i].eo - mem.pm[i].so), lev, mem);
            }
          case OQuest_(k) => LeavesQuest(n, x, strip, stop, stopst, ss, sp, lev, mem);
          case OPlus_(_) =>
            Leaves(n - 1, x, strip, stop, stopst, ss + 1, sp, lev + 1, mem.(last := Put(mem.last, lev + 1, sp)));
          case O_Plus(k) => LeavesLoop(n, x, strip, stop, stopst, ss, sp, lev, mem);
          case OCh_(_) => BranchesLeave(n - 1, x, strip, stop, ss, sp, lev, mem);
          case OLParen(i) =>
            if i < |mem.pm| {
              Leaves(n - 1, x, strip, stop, stopst, ss + 1, sp, lev, mem.(pm := SetSo(mem.pm, i, sp)));
            }
          case ORParen(i) =>
            if i < |mem.pm| {
              Leaves(n - 1, x, strip, stop, stopst, ss + 1, sp, lev, mem.(pm := SetEo(mem.pm, i, sp)));
            }
          case _ =>
        }
    }
  }

  lemma {:induction false} RepeatsThere(x: Subject, stop: nat, sp: nat, s: Span)
    requires x.Valid() && sp <= stop <= x.end && Repeats(x, stop, sp, s)
    ensures s.so <= s.eo && sp + (s.eo - s.so) <= stop
  {
  }

  lemma {:induction false} LeavesQuest(n: nat, x: Subject, strip: Ops, stop: nat, stopst: nat, ss: nat, sp: nat,
        lev: nat, mem: Memory)
    requires x.Valid() && x.begin <= sp <= stop <= x.end && n > 0 && ss < stopst && ss < |strip| && strip[ss].OQuest_?
    ensures Undone(mem, RunFor(n, x, strip, stop, stopst, ss, sp, lev, mem))
    decreases n, 0
  {
    hide BranchesFor;
    Leaves(n - 1, x, strip, stop, stopst, ss + 1, sp, lev, mem);
    var v := RunFor(n - 1, x, strip, stop, stopst, ss + 1, sp, lev, mem);
    if v.Some? { Leaves(n - 1, x, strip, stop, stopst, ss + strip[ss].fwd + 1, sp, lev, v.value.mem); }
  }

  lemma {:induction false} LeavesLoop(n: nat, x: Subject, strip: Ops, stop: nat, stopst: nat, ss: nat, sp: nat,
        lev: nat, mem: Memory)
    requires x.Valid() && x.begin <= sp <= stop <= x.end && n > 0 && ss < stopst && ss < |strip| && strip[ss].O_Plus?
    ensures Undone(mem, RunFor(n, x, strip, stop, stopst, ss, sp, lev, mem))
    decreases n, 0
  {
    hide BranchesFor, FindBack, BranchEnd, ChEnd, Put;
    var k := strip[ss].back;
    if lev != 0 && lev < |mem.last| && k <= ss {
      Leaves(n - 1, x, strip, stop, stopst, ss + 1, sp, lev - 1, mem);
      var m := mem.(last := Put(mem.last, lev, sp));
      Leaves(n - 1, x, strip, stop, stopst, ss - k + 1, sp, lev, m);
      var v := RunFor(n - 1, x, strip, stop, stopst, ss - k + 1, sp, lev, m);
      if v.Some? { Leaves(n - 1, x, strip, stop, stopst, ss + 1, sp, lev - 1, v.value.mem); }
    }
  }

  lemma {:induction false} BranchesLeave(n: nat, x: Subject, strip: Ops, stop: nat, h: nat, sp: nat, lev: nat,
        mem: Memory)
    requires x.Valid() && x.begin <= sp <= stop <= x.end && h < |strip|
    ensures Undone(mem, BranchesFor(n, x, strip, stop, h, sp, lev, mem))
    decreases n, 0
  {
    hide BranchEnd;
    var e := BranchEnd(strip, h);
    if n > 0 && e.Some? {
      var v := RunFor(n - 1, x, strip, stop, e.value, h + 1, sp, lev, mem);
      Leaves(n - 1, x, strip, stop, e.value, h + 1, sp, lev, mem);
      if v.Some? && !strip[e.value].O_Ch? {
        BranchesLeave(n - 1, x, strip, stop, e.value + 1, sp, lev, v.value.mem);
      }
    }
  }
}
