/** Why copies of a group have to be steady for groups to be well nested: if a group that is copied can take part
    without one inside it, there is a way to divide a text between two copies, as far as the shape of the expression
    goes, after which the outer group records the second piece and the inner one the first. */
module Crossing {
  import opened Text
  import opened Syntax
  import opened Captures
  import opened Groups
  import opened Nesting

  // ----- ways to divide a text -----

  /** Some way, in which what comes last takes all there is. */
  lemma {:induction false} SomeShape(e: Expr, i: nat, j: nat) returns (t: Tree)
    requires i <= j
    ensures Shaped(e, i, j, t)
    decreases e
  {
    match e
    case Empty => t := Nil;
    case Sym(_) => t := Nil;
    case Cat(l, r) =>
      var a := SomeShape(l, i, i);
      var b := SomeShape(r, i, j);
      t := Both(i, a, b);
    case Union(f, _) => t := SomeShape(f, i, j);
    case Star(_) => t := Nil;
    case Some1(d) =>
      var a := SomeShape(d, i, j);
      t := Pass(i, j, a);
    case Opt(_) => t := Nil;
    case Group(n, d) =>
      var a := SomeShape(d, i, j);
      t := Node(n, i, j, a);
  }

  /** One in which a group takes no part that does not always. */
  lemma {:induction false} Avoiding(e: Expr, i: nat, m: nat) returns (t: Tree)
    requires m !in Always(e)
    ensures Shaped(e, i, i, t) && m !in Wrote(t)
    decreases e
  {
    match e
    case Empty => t := Nil;
    case Sym(_) => t := Nil;
    case Cat(l, r) =>
      var a := Avoiding(l, i, m);
      var b := Avoiding(r, i, m);
      t := Both(i, a, b);
    case Union(f, rest) => if m !in Always(f) { t := Avoiding(f, i, m); } else { t := AvoidingAny(rest, i, m); }
    case Star(_) => t := Nil;
    case Some1(d) =>
      var a := Avoiding(d, i, m);
      t := Pass(i, i, a);
    case Opt(_) => t := Nil;
    case Group(n, d) =>
      var a := Avoiding(d, i, m);
      t := Node(n, i, i, a);
  }

  lemma {:induction false} AvoidingAny(bs: Branches, i: nat, m: nat) returns (t: Tree)
    requires m !in AlwaysAll(bs)
    ensures ShapedAny(bs, i, i, t) && m !in Wrote(t)
    decreases bs
  {
    if m !in Always(bs.e) { t := Avoiding(bs.e, i, m); } else { t := AvoidingAny(bs.rest, i, m); }
  }

  lemma {:induction false} NotAmong(e: Expr, i: nat, j: nat, t: Tree, n: nat)
    requires Shaped(e, i, j, t) && n !in Numbers(e)
    ensures n !in Wrote(t)
  {
    hide Shaped, Numbers, GroupsIn;
    if n in Wrote(t) {
      var g := WrittenGroup(e, i, j, t, n);
      NumbersAre(e, n);
    }
  }

  lemma {:induction false} Among(e: Expr, k: Expr)
    requires k in GroupsIn(e)
    ensures k.n in Numbers(e) && Numbers(k.e) <= Numbers(e)
  {
    hide Numbers, GroupsIn;
    NumbersAre(e, k.n);
    GroupsAround(e, k);
    forall n | n in Numbers(k.e)
      ensures n in Numbers(e)
    {
      NumbersAre(k.e, n);
      NumbersAre(e, n);
    }
  }

  /** One in which a group records something from `i` on. */
  lemma {:induction false} Reaching(e: Expr, i: nat, j: nat, k: Expr, pm: seq<Span>) returns (t: Tree)
    requires Distinct(e) && k in GroupsIn(e) && k.n < |pm| && i <= j
    ensures Shaped(e, i, j, t) && Write(t, pm)[k.n].so == i
    decreases e
  {
    hide Numbers;
    Among(e, k);
    match e
    case Cat(l, r) =>
      NumbersOfCat(l, r);
      if k in GroupsIn(l) {
        Among(l, k);
        var a := Reaching(l, i, j, k, pm);
        var b := SomeShape(r, j, j);
        t := Both(j, a, b);
        NotAmong(r, j, j, b, k.n);
        NotWritten(b, Write(a, pm), k.n);
      } else {
        var a := SomeShape(l, i, i);
        var b := Reaching(r, i, j, k, Write(a, pm));
        t := Both(i, a, b);
      }
    case Union(f, rest) =>
      if k in GroupsIn(f) { t := Reaching(f, i, j, k, pm); } else { t := ReachingAny(rest, i, j, k, pm); }
    case Star(d) =>
      var a := Reaching(d, i, j, k, pm);
      t := Pass(i, j, a);
    case Some1(d) =>
      var a := Reaching(d, i, j, k, pm);
      t := Pass(i, j, a);
    case Opt(d) => t := Reaching(d, i, j, k, pm);
    case Group(n, d) =>
      if k == e {
        var a := SomeShape(d, i, j);
        t := Node(n, i, j, a);
        NotAmong(d, i, j, a, n);
        NotWritten(a, SetSo(pm, n, i), n);
      } else {
        Among(d, k);
        var a := Reaching(d, i, j, k, SetSo(pm, n, i));
        t := Node(n, i, j, a);
      }
  }

  lemma {:induction false} ReachingAny(bs: Branches, i: nat, j: nat, k: Expr, pm: seq<Span>) returns (t: Tree)
    requires DistinctAll(bs) && k in GroupsInAll(bs) && k.n < |pm| && i <= j
    ensures ShapedAny(bs, i, j, t) && Write(t, pm)[k.n].so == i
    decreases bs
  {
    hide Numbers;
    if k in GroupsIn(bs.e) { t := Reaching(bs.e, i, j, k, pm); } else { t := ReachingAny(bs.rest, i, j, k, pm); }
  }

  lemma {:induction false} NumbersOfCat(l: Expr, r: Expr)
    ensures Numbers(Cat(l, r)) == Numbers(l) + Numbers(r)
  {
  }

  /** One in which a group takes part without one inside it that does not always. */
  lemma {:induction false} Without(e: Expr, i: nat, k: Expr, m: nat) returns (t: Tree)
    requires Distinct(e) && k in GroupsIn(e) && m in Numbers(k.e) && m !in Always(k.e)
    ensures Shaped(e, i, i, t) && k.n in Wrote(t) && m !in Wrote(t)
    decreases e
  {
    hide Numbers;
    match e
    case Cat(l, r) =>
      if k in GroupsIn(l) {
        Among(l, k);
        var a := Without(l, i, k, m);
        var b := SomeShape(r, i, i);
        NotAmong(r, i, i, b, m);
        t := Both(i, a, b);
      } else {
        Among(r, k);
        var a := SomeShape(l, i, i);
        var b := Without(r, i, k, m);
        NotAmong(l, i, i, a, m);
        t := Both(i, a, b);
      }
    case Union(f, rest) =>
      if k in GroupsIn(f) { t := Without(f, i, k, m); } else { t := WithoutAny(rest, i, k, m); }
    case Star(d) =>
      var a := Without(d, i, k, m);
      t := Pass(i, i, a);
    case Some1(d) =>
      var a := Without(d, i, k, m);
      t := Pass(i, i, a);
    case Opt(d) => t := Without(d, i, k, m);
    case Group(n, d) =>
      if k == e {
        var a := Avoiding(d, i, m);
        t := Node(n, i, i, a);
      } else {
        Among(d, k);
        var a := Without(d, i, k, m);
        t := Node(n, i, i, a);
      }
  }

  lemma {:induction false} WithoutAny(bs: Branches, i: nat, k: Expr, m: nat) returns (t: Tree)
    requires DistinctAll(bs) && k in GroupsInAll(bs) && m in Numbers(k.e) && m !in Always(k.e)
    ensures ShapedAny(bs, i, i, t) && k.n in Wrote(t) && m !in Wrote(t)
    decreases bs
  {
    hide Numbers;
    if k in GroupsIn(bs.e) { t := Without(bs.e, i, k, m); } else { t := WithoutAny(bs.rest, i, k, m); }
  }

  // ----- two copies -----

  /** However a text is divided between two copies of a group, what is recorded lies within what is recorded
      around it. */
  ghost predicate NeverCross(g: Expr) {
    forall i: nat, j: nat, t: Tree, pm: seq<Span> ::
      Shaped(Cat(g, g), i, j, t) && Unset(pm, Numbers(g)) ==> Ringed(GroupsIn(g), Write(t, pm))
  }

  /** That is so if and only if everything in the group takes part whenever it does, and likewise for the groups
      inside. */
  lemma {:induction false} NeverCrossIffSteady(g: Expr)
    requires g.Group? && Distinct(g)
    ensures NeverCross(g) <==> Steady(g)
  {
    hide Shaped, Numbers, GroupsIn, Ringed, Steady;
    if Steady(g) {
      CopiesAreOrderly(g);
      forall i: nat, j: nat, t: Tree, pm: seq<Span> | Shaped(Cat(g, g), i, j, t) && Unset(pm, Numbers(g))
        ensures Ringed(GroupsIn(g), Write(t, pm))
      {
        OrderlyIsRinged(Cat(g, g), i, j, t, pm);
      }
    } else {
      var pm, t := Crosses(g);
    }
  }

  lemma {:induction false} CopiesAreOrderly(g: Expr)
    requires g.Group? && Distinct(g) && Steady(g)
    ensures Orderly(Cat(g, g)) && Numbers(Cat(g, g)) == Numbers(g) && GroupsIn(Cat(g, g)) == GroupsIn(g)
  {
    hide Numbers, GroupsIn, Steady;
    DistinctIsOrderly(g);
    SameTwice(g);
  }

  lemma {:induction false} SameTwice(g: Expr)
    ensures Numbers(Cat(g, g)) == Numbers(g) && GroupsIn(Cat(g, g)) == GroupsIn(g)
  {
  }

  /** The first copy records a group, the second one around it without it. */
  lemma {:induction false} Crosses(g: Expr) returns (pm: seq<Span>, t: Tree)
    requires g.Group? && Distinct(g) && !Steady(g)
    ensures Shaped(Cat(g, g), 0, 1, t) && Unset(pm, Numbers(g)) && !Ringed(GroupsIn(g), Write(t, pm))
  {
    hide Numbers, GroupsIn, Ringed;
    var k :| k in GroupsIn(g) && !(Numbers(k.e) <= Always(k.e));
    var m :| m in Numbers(k.e) && m !in Always(k.e);
    NumbersAre(k.e, m);
    var h :| h in GroupsIn(k.e) && h.n == m;
    GroupsAround(g, k);
    var size := Above(Numbers(g));
    pm := seq(size, _ => UNSET);
    Among(g, k);
    Among(g, h);
    var a := Reaching(g, 0, 1, h, pm);
    var p1 := Write(a, pm);
    var b := Without(g, 1, k, m);
    t := Both(1, a, b);
    NotWritten(b, p1, m);
    DistinctIsOrderly(g);
    OrderlyIsAlike(g);
    WrittenWhere(g, g, 1, 1, b, p1, k);
    NotInside(g, k, h, Write(t, pm));
  }

  lemma {:induction false} NotInside(g: Expr, k: Expr, h: Expr, out: seq<Span>)
    requires k in GroupsIn(g) && h in GroupsIn(k.e) && k.n < |out| && h.n < |out|
    requires out[k.n].so == 1 && out[h.n].so == 0
    ensures !Ringed(GroupsIn(g), out)
  {
    hide GroupsIn;
    assert !Inside(out, k, h);
  }

  lemma {:induction false} Above(s: set<nat>) returns (n: nat)
    ensures forall k :: k in s ==> k < n
  {
    n := 0;
    if s != {} {
      var k :| k in s;
      n := Above(s - {k});
      forall q | q in s
        ensures q < n || q <= k
      {
        assert q == k || q in s - {k};
      }
      if n <= k { n := k + 1; }
    }
  }
}
