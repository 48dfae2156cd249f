/** Where the pages of a hash index are (include/access/hash.h, lines 46-56 and 109-131), and how
    the table grows without moving any of them (src/backend/access/hash/hashovfl.c and
    hashpage.c). Buckets come in generations that double the table; the overflow pages added
    while generation S is the last one stand between its last bucket and the next generation. */
module HashAddr {
  import opened Strip

  const NCACHED: nat := 32
  const SPLITMASK: nat := 0x7FF
  const TWO_TO_THE_32: nat := 0x1_0000_0000

  function Pow2(n: nat): (p: nat)
    ensures p > 0
  {
    if n == 0 then 1 else 2 * Pow2(n - 1)
  }

  /** A result cut to 32 bits. */
  function U32(n: int): nat { n % TWO_TO_THE_32 }

  // ----- overflow page addresses: 5 bits of split number, 11 bits of offset -----

  function SplitNum(n: nat): nat { n / (SPLITMASK + 1) }

  function OPageNum(n: nat): nat { n % (SPLITMASK + 1) }

  function OAddrOf(s: nat, o: nat): (a: nat)
    ensures a < 0x1_0000
  {
    U32(U32(s * (SPLITMASK + 1)) + o) % 0x1_0000
  }

  /** Addresses go round through 16 bits exactly when the split number has 5 bits and the offset
      has 11. */
  lemma {:induction false} OAddrRoundTrip(s: nat, o: nat)
    ensures (SplitNum(OAddrOf(s, o)) == s && OPageNum(OAddrOf(s, o)) == o) <==> s < NCACHED && o <= SPLITMASK
  {
    if s < NCACHED && o <= SPLITMASK {
      assert OAddrOf(s, o) == s * 2048 + o;
    } else {
      var a := OAddrOf(s, o);
      assert a < 0x1_0000;
      assert SplitNum(a) < 32 && OPageNum(a) < 2048;
    }
  }

  // ----- _hash_log2 -----

  lemma {:induction false} Pow2Grows(i: nat, j: nat)
    requires i <= j
    ensures Pow2(i) <= Pow2(j) && (i < j ==> 2 * Pow2(i) <= Pow2(j))
    decreases j
  {
    if i < j { Pow2Grows(i, j - 1); }
  }

  /** The least i with 2^i >= num. */
  function Log2(num: nat): (i: nat)
    ensures num <= Pow2(i) && (i > 0 ==> Pow2(i - 1) < num)
  {
    if num <= 1 then 0 else 1 + Log2((num + 1) / 2)
  }

  lemma {:induction false} Log2Is(num: nat, i: nat)
    requires num <= Pow2(i) && (i > 0 ==> Pow2(i - 1) < num)
    ensures Log2(num) == i
  {
    var k := Log2(num);
    if k < i { Pow2Grows(k, i - 1); }
    if i < k { Pow2Grows(i, k - 1); }
  }

  /** _hash_log2. Beyond 2^31 the 32-bit limit would become 0 and the loop would not end. */
  method HashLog2(num: nat) returns (i: nat)
    requires num <= 0x8000_0000
    ensures i == Log2(num)
  {
    i := 0;
    var limit: nat := 1;
    while limit < num
      invariant limit == Pow2(i) && (i > 0 ==> Pow2(i - 1) < num)
      decreases num - limit
    {
      limit := U32(limit * 2);
      i := i + 1;
    }
    Log2Is(num, i);
  }

  // ----- block numbers -----

  type Spares = s: seq<nat> | |s| == NCACHED witness seq(NCACHED, _ => 0)

  /** BUCKET_TO_BLKNO */
  function BucketToBlkno(sp: Spares, b: nat): nat
    requires Log2(b + 1) <= NCACHED
  {
    U32(b + (if b != 0 then Before(sp, b) else 0) + 1)
  }

  function Before(sp: Spares, b: nat): nat
    requires b > 0 && Log2(b + 1) <= NCACHED
  {
    assert Log2(b + 1) > 0;
    sp[Log2(b + 1) - 1]
  }

  /** OADDR_TO_BLKNO, of an address with these parts. */
  function OvflToBlkno(sp: Spares, s: nat, o: nat): nat
    requires s < NCACHED
  {
    LastBucket(s);
    U32(BucketToBlkno(sp, Pow2(s) - 1) + o)
  }

  function OAddrToBlkno(sp: Spares, a: nat): nat
    requires a < 0x1_0000
  {
    OvflToBlkno(sp, SplitNum(a), OPageNum(a))
  }

  /** The macro, given an address that was put together from two parts that fit, finds the block of
      those parts. */
  lemma {:induction false} BlockOfAddress(sp: Spares, s: nat, o: nat)
    requires s < NCACHED && o <= SPLITMASK
    ensures OAddrToBlkno(sp, OAddrOf(s, o)) == OvflToBlkno(sp, s, o)
  {
    hide OvflToBlkno, OAddrOf;
    OAddrRoundTrip(s, o);
  }

  lemma {:induction false} LastBucket(s: nat)
    ensures Log2(Pow2(s) - 1 + 1) == s
  {
    if s > 0 { assert Pow2(s) == 2 * Pow2(s - 1); }
    Log2Is(Pow2(s), s);
  }

  /** The generation of a bucket. */
  lemma {:induction false} Generation(b: nat, g: nat)
    requires b > 0 && g > 0 && Pow2(g - 1) <= b < Pow2(g)
    ensures Log2(b + 1) == g
  {
    Log2Is(b + 1, g);
  }

  // ----- the pages of a table -----

  /** What the meta page says about the layout: SPARES, OVFL_POINT and MAX_BUCKET. */
  datatype Meta = Meta(sp: Spares, ovfl: nat, maxbucket: nat)

  datatype Page = BucketPage(b: nat) | OvflPage(s: nat, o: nat)

  /** SPARES up to the split number before `s`. */
  function Base(sp: Spares, s: nat): nat
    requires s <= NCACHED
  {
    if s == 0 then 0 else sp[s - 1]
  }

  predicate Cumulative(sp: Spares, top: nat)
    requires top < NCACHED
  {
    forall i, j :: 0 <= i <= j <= top ==> sp[i] <= sp[j]
  }

  /** SPARES is cumulative, every split has room in 11 bits, the buckets there are belong to the
      generations so far, and all block numbers fit. */
  predicate Sound(m: Meta) {
    m.ovfl < NCACHED && Cumulative(m.sp, m.ovfl) && m.maxbucket < Pow2(m.ovfl)
    && (forall s :: 0 <= s <= m.ovfl ==> m.sp[s] - Base(m.sp, s) <= SPLITMASK)
    && Pow2(m.ovfl) + m.sp[m.ovfl] < TWO_TO_THE_32
  }

  /** The pages there is a place for: the buckets of the generations so far, in use or not yet, and
      the overflow pages handed out. */
  predicate Has(m: Meta, p: Page)
    requires m.ovfl < NCACHED
  {
    match p
    case BucketPage(b) => b < Pow2(m.ovfl)
    case OvflPage(s, o) => s <= m.ovfl && 1 <= o && Base(m.sp, s) + o <= m.sp[s]
  }

  function Block(m: Meta, p: Page): nat
    requires Sound(m) && Has(m, p)
  {
    match p
    case BucketPage(b) => BucketFits(m, b); BucketToBlkno(m.sp, b)
    case OvflPage(s, o) => OvflToBlkno(m.sp, s, o)
  }

  lemma {:induction false} BucketFits(m: Meta, b: nat)
    requires m.ovfl < NCACHED && b < Pow2(m.ovfl)
    ensures Log2(b + 1) <= m.ovfl
  {
    if Log2(b + 1) > m.ovfl {
      Pow2Grows(m.ovfl, Log2(b + 1) - 1);
    }
  }

  /** How many blocks there are up to the end of split `s`, the meta page not counted. */
  function Total(sp: Spares, s: nat): nat
    requires s < NCACHED
  {
    Pow2(s) + sp[s]
  }

  /** Which page is on block `n`: the last split, the generation before it, or further back. */
  function PageAt(sp: Spares, s: nat, n: nat): Page
    requires s < NCACHED && Cumulative(sp, s) && 1 <= n <= Total(sp, s)
    decreases s
  {
    if n > Pow2(s) + Base(sp, s) then OvflPage(s, n - Pow2(s) - Base(sp, s))
    else if s == 0 then BucketPage(0)
    else if n > Total(sp, s - 1) then BucketPage(n - 1 - sp[s - 1])
    else PageAt(sp, s - 1, n)
  }

  lemma {:induction false} Small(n: nat)
    requires n < TWO_TO_THE_32
    ensures U32(n) == n
  {
  }

  lemma {:induction false} Half(s: nat)
    requires s > 0
    ensures Pow2(s) == 2 * Pow2(s - 1)
  {
  }

  lemma {:induction false} UpToLast(m: Meta, s: nat)
    requires Sound(m) && s <= m.ovfl
    ensures m.ovfl < NCACHED && m.maxbucket < Pow2(m.ovfl)
    ensures Base(m.sp, s) <= m.sp[s] <= m.sp[m.ovfl] && Pow2(s) + m.sp[s] < TWO_TO_THE_32
  {
    hide Pow2;
    Pow2Grows(s, m.ovfl);
  }

  lemma {:induction false} BucketBlock(m: Meta, b: nat, g: nat)
    requires Sound(m) && 0 < g <= m.ovfl && Pow2(g - 1) <= b < Pow2(g)
    ensures Has(m, BucketPage(b)) && Block(m, BucketPage(b)) == b + m.sp[g - 1] + 1
  {
    hide Pow2, U32, Log2, Sound;
    UpToLast(m, g);
    Generation(b, g);
    Pow2Grows(g, m.ovfl);
    BucketFits(m, b);
    Small(b + m.sp[g - 1] + 1);
  }

  lemma {:induction false} OvflBlock(m: Meta, s: nat, o: nat)
    requires Sound(m) && Has(m, OvflPage(s, o))
    ensures Block(m, OvflPage(s, o)) == Pow2(s) + Base(m.sp, s) + o
  {
    hide Pow2, U32, Log2, Sound;
    LastBucket(s);
    UpToLast(m, s);
    var b := Pow2(s) - 1;
    if s > 0 { Half(s); } else { assert Pow2(0) == 1 by { PowZero(); } }
    assert b == 0 <==> s == 0;
    Small(b + Base(m.sp, s) + 1);
    Small(Pow2(s) + Base(m.sp, s) + o);
  }

  lemma {:induction false} PowZero()
    ensures Pow2(0) == 1
  {
  }

  lemma {:induction false} CumulativeTo(m: Meta, s: nat)
    requires Sound(m) && s <= m.ovfl
    ensures Cumulative(m.sp, s)
  {
  }

  lemma {:induction false} BucketZero(m: Meta)
    requires Sound(m)
    ensures Has(m, BucketPage(0)) && Block(m, BucketPage(0)) == 1
  {
  }

  /** Every block from 1 up holds a page that has a place there. */
  lemma {:induction false} PageAtHas(m: Meta, s: nat, n: nat)
    requires Sound(m) && s <= m.ovfl && 1 <= n <= Total(m.sp, s)
    ensures var p := PageAt(m.sp, s, n); Has(m, p) && Block(m, p) == n
    decreases s
  {
    hide Pow2, U32, Log2, Sound, Block;
    UpToLast(m, s);
    CumulativeTo(m, s);
    if s > 0 { Half(s); CumulativeTo(m, s - 1); }
    if n > Pow2(s) + Base(m.sp, s) {
      OvflBlock(m, s, n - Pow2(s) - Base(m.sp, s));
    } else if s == 0 {
      PowZero();
      BucketZero(m);
    } else if n > Total(m.sp, s - 1) {
      BucketBlock(m, n - 1 - m.sp[s - 1], s);
    } else {
      PageAtHas(m, s - 1, n);
    }
  }

  /** And a page is the only one on its block, which is never block 0, the meta page's. */
  lemma {:induction false} BlockHasPage(m: Meta, p: Page, s: nat)
    requires Sound(m) && Has(m, p) && s <= m.ovfl
    requires match p case BucketPage(b) => b < Pow2(s) case OvflPage(t, _) => t <= s
    ensures 1 <= Block(m, p) <= Total(m.sp, s) && PageAt(m.sp, s, Block(m, p)) == p
    decreases s
  {
    hide Pow2, U32, Log2, Sound, Block;
    UpToLast(m, s);
    CumulativeTo(m, s);
    if s > 0 { Half(s); UpToLast(m, s - 1); }
    match p
    case BucketPage(b) =>
      if s == 0 {
        PowZero();
        BucketZero(m);
      } else if b >= Pow2(s - 1) {
        BucketBlock(m, b, s);
      } else {
        BlockHasPage(m, p, s - 1);
      }
    case OvflPage(t, o) =>
      if t == s {
        OvflBlock(m, s, o);
      } else {
        BlockHasPage(m, p, s - 1);
      }
  }

  ghost predicate Used(m: Meta, n: nat)
    requires Sound(m)
  {
    exists p :: Has(m, p) && Block(m, p) == n
  }

  /** Pages and the blocks from 1 to the last go together one to one, without gaps. */
  lemma {:induction false} OneToOne(m: Meta)
    requires Sound(m)
    ensures forall p :: Has(m, p) ==> 1 <= Block(m, p) <= Total(m.sp, m.ovfl)
    ensures forall p, q :: Has(m, p) && Has(m, q) && Block(m, p) == Block(m, q) ==> p == q
    ensures forall n: nat :: 1 <= n <= Total(m.sp, m.ovfl) ==> Used(m, n)
  {
    hide Block, PageAt, Pow2;
    forall p | Has(m, p)
      ensures 1 <= Block(m, p) <= Total(m.sp, m.ovfl) && PageAt(m.sp, m.ovfl, Block(m, p)) == p
    {
      InLastGeneration(m, p);
      BlockHasPage(m, p, m.ovfl);
    }
    forall n: nat | 1 <= n <= Total(m.sp, m.ovfl)
      ensures Used(m, n)
    {
      PageAtHas(m, m.ovfl, n);
    }
  }

  lemma {:induction false} InLastGeneration(m: Meta, p: Page)
    requires m.ovfl < NCACHED && Has(m, p)
    ensures match p case BucketPage(b) => b < Pow2(m.ovfl) case OvflPage(t, _) => t <= m.ovfl
  {
  }

  // ----- growing -----

  /** One more overflow page in the last split. */
  function Added(m: Meta): Meta
    requires m.ovfl < NCACHED
  {
    m.(sp := m.sp[m.ovfl := m.sp[m.ovfl] + 1])
  }

  /** One more bucket; when it starts a generation, the next split opens. */
  function Expanded(m: Meta): Meta
    requires m.ovfl < NCACHED - 1 || m.maxbucket + 1 < Pow2(m.ovfl)
  {
    var mb := m.maxbucket + 1;
    if mb < Pow2(m.ovfl) then m.(maxbucket := mb)
    else Meta(m.sp[m.ovfl + 1 := m.sp[m.ovfl]], m.ovfl + 1, mb)
  }

  /** `n` is a sound table in which every page of `m` stands where it stood. */
  ghost predicate Keeps(m: Meta, n: Meta)
    requires Sound(m)
  {
    Sound(n) && forall p :: Has(m, p) ==> Has(n, p) && Block(n, p) == Block(m, p)
  }

  lemma {:induction false} SameBlock(m: Meta, n: Meta, p: Page)
    requires Sound(m) && Sound(n) && Has(m, p) && m.ovfl <= n.ovfl
    requires forall i :: 0 <= i < m.ovfl ==> n.sp[i] == m.sp[i]
    requires m.sp[m.ovfl] <= n.sp[m.ovfl]
    ensures Has(n, p) && Block(n, p) == Block(m, p)
  {
    hide Pow2, U32, Log2, Sound, Cumulative;
    UpToLast(m, 0);
    UpToLast(n, 0);
    Pow2Grows(m.ovfl, n.ovfl);
    PowZero();
    match p
    case BucketPage(b) =>
      BucketFits(m, b);
      BucketFits(n, b);
      if b > 0 { assert Log2(b + 1) > 0; }
    case OvflPage(s, o) =>
      LastBucket(s);
      if s > 0 { Half(s); }
  }

  /** Adding an overflow page to the last split moves no page, as long as the split has room. */
  lemma {:induction false} AddKeeps(m: Meta)
    requires Sound(m) && m.sp[m.ovfl] + 1 - Base(m.sp, m.ovfl) <= SPLITMASK && Total(m.sp, m.ovfl) + 1 < TWO_TO_THE_32
    ensures Keeps(m, Added(m))
    ensures var p := OvflPage(m.ovfl, m.sp[m.ovfl] + 1 - Base(m.sp, m.ovfl));
            !Has(m, p) && Has(Added(m), p) && Block(Added(m), p) == Total(m.sp, m.ovfl) + 1
  {
    hide Pow2, Has, Block;
    var n := Added(m);
    var o := m.sp[m.ovfl] + 1 - Base(m.sp, m.ovfl);
    assert Sound(n);
    forall p | Has(m, p)
      ensures Has(n, p) && Block(n, p) == Block(m, p)
    {
      SameBlock(m, n, p);
    }
    NewOvfl(m, m.ovfl, o);
    NewOvfl(n, m.ovfl, o);
    OvflBlock(n, m.ovfl, o);
  }

  lemma {:induction false} NewOvfl(m: Meta, s: nat, o: nat)
    requires m.ovfl < NCACHED && s == m.ovfl && o >= 1
    ensures Has(m, OvflPage(s, o)) <==> Base(m.sp, s) + o <= m.sp[s]
  {
  }

  /** The next bucket is of this generation, or there is a split number for the next one and its blocks have
      numbers. */
  predicate BucketRoom(m: Meta)
    requires Sound(m)
  {
    m.maxbucket + 1 < Pow2(m.ovfl) || (m.ovfl < NCACHED - 1 && 2 * Pow2(m.ovfl) + m.sp[m.ovfl] < TWO_TO_THE_32)
  }

  /** Nor does adding a bucket. */
  lemma {:induction false} ExpandKeeps(m: Meta)
    requires Sound(m) && BucketRoom(m)
    ensures Keeps(m, Expanded(m)) && Expanded(m).maxbucket == m.maxbucket + 1
    ensures Has(Expanded(m), BucketPage(m.maxbucket + 1))
  {
    ExpandedIsSound(m);
    var n := Expanded(m);
    hide Has, Block, Sound, BucketRoom, Pow2;
    forall p | Has(m, p)
      ensures Has(n, p) && Block(n, p) == Block(m, p)
    {
      SameBlock(m, n, p);
    }
    NewBucket(n, n.maxbucket);
  }

  lemma {:induction false} ExpandedIsSound(m: Meta)
    requires Sound(m) && BucketRoom(m)
    ensures var n := Expanded(m);
            Sound(n) && n.maxbucket == m.maxbucket + 1 && m.ovfl <= n.ovfl
            && (forall i :: 0 <= i < m.ovfl ==> n.sp[i] == m.sp[i]) && m.sp[m.ovfl] <= n.sp[m.ovfl]
            && n.ovfl < NCACHED && n.maxbucket < Pow2(n.ovfl)
  {
    if m.ovfl < NCACHED - 1 { Half(m.ovfl + 1); }
    hide Pow2;
  }

  lemma {:induction false} NewBucket(m: Meta, b: nat)
    requires m.ovfl < NCACHED && b < Pow2(m.ovfl)
    ensures Has(m, BucketPage(b))
  {
  }

  /** A table whose count of pages was just raised, with the offset `o` for the new page: past the
      end of its split, the page goes to the next, as offset 0, and so does the count. */
  function Rolled(m: Meta, o: nat): Option<(Meta, nat, nat)>
    requires m.ovfl < NCACHED && m.sp[m.ovfl] > 0
  {
    if o <= SPLITMASK then Some((m, m.ovfl, o))
    else if m.ovfl + 1 >= NCACHED then None
    else
      var sp := m.sp[m.ovfl := m.sp[m.ovfl] - 1][m.ovfl + 1 := m.sp[m.ovfl]];
      Some((Meta(sp, m.ovfl + 1, m.maxbucket), m.ovfl + 1, 0))
  }

  // ----- the code that grows a table -----

  class MetaPage {
    var spares: array<nat>
    var ovflPoint: nat
    var maxBucket: nat
    var lastFreed: nat

    /** The layout of a new index (hashpage.c, lines 112-128). */
    constructor ()
      ensures Valid() && Sound(View()) && View() == Meta(seq(NCACHED, i => if i == 1 || i == 2 then 2 else 0), 1, 1)
      ensures lastFreed == 2
    {
      spares := new nat[NCACHED](i => if i == 1 || i == 2 then 2 else 0);
      ovflPoint, maxBucket, lastFreed := 1, 1, 2;
      new;
      assert spares[..] == seq(NCACHED, i => if i == 1 || i == 2 then 2 else 0);
    }

    ghost predicate Valid()
      reads this
    {
      spares.Length == NCACHED && ovflPoint < NCACHED
    }

    ghost function View(): Meta
      reads this, spares
      requires Valid()
    {
      Meta(spares[..], ovflPoint, maxBucket)
    }

    /** An offset past the end of its split opens the next one (hashovfl.c, lines 164-172); false
        where there are no more splits. */
    method Roll(splitnum0: nat, offset0: nat) returns (ok: bool, splitnum: nat, offset: nat)
      requires Valid() && splitnum0 == ovflPoint && spares[ovflPoint] > 0
      modifies this`ovflPoint, spares
      ensures Valid() && spares == old(spares)
      ensures Rolled(old(View()), offset0) == if ok then Some((View(), splitnum, offset)) else None
      ensures !ok ==> View() == old(View())
    {
      ghost var m := View();
      splitnum, offset, ok := splitnum0, offset0, true;
      if offset > SPLITMASK {
        splitnum := splitnum + 1;
        if splitnum >= NCACHED {
          return false, splitnum, offset;
        }
        ovflPoint := splitnum;
        spares[splitnum] := spares[splitnum - 1];
        spares[splitnum - 1] := spares[splitnum - 1] - 1;
        offset := 0;
        assert spares[..] == m.sp[m.ovfl := m.sp[m.ovfl] - 1][m.ovfl + 1 := m.sp[m.ovfl]];
      }
    }

    /** Make room for one more overflow page when no free one is found (hashovfl.c, lines 156-216):
        its split number and offset, or None when there are no more splits or bitmaps. When the
        last bitmap is full (`mapFull`), a page is taken for a new one first, unless all there can
        be are in use (`noMap`). */
    method NewPage(mapFull: bool, noMap: bool) returns (r: Option<(nat, nat)>)
      requires Valid() && Sound(View())
      modifies this, spares
      ensures Valid() && spares == old(spares) && lastFreed == old(spares[ovflPoint])
      ensures !old(CanRoll(View())) || (mapFull && noMap) ==> r == None
      ensures r.Some? ==> r.value.0 == ovflPoint && r.value.1 <= SPLITMASK
      ensures var m := old(View());
              var one := Rolled(Added(m), m.sp[m.ovfl] + 1 - Base(m.sp, m.ovfl));
              if one.None? then r == None && View() == Added(m)
              else if !mapFull then r == Some((one.value.1, one.value.2)) && View() == one.value.0
              else if noMap then r == None && View() == one.value.0
              else
                var two := Rolled(Added(one.value.0), one.value.2 + 1);
                if two.None? then r == None && View() == Added(one.value.0)
                else r == Some((two.value.1, two.value.2)) && View() == two.value.0
    {
      ghost var m := View();
      var splitnum := ovflPoint;
      lastFreed := spares[splitnum];
      spares[splitnum] := spares[splitnum] + 1;
      var offset: nat := spares[splitnum] - (if splitnum != 0 then spares[splitnum - 1] else 0);
      assert View() == Added(m);
      var ok;
      ok, splitnum, offset := Roll(splitnum, offset);
      if !ok {
        return None;
      }
      if mapFull {
        if noMap {
          return None;
        }
        ghost var m1 := View();
        spares[splitnum] := spares[splitnum] + 1;
        offset := offset + 1;
        assert View() == Added(m1);
        ok, splitnum, offset := Roll(splitnum, offset);
        if !ok {
          return None;
        }
      }
      r := Some((splitnum, offset));
    }

    /** Add a bucket (hashpage.c, lines 399-415). */
    method ExpandTable()
      requires Valid() && Sound(View()) && BucketRoom(View())
      modifies this, spares
      ensures Valid() && spares == old(spares) && View() == Expanded(old(View()))
    {
      ghost var m := View();
      BucketNumbers(m);
      maxBucket := maxBucket + 1;
      SpareNdx(m);
      var spareNdx := HashLog2(maxBucket + 1);
      if spareNdx > ovflPoint {
        assert m.ovfl < NCACHED - 1;
        spares[spareNdx] := spares[ovflPoint];
        ovflPoint := spareNdx;
        assert spares[..] == m.sp[m.ovfl + 1 := m.sp[m.ovfl]];
      }
    }

    /** The split number and offset of the page that bit number `bit` of the bitmaps stands for
        (hashovfl.c, lines 244-249); None where the original gives up, which it does too early:
        the last page of a full split cannot be had again. */
    method PageOfBit(bit: nat) returns (r: Option<(nat, nat)>)
      requires Valid() && Sound(View()) && 1 <= bit <= spares[ovflPoint]
      ensures r.Some? ==> Has(View(), OvflPage(r.value.0, r.value.1)) && BitOf(View().sp, r.value.0, r.value.1) == bit
      ensures r.None? <==> LastOfFull(View(), bit)
    {
      hide Pow2;
      var i := 0;
      while i < ovflPoint && bit > spares[i]
        invariant 0 <= i <= ovflPoint && (i > 0 ==> spares[i - 1] < bit)
      {
        i := i + 1;
      }
      ghost var m := View();
      assert m.sp[i] == spares[i] && (i > 0 ==> m.sp[i - 1] == spares[i - 1]);
      var offset := if i != 0 then bit - spares[i - 1] else bit;
      InSplit(m, bit, i);
      if offset >= SPLITMASK {
        return None;
      }
      r := Some((i, offset));
    }
  }

  /** The last page of a split that is full. */
  predicate LastOfFull(m: Meta, bit: nat)
    requires m.ovfl < NCACHED
  {
    exists s :: 0 <= s <= m.ovfl && m.sp[s] == bit && FullAt(m, s)
  }

  predicate FullAt(m: Meta, s: nat)
    requires s < NCACHED
  {
    m.sp[s] == Base(m.sp, s) + SPLITMASK
  }

  lemma {:induction false} InSplit(m: Meta, bit: nat, i: nat)
    requires Sound(m) && i <= m.ovfl && Base(m.sp, i) < bit <= m.sp[i]
    ensures bit - Base(m.sp, i) <= SPLITMASK
    ensures LastOfFull(m, bit) <==> bit - Base(m.sp, i) == SPLITMASK
  {
    hide Pow2;
    if bit - Base(m.sp, i) == SPLITMASK {
      assert FullAt(m, i);
    }
    if LastOfFull(m, bit) {
      var s :| 0 <= s <= m.ovfl && m.sp[s] == bit && FullAt(m, s);
      SplitsFollow(m, s, i);
      SplitsFollow(m, i, s);
    }
  }

  lemma {:induction false} SplitsFollow(m: Meta, s: nat, t: nat)
    requires Sound(m) && s <= m.ovfl && t <= m.ovfl
    ensures s < t ==> m.sp[s] <= Base(m.sp, t)
  {
    hide Pow2;
  }

  /** The number, from 1, of an overflow page among them all: the bit that _hash_freeovflpage
      clears for it, plus one (hashovfl.c, lines 356-358). */
  function BitOf(sp: Spares, s: nat, o: nat): nat
    requires s <= NCACHED
  {
    Base(sp, s) + o
  }

  lemma {:induction false} BucketNumbers(m: Meta)
    requires Sound(m) && BucketRoom(m)
    ensures m.maxbucket + 2 <= 0x8000_0000
    ensures m.maxbucket + 1 < Pow2(m.ovfl) || m.ovfl < NCACHED - 1
  {
    if m.maxbucket + 1 < Pow2(m.ovfl) {
      LastPower();
      Pow2Grows(m.ovfl, 31);
    }
  }

  lemma {:induction false} LastPower()
    ensures Pow2(31) == 0x8000_0000
  {
    assert Pow2(1) == 2 && Pow2(2) == 4 && Pow2(3) == 8;
    assert Pow2(4) == 16 && Pow2(5) == 32 && Pow2(6) == 64 && Pow2(7) == 128;
    PowSum(7, 7);
    PowSum(14, 14);
    PowSum(28, 3);
  }

  lemma {:induction false} PowSum(i: nat, j: nat)
    ensures Pow2(i + j) == Pow2(i) * Pow2(j)
  {
    if j > 0 {
      PowSum(i, j - 1);
      assert Pow2(i + j) == 2 * Pow2(i + (j - 1));
    }
  }

  lemma {:induction false} SpareNdx(m: Meta)
    requires Sound(m)
    ensures var k := Log2(m.maxbucket + 2);
            if m.maxbucket + 1 < Pow2(m.ovfl) then k <= m.ovfl else k == m.ovfl + 1
  {
    Half(m.ovfl + 1);
    if m.maxbucket + 1 < Pow2(m.ovfl) {
      BucketFits(m, m.maxbucket + 1);
    } else {
      Log2Is(m.maxbucket + 2, m.ovfl + 1);
    }
  }

  /** The bits follow the pages, so different pages have different bits. */
  lemma {:induction false} BitsFollow(m: Meta, s: nat, o: nat, t: nat, u: nat)
    requires Sound(m) && Has(m, OvflPage(s, o)) && Has(m, OvflPage(t, u))
    ensures BitOf(m.sp, s, o) < BitOf(m.sp, t, u) <==> s < t || (s == t && o < u)
  {
    hide Pow2;
    SplitsFollow(m, s, t);
    SplitsFollow(m, t, s);
  }

  // ----- a full split -----

  /** The page that NewPage names is on the block of some bucket. */
  ghost predicate OnBucket(m: Meta, s: nat, o: nat)
    requires Sound(m) && s < NCACHED
  {
    exists b :: Has(m, BucketPage(b)) && Block(m, BucketPage(b)) == OvflToBlkno(m.sp, s, o)
  }

  /** The offset of the next overflow page in the last split. */
  function NextOffset(m: Meta): nat
    requires Sound(m)
  {
    assert m.sp[m.ovfl] >= Base(m.sp, m.ovfl) by { UpToLast(m, m.ovfl); }
    m.sp[m.ovfl] + 1 - Base(m.sp, m.ovfl)
  }

  /** The last split has room, or another can be opened. */
  predicate CanRoll(m: Meta)
    requires Sound(m)
  {
    NextOffset(m) <= SPLITMASK || m.ovfl < NCACHED - 1
  }

  /** And there is a number for the block. */
  predicate OvflRoom(m: Meta)
    requires Sound(m)
  {
    if NextOffset(m) <= SPLITMASK then Total(m.sp, m.ovfl) + 1 < TWO_TO_THE_32
    else m.ovfl < NCACHED - 1 && 2 * Pow2(m.ovfl) + m.sp[m.ovfl] + 1 < TWO_TO_THE_32
  }

  /** The table after NewPage, and the page it names. */
  function Allotted(m: Meta): (r: (Meta, nat, nat))
    requires Sound(m) && CanRoll(m)
  {
    var o := NextOffset(m);
    if o <= SPLITMASK then (Added(m), m.ovfl, o)
    else (Meta(m.sp[m.ovfl + 1 := m.sp[m.ovfl] + 1], m.ovfl + 1, m.maxbucket), m.ovfl + 1, 0)
  }

  lemma {:induction false} RollAllots(m: Meta)
    requires Sound(m) && CanRoll(m)
    ensures Rolled(Added(m), NextOffset(m)) == Some(Allotted(m))
  {
    hide Pow2;
    if NextOffset(m) > SPLITMASK {
      var sp := Added(m).sp;
      assert sp[m.ovfl := sp[m.ovfl] - 1][m.ovfl + 1 := sp[m.ovfl]] == m.sp[m.ovfl + 1 := m.sp[m.ovfl] + 1];
    }
  }

  /** What NewPage does to the table is one such step, or two if it takes a page for a bitmap. Then
      the page it names is that of the second step, unless the first opened a split: the one it
      names there is not the second to be counted but the first. */
  lemma {:induction false} NewPageAllots(m: Meta)
    requires Sound(m) && OvflRoom(m)
    ensures var one := Allotted(m);
            Rolled(Added(m), NextOffset(m)) == Some(one) && Sound(one.0)
            && (one.2 > 0 && CanRoll(one.0) ==> Rolled(Added(one.0), one.2 + 1) == Some(Allotted(one.0)))
            && (one.2 == 0 ==> Rolled(Added(one.0), one.2 + 1) == Some((Added(one.0), one.1, 1)))
  {
    hide Pow2, Sound, Rolled;
    UpToLast(m, m.ovfl);
    RollAllots(m);
    AllotKeeps(m);
    var one := Allotted(m);
    if one.2 == 0 {
      RollSmall(Added(one.0), 1);
    } else if CanRoll(one.0) {
      RollAllots(one.0);
    }
  }

  lemma {:induction false} RollSmall(m: Meta, o: nat)
    requires m.ovfl < NCACHED && m.sp[m.ovfl] > 0 && o <= SPLITMASK
    ensures Rolled(m, o) == Some((m, m.ovfl, o))
  {
  }

  /** When a split is full, the next one is opened and offset 0 is handed out in it, which is no
      overflow page: it is the block of the last bucket of the generation that is to come. A page
      of its own is named exactly when the split had room. */
  lemma {:induction false} OwnBlockIffRoom(m: Meta)
    requires Sound(m) && OvflRoom(m)
    ensures var r := Allotted(m);
            Sound(r.0) && (!OnBucket(r.0, r.1, r.2) <==> m.sp[m.ovfl] - Base(m.sp, m.ovfl) < SPLITMASK)
  {
    hide Has, Block, Pow2, Sound;
    var r := Allotted(m);
    UpToLast(m, m.ovfl);
    if r.2 > 0 {
      RoomForOne(m);
    } else {
      SplitOpens(m);
      FullSplit(r.0);
    }
  }

  lemma {:induction false} SplitOpens(m: Meta)
    requires Sound(m) && m.ovfl < NCACHED - 1 && 2 * Pow2(m.ovfl) + m.sp[m.ovfl] + 1 < TWO_TO_THE_32
    ensures Sound(Meta(m.sp[m.ovfl + 1 := m.sp[m.ovfl] + 1], m.ovfl + 1, m.maxbucket))
  {
    Half(m.ovfl + 1);
    hide Pow2;
  }

  /** An overflow page moves no page either, whether the split has room or is full. */
  lemma {:induction false} AllotKeeps(m: Meta)
    requires Sound(m) && OvflRoom(m)
    ensures Keeps(m, Allotted(m).0)
  {
    hide Has, Block, Pow2, Sound;
    UpToLast(m, m.ovfl);
    if Allotted(m).2 > 0 {
      AddKeeps(m);
    } else {
      SplitOpens(m);
      forall p | Has(m, p)
        ensures Has(Allotted(m).0, p) && Block(Allotted(m).0, p) == Block(m, p)
      {
        SameBlock(m, Allotted(m).0, p);
      }
    }
  }

  lemma {:induction false} RoomForOne(m: Meta)
    requires Sound(m) && OvflRoom(m) && NextOffset(m) <= SPLITMASK
    ensures Sound(Added(m)) && !OnBucket(Added(m), m.ovfl, NextOffset(m))
  {
    hide Pow2, Has, Block, Sound;
    UpToLast(m, m.ovfl);
    var o := NextOffset(m);
    AddKeeps(m);
    OneToOne(Added(m));
    SameAddress(Added(m), m.ovfl, o);
  }

  lemma {:induction false} SameAddress(m: Meta, s: nat, o: nat)
    requires Sound(m) && Has(m, OvflPage(s, o))
    ensures Block(m, OvflPage(s, o)) == OvflToBlkno(m.sp, s, o)
  {
  }

  lemma {:induction false} FullSplit(m: Meta)
    requires Sound(m) && m.ovfl > 0
    ensures OnBucket(m, m.ovfl, 0)
  {
    hide Pow2, Log2, Sound;
    UpToLast(m, m.ovfl);
    Half(m.ovfl);
    LastBucket(m.ovfl);
    var b := Pow2(m.ovfl) - 1;
    BucketFits(m, b);
    NewBucket(m, b);
    assert Block(m, BucketPage(b)) == OvflToBlkno(m.sp, m.ovfl, 0);
  }

  // ----- whole runs -----

  datatype Step = AddOvfl | AddBucket

  function Next(m: Meta, step: Step): Meta
    requires Room(m, step)
  {
    if step.AddOvfl? then Allotted(m).0 else Expanded(m)
  }

  /** If a split has to be opened, there is a number for it, and block numbers fit in 32 bits. */
  predicate Room(m: Meta, step: Step) {
    Sound(m) && if step.AddOvfl? then OvflRoom(m) else BucketRoom(m)
  }

  predicate Fits(m: Meta, steps: seq<Step>)
    decreases |steps|
  {
    steps == [] || (Room(m, steps[0]) && Fits(Next(m, steps[0]), steps[1..]))
  }

  function After(m: Meta, steps: seq<Step>): Meta
    requires Fits(m, steps)
    decreases |steps|
  {
    if steps == [] then m else After(Next(m, steps[0]), steps[1..])
  }

  /** However a table grows, by overflow pages in a split with room, by opening the next split when
      one is full, or by buckets, no page that was ever given a block moves. */
  lemma {:induction false} NothingEverMoves(m: Meta, steps: seq<Step>)
    requires Sound(m) && Fits(m, steps)
    ensures Keeps(m, After(m, steps))
    decreases |steps|
  {
    hide Sound, Has, Block, Total;
    if steps != [] {
      var n := Next(m, steps[0]);
      StepKeeps(m, steps[0]);
      NothingEverMoves(n, steps[1..]);
    }
  }

  lemma {:induction false} StepKeeps(m: Meta, step: Step)
    requires Room(m, step)
    ensures Keeps(m, Next(m, step))
  {
    if step.AddOvfl? { AllotKeeps(m); } else { ExpandKeeps(m); }
  }
}
