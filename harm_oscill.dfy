/** Matrix-element weights of the one-dimensional harmonic oscillator
    (lib/RSPT/harm_oscill.py): the closed forms per order n and quantum-number
    difference dv, the generator that emits them block by block, and the
    dictionary that tabulates them by (n, dv, v). */
module HarmOscill {

  /** A weight kept symbolic so that the arithmetic stays exact: either a
      polynomial value, or `coef * radicand ** 0.5`. */
  datatype Weight =
    | Exact(value: real)
    | Surd(coef: real, radicand: real)

  /** The weight is a real number: it takes no square root of a negative
      number (Python's `** 0.5` would silently give a complex value). */
  predicate IsReal(w: Weight) {
    w.Exact? || w.radicand >= 0.0
  }

  /** The weight denotes exactly zero. */
  predicate IsZero(w: Weight) {
    match w
    case Exact(x) => x == 0.0
    case Surd(c, r) => c == 0.0 || r == 0.0
  }

  /** x (x - 1) ... (x - k + 1), the falling factorial: apart from
      v / 2, 2v and 2v^3, every radicand of the source is such a product or
      twice one. */
  function Falling(x: real, k: nat): real
    decreases k
  {
    if k == 0 then 1.0 else x * Falling(x - 1.0, k - 1)
  }

  /** `dv in range(n % 2, n + 1, 2)`: the differences tabulated for order n. */
  predicate InDvRange(n: int, dv: int) {
    0 <= dv <= n && dv % 2 == n % 2
  }

  /** The (n, dv) pairs whose matrix element is not identically zero and for
      which a closed form exists. */
  predicate HasClosedForm(n: int, dv: int) {
    n <= 8 && InDvRange(n, dv)
  }

  /** MatElWeight(n, dv, v): the weight for order n, difference dv and larger
      quantum number v. An order outside 0..8 gives 0; an invalid dv for an
      order in 0..8 falls through to that order's last branch. */
  function MatElWeight(n: int, dv: int, v: int): (r: Weight)
    ensures !(0 <= n <= 8) ==> r == Exact(0.0)
    ensures n == 0 ==> r == Exact(1.0)
    ensures n == 1 ==> r == Surd(1.0, v as real / 2.0)
  {
    var x := v as real;
    if n == 0 then Exact(1.0)
    else if n == 1 then Surd(1.0, x / 2.0)
    else if n == 2 then
      if dv == 0 then Exact(x + 0.5) else Surd(0.5, Falling(x, 2))
    else if n == 3 then
      // 0.75 * 2 ** 0.5 * v ** 1.5, with both roots merged into one
      if dv == 1 then Surd(0.75, 2.0 * x * x * x)
      else Surd(0.25, 2.0 * Falling(x, 3))
    else if n == 4 then
      if dv == 0 then Exact(1.5 * x * x + 1.5 * x + 0.75)
      else if dv == 2 then Surd(x - 0.5, Falling(x, 2))
      else Surd(0.25, Falling(x, 4))
    else if n == 5 then
      if dv == 1 then Surd(1.25 * x * x + 0.625, 2.0 * x)
      else if dv == 3 then Surd(0.625 * x - 0.625, 2.0 * Falling(x, 3))
      else Surd(0.125, 2.0 * Falling(x, 5))
    else if n == 6 then
      if dv == 0 then Exact(0.625 * (2.0 * x + 1.0) * (2.0 * x * x + 2.0 * x + 3.0))
      else if dv == 2 then Surd(1.875 * (x * x - x + 1.0), Falling(x, 2))
      else if dv == 4 then Surd(0.75 * x - 1.125, Falling(x, 4))
      else Surd(0.125, Falling(x, 6))
    else if n == 7 then
      if dv == 1 then Surd(2.1875 * (x * x + 2.0) * x, 2.0 * x)
      else if dv == 3 then Surd(1.3125 * (x * x - 2.0 * x + 2.0), 2.0 * Falling(x, 3))
      else if dv == 5 then
        Surd(0.4375 * (x - 2.0), 2.0 * Falling(x, 5))
      else
        Surd(0.0625, 2.0 * Falling(x, 7))
    else if n == 8 then
      if dv == 0 then Exact(4.375 * (x * x * x * x + 2.0 * x * x * x + 5.0 * x * x + 4.0 * x + 1.5))
      else if dv == 2 then Surd(1.75 * (2.0 * x - 1.0) * (x * x - x + 3.0), Falling(x, 2))
      else if dv == 4 then
        Surd(0.875 * (2.0 * x * x - 6.0 * x + 7.0), Falling(x, 4))
      else if dv == 6 then
        Surd(0.5 * x - 1.25, Falling(x, 6))
      else
        Surd(0.0625, Falling(x, 8))
    else Exact(0.0)
  }

  lemma {:induction false} FallingNonNegative(v: int, k: nat)
    requires v >= 0
    ensures Falling(v as real, k) >= 0.0
  {
    if k > 0 && v > 0 {
      FallingNonNegative(v - 1, k - 1);
      assert (v - 1) as real == v as real - 1.0;
    }
  }

  lemma {:induction false} FallingVanishes(v: int, k: nat)
    requires 0 <= v < k
    ensures Falling(v as real, k) == 0.0
  {
    var x := v as real;
    assert Falling(x, k) == x * Falling(x - 1.0, k - 1);
    if v > 0 {
      FallingVanishes(v - 1, k - 1);
      assert (v - 1) as real == x - 1.0;
    }
  }

  /** For a natural v every radicand is non-negative, whatever n and dv are,
      so every weight is a real number. */
  lemma WeightIsReal(n: int, dv: int, v: int)
    requires v >= 0
    ensures IsReal(MatElWeight(n, dv, v))
  {
    var x := v as real;
    FallingNonNegative(v, 1);
    FallingNonNegative(v, 2);
    FallingNonNegative(v, 3);
    FallingNonNegative(v, 4);
    FallingNonNegative(v, 5);
    FallingNonNegative(v, 6);
    FallingNonNegative(v, 7);
    FallingNonNegative(v, 8);
    assert x * x >= 0.0;
    assert 2.0 * x * x * x >= 0.0;
  }

  /** A step dv >= 1 from a level v < dv leaves the ladder: the weight is
      exactly zero, because a factor under the radical (or in front of it)
      vanishes. */
  lemma WeightVanishesBelowDv(n: int, dv: int, v: int)
    requires HasClosedForm(n, dv) && dv >= 1 && 0 <= v < dv
    ensures IsZero(MatElWeight(n, dv, v))
  {
    var x := v as real;
    if dv == 1 {
      assert v == 0;
    } else {
      FallingVanishes(v, dv);
    }
  }

  /** The diagonal (dv == 0) weights of the even orders are polynomials in v
      that are strictly positive for every natural v. */
  lemma DiagonalWeightPositive(n: int, v: int)
    requires 0 <= n <= 8 && n % 2 == 0 && v >= 0
    ensures MatElWeight(n, 0, v).Exact? && MatElWeight(n, 0, v).value > 0.0
  {
    var x := v as real;
    assert x >= 0.0;
    assert x * x >= 0.0;
    assert x * x * x >= 0.0;
    assert x * x * x * x >= 0.0;
    if n == 6 {
      assert 2.0 * x + 1.0 > 0.0;
      assert 2.0 * x * x + 2.0 * x + 3.0 > 0.0;
    }
  }

  /** Spot values of the table (0.5 * 2 ** 0.5 ~ 0.70710678 for the first). */
  lemma SpotValues()
    ensures MatElWeight(2, 2, 2) == Surd(0.5, 2.0)
    ensures MatElWeight(4, 0, 2) == Exact(9.75)
    ensures MatElWeight(8, 0, 9) == Exact(37019.0625)
  {
  }

  /*
   * The generator MatElWeightGen: 25 blocks, each `for v in range(vmax + 1)`.
   */

  /** len(range(vmax + 1)): how many values each block emits. */
  function VCount(vmax: int): nat {
    if vmax < 0 then 0 else vmax + 1
  }

  /** The formula of the b-th `for v in range(vmax + 1): yield ...` loop of
      the generator, in the order the source writes them. */
  function GenBlock(b: int, v: int): Weight
    requires 0 <= b < 25
  {
    var x := v as real;
    // n = 0
    if b == 0 then Exact(1.0)
    // n = 1
    else if b == 1 then Surd(1.0, x / 2.0)
    // n = 2
    else if b == 2 then Exact(x + 0.5)
    else if b == 3 then Surd(0.5, Falling(x, 2))
    // n = 3
    else if b == 4 then Surd(0.75, 2.0 * x * x * x)
    else if b == 5 then Surd(0.25, 2.0 * Falling(x, 3))
    // n = 4
    else if b == 6 then Exact(1.5 * x * x + 1.5 * x + 0.75)
    else if b == 7 then Surd(x - 0.5, Falling(x, 2))
    else if b == 8 then Surd(0.25, Falling(x, 4))
    // n = 5
    else if b == 9 then Surd(1.25 * x * x + 0.625, 2.0 * x)
    else if b == 10 then Surd(0.625 * x - 0.625, 2.0 * Falling(x, 3))
    else if b == 11 then Surd(0.125, 2.0 * Falling(x, 5))
    // n = 6
    else if b == 12 then Exact(0.625 * (2.0 * x + 1.0) * (2.0 * x * x + 2.0 * x + 3.0))
    else if b == 13 then Surd(1.875 * (x * x - x + 1.0), Falling(x, 2))
    else if b == 14 then Surd(0.75 * x - 1.125, Falling(x, 4))
    else if b == 15 then
      Surd(0.125, Falling(x, 6))
    // n = 7
    else if b == 16 then Surd(2.1875 * (x * x + 2.0) * x, 2.0 * x)
    else if b == 17 then Surd(1.3125 * (x * x - 2.0 * x + 2.0), 2.0 * Falling(x, 3))
    else if b == 18 then
      Surd(0.4375 * (x - 2.0), 2.0 * Falling(x, 5))
    else if b == 19 then
      Surd(0.0625, 2.0 * Falling(x, 7))
    // n = 8
    else if b == 20 then
      Exact(4.375 * (x * x * x * x + 2.0 * x * x * x + 5.0 * x * x + 4.0 * x + 1.5))
    else if b == 21 then Surd(1.75 * (2.0 * x - 1.0) * (x * x - x + 3.0), Falling(x, 2))
    else if b == 22 then
      Surd(0.875 * (2.0 * x * x - 6.0 * x + 7.0), Falling(x, 4))
    else if b == 23 then
      Surd(0.5 * x - 1.25, Falling(x, 6))
    else
      Surd(0.0625, Falling(x, 8))
  }

  /** The offset at which block b starts when every block emits w values:
      w added up b times. */
  function BlockStart(w: nat, b: int): nat
    decreases b
  {
    if b <= 0 then 0 else BlockStart(w, b - 1) + w
  }

  lemma {:induction false} BlockStartIsProduct(w: nat, b: nat)
    ensures BlockStart(w, b) == w * b
  {
    if b > 0 {
      BlockStartIsProduct(w, b - 1);
    }
  }

  lemma {:induction false} BlockStartMonotone(w: nat, a: int, c: int)
    requires a <= c
    ensures BlockStart(w, a) <= BlockStart(w, c)
    decreases c - a
  {
    if a < c {
      BlockStartMonotone(w, a, c - 1);
    }
  }

  /** The values blocks b, b + 1, ..., 24 emit one after the other, when
      each block emits w values and block j's value v is block(j, v). */
  function Blocks(block: (int, int) --> Weight, b: nat, w: nat): (r: seq<Weight>)
    requires b <= 25
    requires forall j, v :: b <= j < 25 ==> block.requires(j, v)
    ensures |r| == BlockStart(w, 25 - b)
    decreases 25 - b
  {
    if b == 25 then [] else Row(block, b, w) + Blocks(block, b + 1, w)
  }

  /** The w values block b emits, `block(b, 0), ..., block(b, w - 1)`. */
  function Row(block: (int, int) --> Weight, b: int, w: nat): (r: seq<Weight>)
    requires forall v :: block.requires(b, v)
    ensures |r| == w
    decreases w
  {
    if w == 0 then [] else Row(block, b, w - 1) + [block(b, w - 1)]
  }

  /** Value v of block b's row is block(b, v). */
  lemma {:induction false} RowAt(block: (int, int) --> Weight, b: int, w: nat, v: int)
    requires forall v' :: block.requires(b, v')
    requires 0 <= v < w
    ensures Row(block, b, w)[v] == block(b, v)
    decreases w
  {
    if v < w - 1 {
      RowAt(block, b, w - 1, v);
    }
  }

  /** MatElWeightGen(vmax), with its values collected into a sequence. */
  function MatElWeightGen(vmax: int): (r: seq<Weight>)
    ensures |r| == 25 * VCount(vmax)
  {
    BlockStartIsProduct(VCount(vmax), 25);
    Blocks(GenBlock, 0, VCount(vmax))
  }

  /** Value v of block j sits at offset BlockStart(w, j - b) + v of the
      values from block b on. */
  lemma {:induction false} BlocksAt(block: (int, int) --> Weight, b: nat, w: nat, j: int, v: int)
    requires b <= j < 25 && 0 <= v < w
    requires forall j', v' :: b <= j' < 25 ==> block.requires(j', v')
    ensures BlockStart(w, j - b) + v < |Blocks(block, b, w)|
    ensures Blocks(block, b, w)[BlockStart(w, j - b) + v] == block(j, v)
    decreases 25 - b
  {
    var head := Row(block, b, w);
    var rest := Blocks(block, b + 1, w);
    assert Blocks(block, b, w) == head + rest;
    if j > b {
      BlocksAt(block, b + 1, w, j, v);
      var p := BlockStart(w, j - (b + 1)) + v;
      assert rest[p] == block(j, v);
      assert BlockStart(w, j - b) + v == w + p;
      assert (head + rest)[w + p] == rest[p];
    } else {
      RowAt(block, b, w, v);
      assert BlockStart(w, j - b) == 0;
      assert (head + rest)[v] == head[v];
    }
  }

  /*
   * Block layout shared by the generator and the dictionary.
   */

  /** Σ_{i < n} (i / 2 + 1): the number of blocks of the orders below n. */
  function BlocksBefore(n: int): nat
    decreases n
  {
    if n <= 0 then 0 else BlocksBefore(n - 1) + (n - 1) / 2 + 1
  }

  /** The generator block that holds the weights of (n, dv). */
  function BlockIndex(n: int, dv: int): int {
    BlocksBefore(n) + dv / 2
  }

  lemma {:induction false} BlocksBeforeMonotone(i: int, j: int)
    requires i <= j
    ensures BlocksBefore(i) <= BlocksBefore(j)
    decreases j - i
  {
    if i < j {
      BlocksBeforeMonotone(i, j - 1);
    }
  }

  /** The tabulated pairs of orders 0..8 lie within blocks 0..24; from
      order 9 on every block index is past the generator's end. */
  lemma BlockIndexRange(n: int, dv: int)
    requires InDvRange(n, dv)
    ensures n <= 8 <==> BlockIndex(n, dv) < 25
  {
    assert BlocksBefore(9) == 25;
    if n <= 8 {
      BlocksBeforeMonotone(n + 1, 9);
      assert BlocksBefore(n + 1) == BlocksBefore(n) + n / 2 + 1;
    } else {
      BlocksBeforeMonotone(9, n);
    }
  }

  /** Every pair (n, dv) of an order n lies before the first block of order
      n + 1. */
  lemma BlockIndexBelowNext(n: int, dv: int)
    requires InDvRange(n, dv)
    ensures BlockIndex(n, dv) < BlocksBefore(n + 1)
  {
    assert BlocksBefore(n + 1) == BlocksBefore(n) + n / 2 + 1;
  }

  /** No two pairs (n, dv) of the dictionary's loops share a block. */
  lemma BlockIndexInjective(n1: int, dv1: int, n2: int, dv2: int)
    requires InDvRange(n1, dv1) && InDvRange(n2, dv2)
    requires BlockIndex(n1, dv1) == BlockIndex(n2, dv2)
    ensures n1 == n2 && dv1 == dv2
  {
    if n1 < n2 {
      BlockIndexBelowNext(n1, dv1);
      BlocksBeforeMonotone(n1 + 1, n2);
    } else if n2 < n1 {
      BlockIndexBelowNext(n2, dv2);
      BlocksBeforeMonotone(n2 + 1, n1);
    }
  }

  /** Every block 0..24 of the generator belongs to a tabulated pair. */
  lemma BlockIndexOnto(b: int)
    requires 0 <= b < 25
    ensures exists n, dv :: HasClosedForm(n, dv) && BlockIndex(n, dv) == b
  {
    assert BlocksBefore(0) == 0 && BlocksBefore(1) == 1 && BlocksBefore(2) == 2;
    assert BlocksBefore(3) == 4 && BlocksBefore(4) == 6 && BlocksBefore(5) == 9;
    assert BlocksBefore(6) == 12 && BlocksBefore(7) == 16 && BlocksBefore(8) == 20;
    var n := if b < 1 then 0 else if b < 2 then 1 else if b < 4 then 2
      else if b < 6 then 3 else if b < 9 then 4 else if b < 12 then 5
      else if b < 16 then 6 else if b < 20 then 7 else 8;
    var dv := 2 * (b - BlocksBefore(n)) + n % 2;
    assert HasClosedForm(n, dv) && BlockIndex(n, dv) == b;
  }

  /** The block the dictionary's loops assign to (n, dv) holds exactly the
      closed form MatElWeight uses for (n, dv). */
  lemma GenBlockIsWeight(n: int, dv: int, v: int)
    requires HasClosedForm(n, dv)
    ensures BlockIndex(n, dv) < 25
    ensures GenBlock(BlockIndex(n, dv), v) == MatElWeight(n, dv, v)
  {
    BlockIndexRange(n, dv);
    assert BlocksBefore(0) == 0 && BlocksBefore(1) == 1 && BlocksBefore(2) == 2;
    assert BlocksBefore(3) == 4 && BlocksBefore(4) == 6 && BlocksBefore(5) == 9;
    assert BlocksBefore(6) == 12 && BlocksBefore(7) == 16 && BlocksBefore(8) == 20;
  }

  /** Value v of the generator's block for (n, dv), at offset
      VCount(vmax) * BlockIndex(n, dv) + v, is MatElWeight(n, dv, v). */
  lemma GenMatchesWeight(vmax: int, n: int, dv: int, v: int)
    requires HasClosedForm(n, dv) && 0 <= v <= vmax
    ensures BlockStart(VCount(vmax), BlockIndex(n, dv)) == VCount(vmax) * BlockIndex(n, dv)
    ensures VCount(vmax) * BlockIndex(n, dv) + v < |MatElWeightGen(vmax)|
    ensures MatElWeightGen(vmax)[VCount(vmax) * BlockIndex(n, dv) + v] == MatElWeight(n, dv, v)
  {
    var b, w := BlockIndex(n, dv), VCount(vmax);
    GenBlockIsWeight(n, dv, v);
    BlocksAt(GenBlock, 0, w, b, v);
    BlockStartIsProduct(w, b);
  }

  /*
   * The dictionary MatElWeightDict.
   */

  type WeightKey = (int, int, int)

  /** Keys (i, dv, v) that the loops of MatElWeightDict(vmax, n) visit. */
  predicate IsDictKey(k: WeightKey, vmax: int, n: int) {
    0 <= k.0 <= n && InDvRange(k.0, k.1) && 0 <= k.2 <= vmax
  }

  /** Key k comes before position (i, dv, v) in the loops' order. */
  predicate Before(k: WeightKey, i: int, dv: int, v: int) {
    k.0 < i || (k.0 == i && (k.1 < dv || (k.1 == dv && k.2 < v)))
  }

  /** Either the finished table, or the StopIteration that `next` raises once
      the generator is exhausted. */
  datatype TableResult =
    | Table(weights: map<WeightKey, Weight>)
    | StopIteration

  /** Every entry of the table is MatElWeight of its key. */
  predicate Tabulates(table: map<WeightKey, Weight>) {
    forall k :: k in table ==> table[k] == MatElWeight(k.0, k.1, k.2)
  }

  /** The keys of the table are exactly the keys the loops of
      MatElWeightDict(vmax, n) visit before position (i, dv, v), and each
      holds its weight. */
  ghost predicate Visited(table: map<WeightKey, Weight>, vmax: int, n: int, i: int, dv: int, v: int) {
    && (forall k :: k in table <==> IsDictKey(k, vmax, n) && Before(k, i, dv, v))
    && Tabulates(table)
  }

  /** The state of MatElWeightDict's loops on reaching position (i, dv, v):
      `next` has been called pos times, once for each key visited so far. */
  ghost predicate Progress(table: map<WeightKey, Weight>, pos: int, vmax: int, n: int, i: int, dv: int, v: int) {
    && pos == BlockStart(VCount(vmax), BlockIndex(i, dv)) + v
    && pos <= BlockStart(VCount(vmax), 25)
    && |table| == pos
    && Visited(table, vmax, n, i, dv, v)
  }

  /** `range(i % 2, i + 1, 2)` starts with the parity of i ... */
  lemma DvRangeStart(i: int)
    ensures (i % 2) % 2 == i % 2
  {
  }

  /** ... keeps it at every step ... */
  lemma DvRangeStep(i: int, dv: int)
    requires dv % 2 == i % 2
    ensures (dv + 2) % 2 == i % 2
  {
  }

  /** ... and, stepping by two, leaves the loop at i + 2. */
  lemma DvRangeExit(i: int, dv: int)
    requires dv % 2 == i % 2 && i + 1 <= dv <= i + 2
    ensures dv == i + 2
  {
  }

  lemma BlockTotals()
    ensures BlocksBefore(9) == 25 && BlocksBefore(10) == 30
  {
    assert BlocksBefore(3) == 4;
    assert BlocksBefore(6) == 12;
  }

  /** The generator runs dry exactly when the loops reach order 9. */
  lemma ExhaustedAtOrder9(table: map<WeightKey, Weight>, pos: int, vmax: int, n: int, i: int, dv: int, v: int)
    requires Progress(table, pos, vmax, n, i, dv, v)
    requires InDvRange(i, dv) && 0 <= v <= vmax
    ensures pos < |MatElWeightGen(vmax)| <==> i <= 8
  {
    var w, b := VCount(vmax), BlockIndex(i, dv);
    BlockStartIsProduct(w, 25);
    BlockIndexRange(i, dv);
    if b < 25 {
      BlockStartMonotone(w, b + 1, 25);
    } else {
      BlockStartMonotone(w, 25, b);
    }
  }

  lemma VisitValue(table: map<WeightKey, Weight>, vmax: int, n: int, i: int, dv: int, v: int, x: Weight)
    requires Visited(table, vmax, n, i, dv, v)
    requires IsDictKey((i, dv, v), vmax, n) && x == MatElWeight(i, dv, v)
    ensures (i, dv, v) !in table
    ensures Visited(table[(i, dv, v) := x], vmax, n, i, dv, v + 1)
  {
  }

  lemma VisitDifference(table: map<WeightKey, Weight>, vmax: int, n: int, i: int, dv: int)
    requires Visited(table, vmax, n, i, dv, VCount(vmax))
    requires dv % 2 == i % 2
    ensures Visited(table, vmax, n, i, dv + 2, 0)
  {
  }

  lemma VisitOrder(table: map<WeightKey, Weight>, vmax: int, n: int, i: int)
    requires Visited(table, vmax, n, i, i + 2, 0)
    ensures Visited(table, vmax, n, i + 1, 0, 0)
  {
  }

  /** Storing next(gen) under key (i, dv, v) moves on to (i, dv, v + 1). */
  lemma StepValue(table: map<WeightKey, Weight>, pos: int, vmax: int, n: int, i: int, dv: int, v: int)
    requires Progress(table, pos, vmax, n, i, dv, v)
    requires IsDictKey((i, dv, v), vmax, n) && i <= 8
    ensures 0 <= pos < |MatElWeightGen(vmax)|
    ensures Progress(table[(i, dv, v) := MatElWeightGen(vmax)[pos]], pos + 1, vmax, n, i, dv, v + 1)
  {
    var w, b, gen := VCount(vmax), BlockIndex(i, dv), MatElWeightGen(vmax);
    GenMatchesWeight(vmax, i, dv, v);
    BlockStartIsProduct(w, 25);
    assert pos == w * b + v && pos < |gen| == BlockStart(w, 25);
    var x := gen[pos];
    assert x == MatElWeight(i, dv, v);
    VisitValue(table, vmax, n, i, dv, v, x);
    var table' := table[(i, dv, v) := x];
    assert |table'| == |table| + 1;
    assert Progress(table', pos + 1, vmax, n, i, dv, v + 1);
  }

  /** Finishing the v loop of difference dv is starting the one of dv + 2. */
  lemma StepDifference(table: map<WeightKey, Weight>, pos: int, vmax: int, n: int, i: int, dv: int)
    requires Progress(table, pos, vmax, n, i, dv, VCount(vmax))
    requires dv % 2 == i % 2 && dv >= 0
    ensures Progress(table, pos, vmax, n, i, dv + 2, 0)
  {
    var b := BlockIndex(i, dv);
    assert BlockIndex(i, dv + 2) == b + 1;
    assert BlockStart(VCount(vmax), b + 1) == BlockStart(VCount(vmax), b) + VCount(vmax);
    VisitDifference(table, vmax, n, i, dv);
  }

  /** Finishing the dv loop of order i is starting the one of order i + 1. */
  lemma StepOrder(table: map<WeightKey, Weight>, pos: int, vmax: int, n: int, i: int)
    requires Progress(table, pos, vmax, n, i, i + 2, 0)
    requires i >= 0
    ensures Progress(table, pos, vmax, n, i + 1, 0, 0)
  {
    assert BlockIndex(i, i + 2) == BlocksBefore(i + 1) == BlockIndex(i + 1, 0);
    VisitOrder(table, vmax, n, i);
  }

  /** Order i's first difference is i % 2: for odd i, position (i, 0, 0) is
      position (i, 1, 0). */
  lemma VisitOdd(table: map<WeightKey, Weight>, pos: int, vmax: int, n: int, i: int)
    requires Progress(table, pos, vmax, n, i, 0, 0)
    ensures Progress(table, pos, vmax, n, i, i % 2, 0)
  {
    assert BlockIndex(i, i % 2) == BlockIndex(i, 0);
    assert forall k :: IsDictKey(k, vmax, n) ==>
      (Before(k, i, 0, 0) <==> Before(k, i, i % 2, 0));
  }

  /** Before the loops run, nothing has been visited or taken. */
  lemma Start(vmax: int, n: int)
    ensures Progress(map[], 0, vmax, n, 0, 0, 0)
  {
    var w, b := VCount(vmax), BlockIndex(0, 0);
    assert b == 0;
    assert BlockStart(w, b) == 0;
    assert Visited(map[], vmax, n, 0, 0, 0);
  }

  lemma Finish(table: map<WeightKey, Weight>, pos: int, vmax: int, n: int, i: int)
    requires Progress(table, pos, vmax, n, i, 0, 0)
    requires 0 <= i && i >= n + 1 && (n >= -1 ==> i == n + 1) && (n < -1 ==> i == 0)
    ensures n <= 8 || vmax < 0
    ensures forall k :: k in table <==> IsDictKey(k, vmax, n)
    ensures |table| == VCount(vmax) * BlocksBefore(n + 1)
    ensures n == 8 ==> |table| == |MatElWeightGen(vmax)|
  {
    var w, b := VCount(vmax), BlocksBefore(i);
    assert BlockIndex(i, 0) == b == BlocksBefore(n + 1);
    assert pos == BlockStart(w, b);
    BlockTotals();
    if i >= 10 {
      // past order 8 the loops would have needed more values than gen holds
      BlocksBeforeMonotone(10, i);
      BlockStartMonotone(w, 26, b);
      assert BlockStart(w, 26) == BlockStart(w, 25) + w;
    }
    BlockStartIsProduct(w, b);
    BlockStartIsProduct(w, 25);
    assert forall k :: IsDictKey(k, vmax, n) ==> (Before(k, i, 0, 0) <==> k.0 < i);
  }

  /** The innermost loop of MatElWeightDict: stores next(gen) under
      (i, dv, v) for v = 0..vmax; stopped reports the StopIteration raised
      when gen is already exhausted. */
  method FillBlock(gen: seq<Weight>, vmax: int, n: int, i: int, dv: int,
                   table: map<WeightKey, Weight>, pos: int)
    returns (table': map<WeightKey, Weight>, pos': int, stopped: bool)
    requires gen == MatElWeightGen(vmax)
    requires 0 <= i <= n && InDvRange(i, dv)
    requires Progress(table, pos, vmax, n, i, dv, 0)
    ensures stopped ==> i >= 9 && vmax >= 0
    ensures !stopped ==> Progress(table', pos', vmax, n, i, dv + 2, 0)
  {
    table', pos' := table, pos;
    var v := 0;
    while v < vmax + 1
      invariant 0 <= v <= VCount(vmax)
      invariant Progress(table', pos', vmax, n, i, dv, v)
    {
      ExhaustedAtOrder9(table', pos', vmax, n, i, dv, v);
      if pos' >= |gen| {
        return table', pos', true;
      }
      StepValue(table', pos', vmax, n, i, dv, v);
      table' := table'[(i, dv, v) := gen[pos']];
      pos' := pos' + 1;
      v := v + 1;
    }
    assert v == VCount(vmax);
    StepDifference(table', pos', vmax, n, i, dv);
    stopped := false;
  }

  /** The middle loop of MatElWeightDict: runs FillBlock for
      dv = i % 2, i % 2 + 2, ..., up to i. */
  method FillOrder(gen: seq<Weight>, vmax: int, n: int, i: int,
                   table: map<WeightKey, Weight>, pos: int)
    returns (table': map<WeightKey, Weight>, pos': int, stopped: bool)
    requires gen == MatElWeightGen(vmax)
    requires 0 <= i <= n
    requires Progress(table, pos, vmax, n, i, 0, 0)
    ensures stopped ==> i >= 9 && vmax >= 0
    ensures !stopped ==> Progress(table', pos', vmax, n, i + 1, 0, 0)
  {
    table', pos' := table, pos;
    var dv := i % 2;
    DvRangeStart(i);
    VisitOdd(table, pos, vmax, n, i);
    while dv < i + 1
      invariant dv % 2 == i % 2
      invariant 0 <= dv <= i + 2
      invariant Progress(table', pos', vmax, n, i, dv, 0)
    {
      table', pos', stopped := FillBlock(gen, vmax, n, i, dv, table', pos');
      if stopped {
        return;
      }
      DvRangeStep(i, dv);
      dv := dv + 2;
    }
    DvRangeExit(i, dv);
    StepOrder(table', pos', vmax, n, i);
    stopped := false;
  }

  /** MatElWeightDict(vmax, n): fills the table in the order i, dv, v while
      taking the generator's values one `next` at a time. */
  method MatElWeightDict(vmax: int, n: int) returns (r: TableResult)
    ensures r.Table? <==> n <= 8 || vmax < 0
    ensures r.Table? ==> forall k :: k in r.weights <==> IsDictKey(k, vmax, n)
    ensures r.Table? ==> forall k :: k in r.weights ==> r.weights[k] == MatElWeight(k.0, k.1, k.2)
    ensures r.Table? ==> |r.weights| == VCount(vmax) * BlocksBefore(n + 1)
    ensures r.Table? && n == 8 ==> |r.weights| == |MatElWeightGen(vmax)|
  {
    var gen := MatElWeightGen(vmax);
    var pos := 0;  // how many values `next` has taken from gen
    var table: map<WeightKey, Weight> := map[];
    var i := 0;
    Start(vmax, n);
    while i < n + 1
      invariant 0 <= i && (n >= -1 ==> i <= n + 1) && (n < -1 ==> i == 0)
      invariant Progress(table, pos, vmax, n, i, 0, 0)
    {
      var stopped;
      table, pos, stopped := FillOrder(gen, vmax, n, i, table, pos);
      if stopped {
        assert !(n <= 8 || vmax < 0);
        r := StopIteration;
        return;
      }
      i := i + 1;
    }
    Finish(table, pos, vmax, n, i);
    r := Table(table);
  }
}
