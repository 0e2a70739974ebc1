/** The zero-order basis of the perturbation theory (lib/RSPT/RSPT.py): the
    depth-first enumerator of vibrational states whose harmonic energy does
    not exceed a ceiling, and the column labels of the table built from it. */
module Rspt {

  /** One emitted row `(*memo, E)`: the quantum numbers v1..vM and the
      zero-order energy. */
  datatype State = State(quanta: seq<nat>, energy: real)

  /** Every normal frequency is a positive whole number of some common unit
      of energy. With a zero or negative frequency the enumerator's second
      branch recurses without end. */
  predicate Positive(freqs: seq<int>) {
    forall k :: 0 <= k < |freqs| ==> freqs[k] > 0
  }

  /** `[0] * m`. */
  function Zeros(m: nat): seq<nat> {
    seq(m, _ => 0)
  }

  /** Python's `sum(freqs)`. */
  function Sum(xs: seq<int>): int {
    if |xs| == 0 then 0 else xs[0] + Sum(xs[1..])
  }

  /** The harmonic energy Σ freqs[k] * (q[k] + 1/2) of the state q. */
  function ZeroOrderEnergy(freqs: seq<int>, q: seq<nat>): real
    requires |q| == |freqs|
  {
    if |freqs| == 0 then 0.0
    else freqs[0] as real * (q[0] as real + 0.5) + ZeroOrderEnergy(freqs[1..], q[1..])
  }

  /** Σ_{k >= n} freqs[k] * q[k]: the energy the quanta of modes n.. add. */
  function Excitation(freqs: seq<int>, q: seq<nat>, n: nat): real
    requires |q| == |freqs|
    decreases |freqs| - n
  {
    if n >= |freqs| then 0.0 else freqs[n] as real * q[n] as real + Excitation(freqs, q, n + 1)
  }

  /*
   * Termination of the enumerator.
   */

  /** How many more quanta can still fit below the ceiling: a bound on the
      depth of the enumerator's second branch, since every frequency is a
      positive whole number of units. */
  function Budget(E: real, Emax: real): nat {
    if E > Emax then 0 else (Emax - E).Floor + 1
  }

  /** Adding a quantum of any mode spends at least one unit of budget. */
  lemma BudgetDecreases(E: real, Emax: real, f: int)
    requires f > 0 && E <= Emax
    ensures Budget(E + f as real, Emax) < Budget(E, Emax)
  {
  }

  /*
   * What the enumerator emits.
   */

  /** The rows `gen_zero_approximation(E, Emax, freqs, memo, n)` yields,
      when memo holds the quantum numbers on entry: at a leaf the snapshot
      of memo; below the ceiling first everything with mode n left as it
      is, then everything with one more quantum in mode n; above it
      nothing. */
  function Yielded(E: real, Emax: real, freqs: seq<int>, memo: seq<nat>, n: nat): seq<State>
    requires Positive(freqs) && |memo| == |freqs|
    decreases Budget(E, Emax), |freqs| - n
  {
    if n >= |freqs| then [State(memo, E)]
    else if E <= Emax then
      BudgetDecreases(E, Emax, freqs[n]);
      Yielded(E, Emax, freqs, memo, n + 1)
        + Yielded(E + freqs[n] as real, Emax, freqs, memo[n := memo[n] + 1], n)
    else []
  }

  /** s is a row the call at mode n may emit: it keeps the entry prefix
      memo[..n], has at least memo[k] quanta in every later mode k, its
      energy is E plus what the extra quanta add, and below the leaf that
      energy is within the ceiling. */
  predicate Admissible(s: State, E: real, Emax: real, freqs: seq<int>, memo: seq<nat>, n: nat)
    requires |memo| == |freqs|
  {
    && |s.quanta| == |freqs|
    && (forall k :: 0 <= k < |freqs| && k < n ==> s.quanta[k] == memo[k])
    && (forall k :: n <= k < |freqs| ==> s.quanta[k] >= memo[k])
    && s.energy == E + Excitation(freqs, s.quanta, n) - Excitation(freqs, memo, n)
    && (n < |freqs| ==> s.energy <= Emax)
  }

  /** a comes strictly before b in lexicographic order: they agree up to
      some mode k, where a has fewer quanta. */
  predicate LexLess(a: seq<nat>, b: seq<nat>) {
    exists k :: 0 <= k < |a| && k < |b| && a[k] < b[k] && forall j :: 0 <= j < k ==> a[j] == b[j]
  }

  /** The rows come in strictly ascending lexicographic order. */
  predicate Ascending(rows: seq<State>) {
    forall i, j :: 0 <= i < j < |rows| ==> LexLess(rows[i].quanta, rows[j].quanta)
  }

  /** Every row of the first sequence comes before every row of the second. */
  predicate Precedes(first: seq<State>, second: seq<State>) {
    forall a, b :: a in first && b in second ==> LexLess(a.quanta, b.quanta)
  }

  lemma {:induction false} ExcitationFrame(freqs: seq<int>, a: seq<nat>, b: seq<nat>, n: nat)
    requires |a| == |freqs| && |b| == |freqs|
    requires forall k :: n <= k < |freqs| ==> a[k] == b[k]
    ensures Excitation(freqs, a, n) == Excitation(freqs, b, n)
    decreases |freqs| - n
  {
    if n < |freqs| {
      ExcitationFrame(freqs, a, b, n + 1);
    }
  }

  lemma {:induction false} ExcitationMonotone(freqs: seq<int>, a: seq<nat>, b: seq<nat>, n: nat)
    requires Positive(freqs) && |a| == |freqs| && |b| == |freqs|
    requires forall k :: n <= k < |freqs| ==> a[k] >= b[k]
    ensures Excitation(freqs, a, n) >= Excitation(freqs, b, n)
    decreases |freqs| - n
  {
    if n < |freqs| {
      ExcitationMonotone(freqs, a, b, n + 1);
      var f, x, y := freqs[n] as real, a[n] as real, b[n] as real;
      assert f * x - f * y == f * (x - y);
      assert f * (x - y) >= 0.0;
    }
  }

  /** One more quantum in mode n adds freqs[n] to the excitation. */
  lemma ExcitationBump(freqs: seq<int>, memo: seq<nat>, n: nat)
    requires |memo| == |freqs| && n < |freqs|
    ensures Excitation(freqs, memo[n := memo[n] + 1], n) == Excitation(freqs, memo, n) + freqs[n] as real
  {
    ExcitationFrame(freqs, memo[n := memo[n] + 1], memo, n + 1);
  }

  /** Soundness: every row emitted is admissible; in particular it keeps
      the entry prefix and is within the ceiling. */
  lemma {:induction false} YieldedSound(E: real, Emax: real, freqs: seq<int>, memo: seq<nat>, n: nat)
    requires Positive(freqs) && |memo| == |freqs|
    ensures forall s :: s in Yielded(E, Emax, freqs, memo, n) ==> Admissible(s, E, Emax, freqs, memo, n)
    decreases Budget(E, Emax), |freqs| - n
  {
    if n < |freqs| && E <= Emax {
      var f, memo' := freqs[n], memo[n := memo[n] + 1];
      BudgetDecreases(E, Emax, freqs[n]);
      YieldedSound(E, Emax, freqs, memo, n + 1);
      YieldedSound(E + f as real, Emax, freqs, memo', n);
      ExcitationBump(freqs, memo, n);
      forall s | s in Yielded(E, Emax, freqs, memo, n + 1)
        ensures Admissible(s, E, Emax, freqs, memo, n)
      {
        assert s.quanta[n] == memo[n];
      }
    }
  }

  /** A state still reachable at mode n means the running energy is within
      the ceiling. */
  lemma AdmissibleBelowCeiling(s: State, E: real, Emax: real, freqs: seq<int>, memo: seq<nat>, n: nat)
    requires Positive(freqs) && |memo| == |freqs| && n < |freqs|
    requires Admissible(s, E, Emax, freqs, memo, n)
    ensures E <= Emax
  {
    ExcitationMonotone(freqs, s.quanta, memo, n);
  }

  /** A state with as many mode-n quanta as memo is reached by the first
      branch. */
  lemma AdmissibleKeep(s: State, E: real, Emax: real, freqs: seq<int>, memo: seq<nat>, n: nat)
    requires |memo| == |freqs| && n < |freqs|
    requires Admissible(s, E, Emax, freqs, memo, n) && s.quanta[n] == memo[n]
    ensures Admissible(s, E, Emax, freqs, memo, n + 1)
  {
  }

  /** A state with more mode-n quanta than memo is reached by the second
      branch. */
  lemma AdmissibleBump(s: State, E: real, Emax: real, freqs: seq<int>, memo: seq<nat>, n: nat)
    requires |memo| == |freqs| && n < |freqs|
    requires Admissible(s, E, Emax, freqs, memo, n) && s.quanta[n] != memo[n]
    ensures Admissible(s, E + freqs[n] as real, Emax, freqs, memo[n := memo[n] + 1], n)
  {
    ExcitationBump(freqs, memo, n);
  }

  /** Completeness: every admissible row is emitted. */
  lemma {:induction false} YieldedComplete(E: real, Emax: real, freqs: seq<int>, memo: seq<nat>, n: nat, s: State)
    requires Positive(freqs) && |memo| == |freqs|
    requires Admissible(s, E, Emax, freqs, memo, n)
    ensures s in Yielded(E, Emax, freqs, memo, n)
    decreases Budget(E, Emax), |freqs| - n
  {
    if n >= |freqs| {
      assert s.quanta == memo;
    } else {
      AdmissibleBelowCeiling(s, E, Emax, freqs, memo, n);
      BudgetDecreases(E, Emax, freqs[n]);
      var memo' := memo[n := memo[n] + 1];
      var first := Yielded(E, Emax, freqs, memo, n + 1);
      var second := Yielded(E + freqs[n] as real, Emax, freqs, memo', n);
      assert Yielded(E, Emax, freqs, memo, n) == first + second;
      if s.quanta[n] == memo[n] {
        AdmissibleKeep(s, E, Emax, freqs, memo, n);
        YieldedComplete(E, Emax, freqs, memo, n + 1, s);
      } else {
        AdmissibleBump(s, E, Emax, freqs, memo, n);
        YieldedComplete(E + freqs[n] as real, Emax, freqs, memo', n, s);
      }
    }
  }


  /** Ascending sequences whose every row of the first comes before every
      row of the second concatenate to an ascending sequence. */
  lemma ConcatAscending(first: seq<State>, second: seq<State>)
    requires Ascending(first) && Ascending(second)
    requires Precedes(first, second)
    ensures Ascending(first + second)
  {
    var rows := first + second;
    forall i, j | 0 <= i < j < |rows|
      ensures LexLess(rows[i].quanta, rows[j].quanta)
    {
      if j < |first| {
        assert rows[i] == first[i] && rows[j] == first[j];
      } else if i >= |first| {
        assert rows[i] == second[i - |first|] && rows[j] == second[j - |first|];
      } else {
        assert rows[i] in first && rows[j] == second[j - |first|];
      }
    }
  }

  /** A row of the first branch at mode n (mode n left as it is) comes
      before a row of the second (one more quantum in mode n). */
  lemma BranchOrder(E: real, Emax: real, freqs: seq<int>, memo: seq<nat>, n: nat, a: State, b: State)
    requires |memo| == |freqs| && n < |freqs|
    requires Admissible(a, E, Emax, freqs, memo, n + 1)
    requires Admissible(b, E + freqs[n] as real, Emax, freqs, memo[n := memo[n] + 1], n)
    ensures LexLess(a.quanta, b.quanta)
  {
    assert a.quanta[n] < b.quanta[n] && forall k :: 0 <= k < n ==> a.quanta[k] == b.quanta[k];
  }

  /** Every row of mode n's first branch comes before every row of its
      second. */
  lemma BranchesOrdered(E: real, Emax: real, freqs: seq<int>, memo: seq<nat>, n: nat)
    requires Positive(freqs) && |memo| == |freqs| && n < |freqs|
    ensures Precedes(Yielded(E, Emax, freqs, memo, n + 1),
                     Yielded(E + freqs[n] as real, Emax, freqs, memo[n := memo[n] + 1], n))
  {
    var memo' := memo[n := memo[n] + 1];
    YieldedSound(E, Emax, freqs, memo, n + 1);
    YieldedSound(E + freqs[n] as real, Emax, freqs, memo', n);
    forall a, b |
      a in Yielded(E, Emax, freqs, memo, n + 1) &&
      b in Yielded(E + freqs[n] as real, Emax, freqs, memo', n)
      ensures LexLess(a.quanta, b.quanta)
    {
      BranchOrder(E, Emax, freqs, memo, n, a, b);
    }
  }

  /** Order: the rows come out strictly ascending, so no row is emitted
      twice; mode n's first branch runs before its increment. */
  lemma {:induction false} YieldedAscending(E: real, Emax: real, freqs: seq<int>, memo: seq<nat>, n: nat)
    requires Positive(freqs) && |memo| == |freqs|
    ensures Ascending(Yielded(E, Emax, freqs, memo, n))
    decreases Budget(E, Emax), |freqs| - n
  {
    if n < |freqs| && E <= Emax {
      var memo' := memo[n := memo[n] + 1];
      BudgetDecreases(E, Emax, freqs[n]);
      var first := Yielded(E, Emax, freqs, memo, n + 1);
      var second := Yielded(E + freqs[n] as real, Emax, freqs, memo', n);
      assert Yielded(E, Emax, freqs, memo, n) == first + second;
      YieldedAscending(E, Emax, freqs, memo, n + 1);
      YieldedAscending(E + freqs[n] as real, Emax, freqs, memo', n);
      BranchesOrdered(E, Emax, freqs, memo, n);
      ConcatAscending(first, second);
    }
  }

  /** The example's mode 1 (frequency 2) under each value of mode 0. */
  lemma TwoModeLastMode()
    ensures Yielded(0.0, 2.0, [1, 2], [0, 0], 1) == [State([0, 0], 0.0), State([0, 1], 2.0)]
    ensures Yielded(1.0, 2.0, [1, 2], [1, 0], 1) == [State([1, 0], 1.0)]
    ensures Yielded(2.0, 2.0, [1, 2], [2, 0], 1) == [State([2, 0], 2.0)]
  {
    var f := [1, 2];
    assert [0, 0][1 := 1] == [0, 1] && [0, 1][1 := 2] == [0, 2];
    assert Yielded(0.0, 2.0, f, [0, 0], 1) == [State([0, 0], 0.0), State([0, 1], 2.0)];
    assert [1, 0][1 := 1] == [1, 1];
    assert [2, 0][1 := 1] == [2, 1];
  }

  /** Strictly ascending rows never repeat a tuple of quantum numbers. */
  lemma AscendingDistinct(rows: seq<State>)
    requires Ascending(rows)
    ensures forall i, j :: 0 <= i < j < |rows| ==> rows[i].quanta != rows[j].quanta
  {
    forall i, j | 0 <= i < j < |rows|
      ensures rows[i].quanta != rows[j].quanta
    {
      assert LexLess(rows[i].quanta, rows[j].quanta);
    }
  }

  /** Two modes of frequencies 1 and 2 under the ceiling 2, from energy 0:
      mode 1 is exhausted before mode 0 gets its first quantum, so the rows
      are (0,0), (0,1), (1,0), (2,0) with energies 0, 2, 1, 2. */
  lemma TwoModeExample()
    ensures Yielded(0.0, 2.0, [1, 2], [0, 0], 0)
      == [State([0, 0], 0.0), State([0, 1], 2.0), State([1, 0], 1.0), State([2, 0], 2.0)]
  {
    var f := [1, 2];
    TwoModeLastMode();
    // mode 0 (frequency 1)
    assert [0, 0][0 := 1] == [1, 0] && [1, 0][0 := 2] == [2, 0] && [2, 0][0 := 3] == [3, 0];
    assert Yielded(2.0, 2.0, f, [2, 0], 0) == [State([2, 0], 2.0)];
    assert Yielded(1.0, 2.0, f, [1, 0], 0) == [State([1, 0], 1.0), State([2, 0], 2.0)];
  }

  /*
   * The enumerator on its shared buffer.
   */

  /** gen_zero_approximation(E, Emax, freqs, memo, n): the depth-first
      enumerator, with memo the one buffer all recursive calls share. It
      returns the rows it yields, and leaves memo[n..] all zero with the
      prefix memo[..n] as it found it. */
  method GenZeroApproximation(E: real, Emax: real, freqs: seq<int>, memo: array<nat>, n: nat)
    returns (yielded: seq<State>)
    requires Positive(freqs) && memo.Length == |freqs|
    requires forall k :: n < k < |freqs| ==> memo[k] == 0
    modifies memo
    ensures yielded == Yielded(E, Emax, freqs, old(memo[..]), n)
    ensures forall k :: 0 <= k < |freqs| && k < n ==> memo[k] == old(memo[k])
    ensures forall k :: n <= k < |freqs| ==> memo[k] == 0
    decreases Budget(E, Emax), |freqs| - n
  {
    ghost var entry := memo[..];
    if n >= |freqs| {
      yielded := [State(memo[..], E)];
    } else if E <= Emax {
      BudgetDecreases(E, Emax, freqs[n]);
      var first := GenZeroApproximation(E, Emax, freqs, memo, n + 1);
      memo[n] := memo[n] + 1;
      ghost var bumped := entry[n := entry[n] + 1];
      assert memo[..] == bumped by {
        assert forall k :: 0 <= k < |freqs| ==> memo[k] == bumped[k];
      }
      var second := GenZeroApproximation(E + freqs[n] as real, Emax, freqs, memo, n);
      yielded := first + second;
    } else {
      memo[n] := 0;
      yielded := [];
    }
  }

  /*
   * zero_approximation: labels and rows of the zero-order table.
   */

  /** Python's `str(k)` for a natural number k. */
  function DecimalString(k: nat): string
    decreases k
  {
    if k < 10 then [DigitChar(k)] else DecimalString(k / 10) + [DigitChar(k % 10)]
  }

  function DigitChar(d: nat): char
    requires d < 10
  {
    "0123456789"[d]
  }

  /** The value of a string of decimal digits (what `int(s)` computes). */
  function ParseDecimal(s: string): nat
    decreases |s|
  {
    if |s| == 0 then 0 else 10 * ParseDecimal(s[..|s| - 1]) + DigitValue(s[|s| - 1])
  }

  function DigitValue(c: char): nat {
    if '0' <= c <= '9' then (c - '0') as nat else 0
  }

  /** Reading back the decimal string of k gives k: distinct mode numbers
      get distinct labels. */
  lemma {:induction false} DecimalRoundTrip(k: nat)
    ensures ParseDecimal(DecimalString(k)) == k
    ensures |DecimalString(k)| > 0
    decreases k
  {
    if k >= 10 {
      DecimalRoundTrip(k / 10);
      var s := DecimalString(k / 10);
      assert (s + [DigitChar(k % 10)])[..|s|] == s;
    }
  }

  /** The harmonic energy of a row is half the frequency sum plus its
      excitation: the caller's initial energy `sum(freqs) / 2` makes every
      emitted energy Σ freqs[k] * (v_k + 1/2). */
  lemma {:induction false} EnergyFromHalfSum(freqs: seq<int>, q: seq<nat>, n: nat)
    requires |q| == |freqs| && n <= |freqs|
    ensures Sum(freqs[n..]) as real / 2.0 + Excitation(freqs, q, n) == ZeroOrderEnergy(freqs[n..], q[n..])
    decreases |freqs| - n
  {
    if n < |freqs| {
      EnergyFromHalfSum(freqs, q, n + 1);
      assert freqs[n..][1..] == freqs[n + 1..];
      assert q[n..][1..] == q[n + 1..];
    }
  }

  lemma {:induction false} ExcitationOfZeros(freqs: seq<int>, n: nat)
    ensures Excitation(freqs, Zeros(|freqs|), n) == 0.0
    decreases |freqs| - n
  {
    if n < |freqs| {
      ExcitationOfZeros(freqs, n + 1);
    }
  }

  /** zero_approximation(Emax, freqs): the column labels v1..vM, E and the
      rows the enumerator yields from `sum(freqs) / 2` with all quantum
      numbers zero. The rows are exactly the states with M natural quantum
      numbers whose harmonic energy is within the ceiling (with no modes,
      the single empty state), in strictly ascending order. */
  method ZeroApproximation(Emax: real, freqs: seq<int>) returns (labels: seq<string>, states: seq<State>)
    requires Positive(freqs)
    ensures |labels| == |freqs| + 1 && labels[|freqs|] == "E"
    ensures forall i :: 0 <= i < |freqs| ==> labels[i] == "v" + DecimalString(i + 1)
    ensures forall i, j :: 0 <= i < j < |labels| ==> labels[i] != labels[j]
    ensures forall s :: s in states <==>
      && |s.quanta| == |freqs|
      && s.energy == ZeroOrderEnergy(freqs, s.quanta)
      && (|freqs| > 0 ==> s.energy <= Emax)
    ensures Ascending(states)
    ensures forall i, j :: 0 <= i < j < |states| ==> states[i].quanta != states[j].quanta
    ensures |freqs| > 0 && Sum(freqs) as real / 2.0 > Emax ==> states == []
  {
    labels := [];
    var i := 0;
    while i < |freqs|
      invariant 0 <= i <= |freqs| && |labels| == i
      invariant forall j :: 0 <= j < i ==> labels[j] == "v" + DecimalString(j + 1)
    {
      labels := labels + ["v" + DecimalString(i + 1)];
      i := i + 1;
    }
    labels := labels + ["E"];
    LabelsDistinct(labels, |freqs|);

    var memo := new nat[|freqs|](_ => 0);
    assert memo[..] == Zeros(|freqs|);
    var E0 := Sum(freqs) as real / 2.0;
    states := GenZeroApproximation(E0, Emax, freqs, memo, 0);

    ZeroStates(Emax, freqs);
    YieldedAscending(E0, Emax, freqs, Zeros(|freqs|), 0);
    AscendingDistinct(states);
  }

  /** From `sum(freqs) / 2` and all quantum numbers zero, the enumerator
      yields exactly the states with M natural quantum numbers whose
      harmonic energy is within the ceiling (with no modes, the single
      empty state). */
  lemma ZeroStates(Emax: real, freqs: seq<int>)
    requires Positive(freqs)
    ensures forall s :: s in Yielded(Sum(freqs) as real / 2.0, Emax, freqs, Zeros(|freqs|), 0) <==>
      && |s.quanta| == |freqs|
      && s.energy == ZeroOrderEnergy(freqs, s.quanta)
      && (|freqs| > 0 ==> s.energy <= Emax)
  {
    var E0, zeros := Sum(freqs) as real / 2.0, Zeros(|freqs|);
    ExcitationOfZeros(freqs, 0);
    YieldedSound(E0, Emax, freqs, zeros, 0);
    forall s: State | |s.quanta| == |freqs|
      ensures Admissible(s, E0, Emax, freqs, zeros, 0) <==>
        s.energy == ZeroOrderEnergy(freqs, s.quanta) && (|freqs| > 0 ==> s.energy <= Emax)
    {
      EnergyFromHalfSum(freqs, s.quanta, 0);
      assert freqs[0..] == freqs && s.quanta[0..] == s.quanta;
    }
    forall s: State | |s.quanta| == |freqs| && Admissible(s, E0, Emax, freqs, zeros, 0)
      ensures s in Yielded(E0, Emax, freqs, zeros, 0)
    {
      YieldedComplete(E0, Emax, freqs, zeros, 0, s);
    }
  }

  /** The labels v1..vM, E are pairwise distinct. */
  lemma LabelsDistinct(labels: seq<string>, m: nat)
    requires |labels| == m + 1 && labels[m] == "E"
    requires forall i :: 0 <= i < m ==> labels[i] == "v" + DecimalString(i + 1)
    ensures forall i, j :: 0 <= i < j < |labels| ==> labels[i] != labels[j]
  {
    forall i, j | 0 <= i < j < |labels|
      ensures labels[i] != labels[j]
    {
      assert labels[i][0] == 'v';
      if j < m {
        var a, b := DecimalString(i + 1), DecimalString(j + 1);
        DecimalRoundTrip(i + 1);
        DecimalRoundTrip(j + 1);
        assert labels[i][1..] == a && labels[j][1..] == b;
      } else {
        assert labels[j][0] == 'E';
      }
    }
  }
}
