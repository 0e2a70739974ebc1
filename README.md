# Harmonic-oscillator weights and the zero-order basis, in Dafny

This project models the core of a Rayleigh–Schrödinger perturbation theory
(RSPT) library for molecular vibrational Hamiltonians. There are two modules.

* `HarmOscill` (`harm_oscill.dfy`) models `lib/RSPT/harm_oscill.py`. It covers:
  * the matrix-element "weights" of the one-dimensional harmonic oscillator
    for anharmonic order `n` (0..8), quantum-number difference `dv` and
    larger quantum number `v` (`MatElWeight`);
  * the generator that emits the same weights block by block
    (`MatElWeightGen`);
  * the dictionary that pulls the generator's values one `next` at a time
    into a table keyed by `(n, dv, v)` (`MatElWeightDict`).
* `Rspt` (`rspt.dfy`) models the zero-order basis of `lib/RSPT/RSPT.py`. It covers:
  * the depth-first enumerator `gen_zero_approximation`, which lists every
    vibrational state whose harmonic energy does not exceed a ceiling
    `Emax`, sharing one quantum-number buffer `memo` across all of its
    recursive calls;
  * the column labels `v1 .. vM, E` and the rows that `zero_approximation`
    builds from it.

Weights are kept symbolic so that the arithmetic stays exact. A weight is
either `Exact(x)` or `Surd(c, r)`, where `Surd(c, r)` means `c * r ** 0.5`.
Radicands are written with the falling factorial `Falling(x, k) = x (x-1) … (x-k+1)`.

The generator is modelled as the sequence of all the values it yields.
The dictionary is an imperative method with three nested loops. It keeps
a cursor `pos` into that sequence, standing for the calls to `next`. Once
the generator is exhausted, `next` raises `StopIteration`, which the model
returns as the result `StopIteration`.

The enumerator is a recursive method over an `array<nat>`, the shared
`memo`. It is proved equal to the specification function `Yielded`.
Lemmas about `Yielded` give three properties:
* soundness: every row is admissible;
* completeness: every admissible row is emitted;
* order: rows come out in strictly ascending lexicographic order.

## Model

| member | source | states |
|---|---|---|
| HarmOscill.MatElWeight | lib/RSPT/harm_oscill.py:30-87 | An order outside 0..8 gives 0, order 0 gives 1, and order 1 gives `(v/2) ** 0.5` whatever `dv` is. The other orders follow the closed form of each `(n, dv)` branch, and an unlisted `dv` falls through to that order's last branch. |
| HarmOscill.WeightIsReal | lib/RSPT/harm_oscill.py:33-85 | For every natural `v` and every `n` and `dv`, no radicand is negative, so every weight is a real number. |
| HarmOscill.WeightVanishesBelowDv | lib/RSPT/harm_oscill.py:33-85 | For a tabulated `(n, dv)` with `dv >= 1` and `0 <= v < dv`, the weight is exactly zero: a step of `dv` from a level below `dv` leaves the ladder. |
| HarmOscill.DiagonalWeightPositive | lib/RSPT/harm_oscill.py:34-76 | For every even order 0..8 and every natural `v`, the diagonal (`dv == 0`) weight is a polynomial value and strictly positive. |
| HarmOscill.SpotValues | lib/RSPT/harm_oscill.py:35-76 | Three concrete table values: `(2, 2, 2)` is `0.5 * 2 ** 0.5`, `(4, 0, 2)` is 9.75 and `(8, 0, 9)` is 37019.0625. |
| HarmOscill.MatElWeightGen | lib/RSPT/harm_oscill.py:109-168 | The generator yields 25 blocks of `vmax + 1` values each (none when `vmax < 0`). |
| HarmOscill.RowAt | lib/RSPT/harm_oscill.py:110-111 | One `for v in range(w): yield block(b, v)` loop yields `block(b, v)` as its value number `v`, for every `0 <= v < w`. |
| HarmOscill.BlocksAt | lib/RSPT/harm_oscill.py:109-168 | When every block holds `w` values, value `v` of block `j` sits at offset `(j - b) * w + v` among the values of blocks `b, b + 1, …, 24`. |
| HarmOscill.BlockIndexRange | lib/RSPT/harm_oscill.py:190-191 | In the dictionary's loop order, the block of an `(n, dv)` pair lies within blocks 0..24 if and only if `n <= 8`; the pairs of every order from 9 on lie past the generator's end. |
| HarmOscill.BlockIndexBelowNext | lib/RSPT/harm_oscill.py:190-191 | Every `dv` of order `n` takes a block before the first block of order `n + 1`. |
| HarmOscill.BlockIndexInjective | lib/RSPT/harm_oscill.py:190-191 | No two `(n, dv)` pairs the loops visit share a block. |
| HarmOscill.BlockIndexOnto | lib/RSPT/harm_oscill.py:109-168 | Every one of the generator's 25 blocks belongs to some tabulated `(n, dv)` pair; with `BlockIndexInjective` and `BlockIndexRange`, the pairs of orders 0..8 fill exactly blocks 0..24, one block each. |
| HarmOscill.GenBlockIsWeight | lib/RSPT/harm_oscill.py:109-168 | The generator's block for each tabulated `(n, dv)` is the same closed form that `MatElWeight(n, dv, v)` returns, for every `v`. |
| HarmOscill.GenMatchesWeight | lib/RSPT/harm_oscill.py:109-168 | For a tabulated `(n, dv)` and `0 <= v <= vmax`, the value the dictionary's loops take for key `(n, dv, v)` is in range and equals `MatElWeight(n, dv, v)`. |
| HarmOscill.ExhaustedAtOrder9 | lib/RSPT/harm_oscill.py:189-193 | While the loops run, `next(gen)` still has a value if and only if the current order is at most 8. |
| HarmOscill.StepValue | lib/RSPT/harm_oscill.py:193 | Storing `next(gen)` under a fresh key `(i, dv, v)` keeps the invariant: the table holds exactly the keys visited so far, each mapped to its weight, and the cursor counts them. |
| HarmOscill.Finish | lib/RSPT/harm_oscill.py:190-195 | When the loops end normally: `n <= 8` or `vmax < 0`; the keys are exactly the `(i, dv, v)` the loops visit; the size is `(vmax + 1)` times the number of blocks of orders `0..n`; for `n == 8` the whole generator has been used. |
| HarmOscill.FillBlock | lib/RSPT/harm_oscill.py:192-193 | The `v` loop either stores `(i, dv, 0..vmax)` and moves on to `dv + 2`, or stops with `StopIteration`, which can only happen at order 9 or above. |
| HarmOscill.FillOrder | lib/RSPT/harm_oscill.py:191-193 | The `dv` loop either stores every `(i, dv, v)` with `dv` in `range(i % 2, i + 1, 2)` and moves on to order `i + 1`, or stops with `StopIteration`. |
| HarmOscill.MatElWeightDict | lib/RSPT/harm_oscill.py:171-195 | Returns a table if and only if `n <= 8` or `vmax < 0`; otherwise returns `StopIteration`. The table's keys are exactly the `(i, dv, v)` with `0 <= i <= n`, `dv` in `range(i % 2, i + 1, 2)` and `0 <= v <= vmax`. Every value is `MatElWeight` of its key. The size is as in `Finish`, and for `n == 8` it equals the generator's length. |
| Rspt.BudgetDecreases | lib/RSPT/RSPT.py:35-38 | Raising the energy by a positive frequency strictly lowers the budget left below `Emax`, so the recursion terminates. |
| Rspt.YieldedSound | lib/RSPT/RSPT.py:33-40 | Every row emitted from mode `n` keeps the entry prefix `memo[..n]`, has at least `memo[k]` quanta in each later mode, and has energy `E` plus the energy of its extra quanta. Unless emitted at the leaf, that energy is within `Emax`. |
| Rspt.YieldedComplete | lib/RSPT/RSPT.py:33-40 | Conversely, every such admissible row is emitted. |
| Rspt.BranchesOrdered | lib/RSPT/RSPT.py:36-38 | Every row of the first branch (mode `n` unchanged) is lexicographically below every row of the second branch (one more quantum in mode `n`). |
| Rspt.YieldedAscending | lib/RSPT/RSPT.py:33-40 | The rows come out in strictly ascending lexicographic order of their quantum numbers, so no state is emitted twice. |
| Rspt.TwoModeExample | lib/RSPT/RSPT.py:33-40 | With frequencies 1 and 2, ceiling 2 and energy 0, the rows are `(0,0)`, `(0,1)`, `(1,0)`, `(2,0)`, with energies 0, 2, 1, 2: the last mode is exhausted first. |
| Rspt.GenZeroApproximation | lib/RSPT/RSPT.py:10-40 | The recursive enumerator on the shared buffer `memo`. It yields exactly `Yielded` of the entry contents of `memo`, leaves `memo[..n]` as it found it, and leaves `memo[n..]` all zero. |
| Rspt.EnergyFromHalfSum | lib/RSPT/RSPT.py:17-18 | Half the frequency sum plus the excitation energy of the quanta is the harmonic energy `Σ freqs[k] * (v_k + 1/2)`. This is why the caller's starting energy `sum(freqs) / 2` is used (line 65). |
| Rspt.ZeroStates | lib/RSPT/RSPT.py:65 | From `sum(freqs) / 2` with all quantum numbers zero, a state is emitted if and only if it has one natural quantum number per mode and harmonic energy within `Emax`. With no modes, the single empty state is emitted. |
| Rspt.DecimalRoundTrip | lib/RSPT/RSPT.py:63 | Reading back the decimal string `str(k)` gives `k`, and the string is never empty. |
| Rspt.LabelsDistinct | lib/RSPT/RSPT.py:61-64 | The labels `v1 .. vM, E` are pairwise distinct. |
| Rspt.ZeroApproximation | lib/RSPT/RSPT.py:44-68 | The labels are `"v" + str(i + 1)` for each mode, then `"E"`, and they are pairwise distinct. The rows are exactly the states with harmonic energy within `Emax`, in strictly ascending order, with no repeated quantum numbers. With at least one mode and `sum(freqs) / 2 > Emax` there are no rows at all. |

## Left out

- Floating point is not modelled. Weights are exact symbolic values (`Exact`, `Surd`) and energies are exact reals; rounding is ignored.
- The order-3 weight `0.75 * 2 ** 0.5 * v ** 1.5` is written as the single surd `0.75 * (2 v^3) ** 0.5`. The two are equal for every natural `v`.
- `ZeroEl`, which `MatElWeight`'s docstring asks callers to call first, is not part of this model.
- `MatElWeightDict`'s default argument `n = 8` is not modelled; the model always takes `n` explicitly.
- Python generators are lazy. The model collects what each generator yields into a sequence. `MatElWeightDict` still takes the values one at a time through its cursor.
- The pandas `DataFrame` built by `zero_approximation` and its `@supp.timing` decorator (timing output) are not modelled. The model returns the labels and the rows, one `State` per row: the quantum numbers and the energy.
- Frequencies are modelled as positive whole numbers of some common energy unit; energies and `Emax` stay real. Finitely many floats are rationals with a common denominator. Scaling the frequencies, the starting energy and `Emax` by that denominator does not change which states are enumerated. Integer frequencies therefore lose no generality, and they give the termination measure without a real division.
- Rspt.GenZeroApproximation also requires `memo[n+1..]` to be all zero on entry. `zero_approximation` starts from `[0] * len(freqs)`, and every recursive call re-establishes this, so only direct calls with other buffers fall outside the model.
- Rspt.GenZeroApproximation does not model Python's recursion limit. Each mode adds one level of `yield from` nesting (RSPT.py:36), and so does each extra quantum (RSPT.py:38). A row with quanta q is therefore reached M + Σq levels deep. Once that depth exceeds the interpreter's limit (1000 by default), the source raises `RecursionError`, for example with `freqs = [1.0]` and `Emax = 1500`. The model assumes the depth stays within the limit and returns every row.
- `gen_zero_approximation`'s defaults `memo=None` and `n=None` (RSPT.py:10, 29-32) are not modelled. Rspt.GenZeroApproximation takes both explicitly, and Rspt.ZeroApproximation builds the zero buffer itself and starts at `n = 0`, as the defaults do.
- Rspt.GenZeroApproximation requires every frequency to be positive. With a zero or negative frequency the source's second branch recurses until Python's recursion limit, and that behaviour is not modelled.
- The docstrings of `gen_zero_approximation` and `zero_approximation` say `E0 < Emax`, but the code tests `E <= Emax` (RSPT.py:35). The model follows the code, so states exactly at the ceiling are included.
- The rest of the repository is not part of this model: the support module, molecule input and output, resummation, packaging and tests. Matrix assembly, diagonalisation and the perturbation series are not in the modelled files.
