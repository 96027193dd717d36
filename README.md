# Gelpia core: box refinement, the constraint oracle, and dead-definition removal

This project is a Dafny model of three sequential parts of Gelpia, a global optimiser that
refines boxes of intervals by branch and bound. Each part is modelled in the form the
source has, and its properties are proved.

- **Box refinement helpers** in `src/gr/src/gaol.rs`, module `Gaol` (file `gaol.dfy`).
  - A box is a sequence of intervals.
  - `widest_index`, `width_box` and `split_box` share a scan for the first widest interval.
    Their loops are methods proved against the recursive function `Scan`.
  - `eps_tol` is the scale-aware convergence test.
  - `get_next_binade` steps the exponent field of a binary64 pattern.
  - `split_box` bisects the widest dimension, at the binade boundary when it can.
  - Floating-point values are their IEEE 754-2008 binary64 bit patterns (section 3.4 of
    IEEE 754-2008). This lives in module `Float64` (file `float64.dfy`).
  - All bit manipulation is exact `bv64` arithmetic. Intervals are an abstract type, served
    by an `Engine` record of uninterpreted operations.
- **The three-valued constraint oracle** `Solver` in `src/solver/src/lib.rs`, module
  `SmtSolver` (file `solver.dfy`).
  - `Solver::new` is a pure constructor.
  - `make_query` builds the SMT-LIB v2 script (section 4 of the SMT-LIB 2.6 standard) with
    a loop over a vector of parts.
  - The output classification of `check_query` comes next, then `check_may`,
    `check_may_not` and `check_must`.
  - Running z3 or dReal is an `Oracle` function from the command line and the script to
    the printed text.
  - Every answer records the process runs it took. That makes "no query is issued" and
    the short-circuit of `check_must` statable.
  - The string helpers (concatenation, substring search, line splitting, decimal
    formatting of a `u32`) are in module `Text` (file `text.dfy`).
- **Dead-definition removal** in `src/frontend/function_transforms/pass_dead_removal.py`,
  module `PassDeadRemoval` (file `dead_removal.dfy`).
  - The recursive visitor `_dead_removal` and the state it mutates are the class `Walker`:
    `used_inputs`, `used_assigns`, `used_consts` and `work_stack`.
  - Each visit is proved against the state-transition function `Step`. `Step` is in turn
    related to a pure descent, `Scan`, by `StepMeaning`.
  - The worklist loop is the method `Reach`. Its invariant is `WorkInv`. It terminates
    because each assignment is pushed at most once.
  - `Reach` computes the least set of variables closed under use. It fails exactly when no
    such set exists.
  - The filtering loops build the insertion-ordered result dictionaries. `FilterDict` is
    proved equal to `Restrict`, which keeps the original order and values.

`wrappers.dfy` holds the `Option` and `Result` datatypes.

## Model

| member | source | states |
|---|---|---|
| Gaol.Scan | src/gr/src/gaol.rs:659-667 | The running maximum starts at NEG_INFINITY and is replaced only by a strictly greater width. When replaced, the index is in range and all later widths are not greater. Otherwise the index is 0 and no width exceeds NEG_INFINITY. |
| Gaol.ScanIsFirstWidest | src/gr/src/gaol.rs:661-666 | When `<` is a strict weak order on the widths (as IEEE `<` is on non-NaN values), no width exceeds the chosen one, and every earlier width is strictly smaller. So the chosen index is the first widest. |
| Gaol.WidestIndex | src/gr/src/gaol.rs:658-669 | The loop returns the index of the scan: 0 for an empty box, and an index below the length otherwise. |
| Gaol.WidestOf | src/gr/src/gaol.rs:673-681 | The interval handed on is the first widest one, or the empty interval when no width exceeds NEG_INFINITY. |
| Gaol.WidthBox | src/gr/src/gaol.rs:672-683 | The loop result is the convergence test applied to the first widest interval, or to the empty interval. |
| Gaol.Threshold | src/gr/src/gaol.rs:651-653 | The threshold pattern has sign 0 and mantissa 0. Its exponent field is the low 11 bits of the two's complement of `exp + 1023`. |
| Gaol.ThresholdIsPowerOfTwo | src/gr/src/gaol.rs:652-653 | For an exponent in the normal range -1022..1023, the threshold is exactly the encoding of 2^exp. |
| Gaol.ThresholdWrapsBelowNormalRange | src/gr/src/gaol.rs:649-653 | For the decoded exponent -1075 (that of 0.0), the field wraps to 1996. The threshold is then 2^973. |
| Gaol.MaxExponent | src/gr/src/gaol.rs:651 | The result is one of the two exponents and at least both. |
| Gaol.EpsTol | src/gr/src/gaol.rs:648-656 | True exactly when the width is at most `tol`, or at most the threshold built from the larger decoded exponent of the two bounds. |
| Gaol.MidpointBox | src/gr/src/gaol.rs:685-691 | The result has the box's length, and entry i is the midpoint of interval i. |
| Gaol.NextBinade | src/gr/src/gaol.rs:693-703 | The result always has a zero mantissa field. |
| Gaol.NextBinadeNegativeZeroExponent | src/gr/src/gaol.rs:698-700 | A negative input with a zero exponent field loses its sign, and its exponent field becomes 1. |
| Gaol.NextBinadeNegative | src/gr/src/gaol.rs:698-700 | Any other negative input keeps sign 1, and its exponent field goes down by one. So the unsigned `oexp - 1` never underflows. |
| Gaol.NextBinadeNonNegative | src/gr/src/gaol.rs:698-700 | A non-negative input below the all-ones exponent keeps sign 0, and its exponent field goes up by one. |
| Gaol.NextBinadeAllOnesExponent | src/gr/src/gaol.rs:699-700 | For +inf and positive NaNs, the carry of `0x800 << 52` lands in the sign bit. The result is -0.0. |
| Gaol.NextBinadeIncreasesNonNegative | src/gr/src/gaol.rs:695-702 | For a finite non-negative input, the result is the pattern with the exponent field one higher and a zero mantissa. It is strictly greater than the input pattern. |
| Gaol.NextBinadeShrinksNegative | src/gr/src/gaol.rs:695-702 | For a negative input with a non-zero exponent field, the magnitude strictly shrinks, to the power of two one binade lower. |
| Gaol.Halves | src/gr/src/gaol.rs:718-724 | When `nb < upper`, the halves are `[lower, nb]` and `[nb, upper]`, sharing `nb`. Otherwise they are GAOL's own halving. |
| Gaol.SameBounds | src/gr/src/gaol.rs:725-726 | The no-progress test of `split_box`: both halves have IEEE-equal lower bounds and IEEE-equal upper bounds. `SplitBox` returns one child exactly when it holds. |
| Gaol.SplitBox | src/gr/src/gaol.rs:705-732 | An empty box is an error, since the index panics. Otherwise the result has one or two children, and `progressed` holds iff there are two, iff the halves differ in a bound. Each child has the box's length and equals it off the widest index. At that index the children hold the halves. |
| SmtSolver.ToleranceString | src/solver/src/lib.rs:31-37 | A tolerance `<= 0.0` becomes "1.0e-6". Any other tolerance becomes its own display. |
| SmtSolver.EffectiveTimeLimit | src/solver/src/lib.rs:38-40 | The budget is positive: 6000 for 0, otherwise the given value. |
| SmtSolver.New | src/solver/src/lib.rs:23-53 | There is a constraint iff the query is non-empty. The tolerances and time limit take their defaults. Both constraint texts are the declaration lines followed by `(assert q)` or `(assert (not q))`, each line terminated. |
| SmtSolver.DeclareLines | src/solver/src/lib.rs:26-28 | One `(declare-fun n () Real)` per name, in name order. |
| SmtSolver.NewTimeLimitReadsBack | src/solver/src/lib.rs:38-40 | The time-limit text is all digits, and it parses back to the effective budget. |
| SmtSolver.NewConstraintLines | src/solver/src/lib.rs:26-51 | Split into lines, each constraint text is exactly the declarations in order, then the assertion or its negation. |
| SmtSolver.LowerBoundLines | src/solver/src/lib.rs:61-63 | Names and ranges are zipped. There are as many lines as the shorter of the two has, line i being `(assert (<= lo_i n_i))`. |
| SmtSolver.UpperBoundLines | src/solver/src/lib.rs:65-67 | As many lines as the shorter of names and ranges has, line i being `(assert (<= n_i hi_i))`. |
| SmtSolver.MakeQuery | src/solver/src/lib.rs:55-80 | The push/extend loop yields the concatenation of the constraint, the lower bounds, the upper bounds, `(check-sat)` and `(exit)`. |
| SmtSolver.QueryLayout | src/solver/src/lib.rs:57-77 | For a solver built by `New`, the script's lines are the declarations, then the constraint line or its negation, the lower bounds in variable order, the upper bounds in variable order, `(check-sat)` and `(exit)`. |
| SmtSolver.Command | src/solver/src/lib.rs:89-128 | The whole command line, position by position. z3 is run as `z3 -smt2 -in -T:<limit>`. dReal is run as `dreal --in --nlopt-ftol-abs <abs> --nlopt-ftol-rel <rel> --nlopt-maxtime <limit>`. |
| SmtSolver.ClassifyZ3 | src/solver/src/lib.rs:107-115 | A z3 verdict is never reached when the output mentions "error". A true verdict needs "sat" and no "unsat". The full case split is `ClassifyZ3Cases`. |
| SmtSolver.ClassifyDreal | src/solver/src/lib.rs:138-144 | A dReal output is false exactly when it mentions "unsat". A true verdict needs "delta-sat" and no "unsat". The full case split is `ClassifyDrealCases`. |
| SmtSolver.UnsatContainsSat | src/solver/src/lib.rs:109-112 | Every output mentioning "unsat" also mentions "sat". That is why the order of the tests matters. |
| SmtSolver.ClassifyZ3Cases | src/solver/src/lib.rs:107-115 | The z3 verdict, case by case and in both directions: "error" is an error. Otherwise "unsat" is false, "sat" without "unsat" is true, and no "sat" is an error. So an output with "unsat" is never true. |
| SmtSolver.ClassifyDrealCases | src/solver/src/lib.rs:138-144 | The dReal verdict in both directions: "unsat" is false, "delta-sat" without "unsat" is true, and anything else is an error. |
| SmtSolver.CheckQuery | src/solver/src/lib.rs:82-146 | Exactly one process run, with the backend's command line and the script as input. If the process cannot be run the verdict is `LaunchFailed`. Otherwise the verdict is the z3 or dReal classification of its output, by backend. |
| SmtSolver.CheckQueryVerdict | src/solver/src/lib.rs:82-146 | In both directions: the verdict is true iff the backend ran and reported "sat" (z3: no "error", no "unsat"; dReal: "delta-sat", no "unsat"). It is false iff the backend ran and reported "unsat" (z3: without "error"). It is `LaunchFailed` iff the run failed. |
| SmtSolver.CheckMay | src/solver/src/lib.rs:148-157 | Without a constraint the answer is true and no process is run. With one, exactly the positive script is run, once, and the answer is that query's. |
| SmtSolver.MayVerdict | src/solver/src/lib.rs:148-157 | With a constraint, `check_may` is true iff the backend reports the positive script satisfiable, and false iff it reports it unsatisfiable. |
| SmtSolver.CheckMayNot | src/solver/src/lib.rs:159-168 | Without a constraint the answer is false and no process is run. With one, exactly the negative script is run, once, and the answer is that query's. |
| SmtSolver.MayNotVerdict | src/solver/src/lib.rs:159-168 | With a constraint, `check_may_not` is true iff the backend reports the negated script satisfiable, and false iff it reports it unsatisfiable. |
| SmtSolver.CheckMust | src/solver/src/lib.rs:170-177 | Without a constraint the answer is true and no process is run. With one, the runs begin with the positive script. How the verdict is composed is `MustComposition`. |
| SmtSolver.MustComposition | src/solver/src/lib.rs:170-177 | With a constraint, must is true iff may is true and may-not is false. When may answers false, only the positive script runs. Otherwise the runs are those of may followed by those of may-not. Must fails iff may fails, or may holds and may-not fails. When may fails, must is exactly may's answer. |
| PassDeadRemoval.TwoItems | src/frontend/function_transforms/pass_dead_removal.py:16 | The two-child tags include every binary operator and "Tuple". |
| PassDeadRemoval.OneItem | src/frontend/function_transforms/pass_dead_removal.py:17 | The one-child tags include every unary operator and "Return". |
| PassDeadRemoval.KindOf | src/frontend/function_transforms/pass_dead_removal.py:21-54 | The branch a tag takes, its tests in the source's order. Its characterization is `KindOfOrder`. |
| PassDeadRemoval.KindOfOrder | src/frontend/function_transforms/pass_dead_removal.py:21-54 | The dispatch order. `Variable` always takes the variable branch. A two-child tag other than `Variable` is a pair, and each other branch is taken only by its own tag or tag set. The unknown-tag exit is taken iff the tag is in none of them. |
| PassDeadRemoval.ScanPair | src/frontend/function_transforms/pass_dead_removal.py:29-32 | A two-child node succeeds iff both children do, and mentions the union of what they mention. |
| PassDeadRemoval.ScanChild | src/frontend/function_transforms/pass_dead_removal.py:42-43 | A one-child node means exactly what its child means. |
| PassDeadRemoval.ScanAllCoversChildren | src/frontend/function_transforms/pass_dead_removal.py:48-51 | A `Box` that succeeds has visited every child, and each child's names are among the box's. |
| PassDeadRemoval.ScanLeaf | src/frontend/function_transforms/pass_dead_removal.py:45-46 | A leaf tag adds nothing to any used-set. |
| PassDeadRemoval.ScanUnknown | src/frontend/function_transforms/pass_dead_removal.py:53-54 | A node with an unrecognised tag is an error. |
| PassDeadRemoval.UnknownTagFails | src/frontend/function_transforms/pass_dead_removal.py:53-54 | An expression with an unrecognised tag can never be covered, so the pass fails on it. |
| PassDeadRemoval.Step | src/frontend/function_transforms/pass_dead_removal.py:20-54 | One call of `_dead_removal` as a transition of the visitor's state, branch for branch. It has no contract of its own; its meaning is `StepMeaning` and `StepPairMeaning`. |
| PassDeadRemoval.StepAll | src/frontend/function_transforms/pass_dead_removal.py:48-51 | The `Box` loop over the children, left to right, stopping at the first failure. Its meaning is `StepAllMeaning`. |
| PassDeadRemoval.StepMeaning | src/frontend/function_transforms/pass_dead_removal.py:20-54 | A visit succeeds iff the descent succeeds and every variable it meets has an assignment. The used-sets then grow by exactly what the node mentions. The variables new to `used_assigns` are pushed once each, in order, with their bodies. |
| PassDeadRemoval.StepPairMeaning | src/frontend/function_transforms/pass_dead_removal.py:29-32 | The same, for a two-child node: the second child is visited from the state the first left. |
| PassDeadRemoval.StepAllMeaning | src/frontend/function_transforms/pass_dead_removal.py:48-51 | The same, for the children of a `Box`, left to right. |
| PassDeadRemoval.Walker.constructor | src/frontend/function_transforms/pass_dead_removal.py:10-14 | The pass starts with empty used-sets and an empty work stack. |
| PassDeadRemoval.Walker.Visit | src/frontend/function_transforms/pass_dead_removal.py:20-54 | The in-place visit fails iff `Step` fails, and otherwise leaves the fields in `Step`'s state. |
| PassDeadRemoval.Walker.VisitAll | src/frontend/function_transforms/pass_dead_removal.py:49-50 | The loop over a `Box`'s children moves the fields as `StepAll` does. |
| PassDeadRemoval.Walker.Pop | src/frontend/function_transforms/pass_dead_removal.py:58 | Returns the top of the work stack and removes it. Nothing else changes. |
| PassDeadRemoval.PushedBound | src/frontend/function_transforms/pass_dead_removal.py:23-27 | Each variable is pushed at most once, so there are no more pushes than assignments. |
| PassDeadRemoval.WorkStart | src/frontend/function_transforms/pass_dead_removal.py:56 | After the visit of `exp`, the worklist invariant holds. The used variables lie inside every covering set. |
| PassDeadRemoval.WorkStep | src/frontend/function_transforms/pass_dead_removal.py:57-59 | Popping the last pending body and visiting it re-establishes the invariant and minimality. |
| PassDeadRemoval.WorkEnd | src/frontend/function_transforms/pass_dead_removal.py:57 | With an empty stack every used variable is done, and the used set covers `exp`. |
| PassDeadRemoval.NoCoverAt | src/frontend/function_transforms/pass_dead_removal.py:24-26 | If a used variable has no assignment, or its body cannot be visited, no covering set exists. |
| PassDeadRemoval.NoCoverRoot | src/frontend/function_transforms/pass_dead_removal.py:56 | If `exp` itself cannot be visited, no covering set exists. |
| PassDeadRemoval.ReachStep | src/frontend/function_transforms/pass_dead_removal.py:57-59 | One iteration: pop the last pushed body and visit it. It fails only when no variable set covers `exp`. Otherwise `WorkInv` and minimality hold again, and either new variables were pushed or the stack is shorter, which is why the loop terminates. |
| PassDeadRemoval.Reach | src/frontend/function_transforms/pass_dead_removal.py:56-59 | The loop terminates. It fails iff no variable set covers `exp`. Otherwise the used variables are the least covering set. The pushes are distinct and name exactly the used variables, so there is at most one per assignment. The loop pops and visits exactly as many bodies as were pushed. The used inputs and constants are those mentioned by `exp` or by a used body. The once-only pushing rests on `StepMeaning` (only unused variables are pushed) and the loop invariant `WorkInv`. |
| PassDeadRemoval.Filter | src/frontend/function_transforms/pass_dead_removal.py:63-64 | A key is kept iff it is a key of the dictionary and is reached. |
| PassDeadRemoval.Put | src/frontend/function_transforms/pass_dead_removal.py:65 | Assigning an ordered dictionary updates the entry. A new key goes last, and an existing key keeps its place. |
| PassDeadRemoval.FilterDict | src/frontend/function_transforms/pass_dead_removal.py:62-65 | The filtering loop yields the dictionary restricted to the reached names. |
| PassDeadRemoval.FilterDistinct | src/frontend/function_transforms/pass_dead_removal.py:62-65 | Filtering distinct keys gives distinct keys. |
| PassDeadRemoval.RestrictSubDict | src/frontend/function_transforms/pass_dead_removal.py:62-78 | A restricted dictionary is well formed. It maps exactly the reached keys of the argument, each to its original value, so it is a sub-map. |
| PassDeadRemoval.RestrictKeepsOrder | src/frontend/function_transforms/pass_dead_removal.py:62-78 | Keys of a restricted dictionary appear in their original order. |
| PassDeadRemoval.DeadRemoval | src/frontend/function_transforms/pass_dead_removal.py:9-80 | The pass fails iff no variable set covers `exp`. Otherwise it returns the three dictionaries restricted to the reached inputs, the least covering variable set, and the reached constants, in original order. The result is a pair iff `consts` is `None`. |

## Left out

- The GAOL foreign-function surface, the `GI` constructors, and all interval arithmetic and elementary functions (`src/gr/src/gaol.rs:40-646`). `lower`, `upper`, `width`, `midpoint`, GAOL's halving `split`, `new_d` and `new_e` are uninterpreted fields of `Gaol.Engine`. `GI::to_string` calls `libc::free`, and the placeholder `func` is trivial; both are left out.
- The floating-point comparisons of `eps_tol`, `widest_index`, `width_box` and `split_box`, the `Display` formatting of `f64`, and `Float::integer_decode` are library behaviour. They are uninterpreted fields of `Float64.Ops`.
- Gaol.ScanIsFirstWidest: the first-widest property needs `<` to be a strict weak order on the widths. It is stated under that hypothesis, because with NaN widths IEEE `<` is not one.
- Process spawning, writing the script to standard input, and reading standard output in `check_query` are an `Oracle`. Every `expect` failure on them is the one error `LaunchFailed`, and every `panic!` is an error result. UTF-8 lossy decoding is part of the oracle's output.
- The `#[cfg(test)]` module of `src/solver/src/lib.rs` needs a real solver. Its scenarios (true, false and mixed constraints) are covered over an arbitrary oracle by `MayVerdict`, `MayNotVerdict` and `MustComposition`, which give each verdict from the backend's output.
- `runmain` of the dead-removal pass, the other passes it chains, and all of `src/frontend/gelpia.py` are I/O and command-line plumbing. `pass_utils`, which defines `BINOPS` and `UNOPS`, is not part of this model. The two sets are a `Tags` parameter.
- PassDeadRemoval.Step: a bare string visited as a node always fails in Python, with an `IndexError` or the unknown-tag exit depending on its characters. The model gives it the single failure `NotANode`, not the exact exception.
- PassDeadRemoval.Step: an item that is not a string where a tag is expected ends in the unknown-tag exit in Python. The model gives it `UnknownTag`. Printing the message and `sys.exit(-1)` are that same error result.
- PassDeadRemoval.Walker.Visit: when a visit fails part-way, the state it leaves is not specified. The pass ends with the failure, so that state is never observed.
- Python's recursion limit is not modelled. `_dead_removal` raises `RecursionError` on an expression nested about a thousand levels deep, while `Scan`, `Step` and `Walker.Visit` succeed on it.
- `OrderedDict` is modelled as its key order plus a map, and the arguments are values. So "the arguments are not modified" holds by construction.

Behaviour of the code at its edges, which the model follows in each case:

- `get_next_binade` moves a finite non-negative input away from zero. Any negative input with a non-zero exponent field moves toward zero, so -inf and negative NaNs go to -2^1023. -0.0 and negative subnormals go to +2^-1022. +inf and positive NaNs go to -0.0, because the exponent carry lands in the sign bit.
- `split_box` splits at `nb` whenever `nb < upper`. It does not test `nb` against the lower bound.
- `split_box` always returns one or two boxes, and panics on an empty box.
- The dReal branch of `check_query` never looks for "error" in the output. Only the z3 branch does.
- For a decoded exponent below -1023, the threshold of `eps_tol` wraps in the 11-bit exponent field instead of becoming a tiny power of two (`Gaol.ThresholdWrapsBelowNormalRange`). At exactly -1023 the field is 0 and the threshold is +0.0.
