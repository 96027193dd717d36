/**
 * The three-valued constraint oracle of the solver crate (src/solver/src/lib.rs).
 *
 * A `Solver` is an immutable record built once per constraint. `CheckMay` asks whether the
 * constraint can hold somewhere in a box, `CheckMayNot` whether its negation can, and
 * `CheckMust` combines the two. Each question is an SMT-LIB v2 script (section 4 of the
 * SMT-LIB 2.6 standard: `declare-fun`, `assert`, `check-sat`, `exit`) given to an external
 * decision procedure, z3 or dReal. Running that process is an `Oracle`: a function from the
 * command line and the script to the text the process printed, or `None` when spawning it,
 * writing its input or reading its output failed (the `expect` panics).
 */
module SmtSolver {
  import opened Wrappers
  import opened Float64
  import opened Text
  import Gaol

  /** A Rust `u32`. */
  newtype U32 = x: int | 0 <= x < 0x1_0000_0000

  /** The fields of `struct Solver`. */
  datatype Solver = Solver(
    hasConstraints: bool,
    timeLimit: string,
    useZ3: bool,
    variableNames: seq<string>,
    ftolAbs: string,
    ftolRel: string,
    positiveConstraint: string,
    negativeConstraint: string)

  const DEFAULT_FTOL := "1.0e-6"
  const DEFAULT_TIME_LIMIT := "6000"

  // ---------------------------------------------------------------------------------------
  // Construction
  // ---------------------------------------------------------------------------------------

  function DeclareLine(name: string): string
  {
    "(declare-fun " + name + " () Real)"
  }

  function DeclareLines(names: seq<string>): (ls: seq<string>)
    ensures |ls| == |names|
    ensures forall i :: 0 <= i < |names| ==> ls[i] == DeclareLine(names[i])
  {
    seq(|names|, i requires 0 <= i < |names| => DeclareLine(names[i]))
  }

  /** The declarations, one `(declare-fun n () Real)` per variable, in order. */
  function Preamble(names: seq<string>): string
  {
    Concat(Terminated(DeclareLines(names)))
  }

  function PositiveAssert(query: string): string
  {
    "(assert " + query + ")"
  }

  function NegativeAssert(query: string): string
  {
    "(assert (not " + query + "))"
  }

  /** A tolerance as passed to dReal: the default for a non-positive value, else its display. */
  function ToleranceString(fl: Ops, tol: Bits): (r: string)
    ensures fl.le(tol, POS_ZERO) ==> r == DEFAULT_FTOL
    ensures !fl.le(tol, POS_ZERO) ==> r == fl.show(tol)
  {
    if fl.le(tol, POS_ZERO) then DEFAULT_FTOL else fl.show(tol)
  }

  /** The time budget actually passed to the solver. */
  function EffectiveTimeLimit(timeLimit: U32): (t: nat)
    ensures t > 0
    ensures timeLimit == 0 ==> t == 6000
    ensures timeLimit != 0 ==> t == timeLimit as nat
  {
    if timeLimit == 0 then 6000 else timeLimit as nat
  }

  /**
   * `Solver::new`: defaults for non-positive tolerances and a zero time limit; the assertion
   * texts are the declarations followed by the constraint, or by its negation.
   */
  function New(query: string, names: seq<string>, ftolAbs: Bits, ftolRel: Bits,
               timeLimit: U32, useZ3: bool, fl: Ops): (s: Solver)
    ensures s.hasConstraints <==> query != ""
    ensures s.variableNames == names && s.useZ3 == useZ3
    ensures s.ftolAbs == ToleranceString(fl, ftolAbs) && s.ftolRel == ToleranceString(fl, ftolRel)
    ensures timeLimit == 0 ==> s.timeLimit == DEFAULT_TIME_LIMIT
    ensures timeLimit != 0 ==> s.timeLimit == NatToString(timeLimit as nat)
    ensures s.positiveConstraint == Concat(Terminated(DeclareLines(names) + [PositiveAssert(query)]))
    ensures s.negativeConstraint == Concat(Terminated(DeclareLines(names) + [NegativeAssert(query)]))
  {
    var preamble := Preamble(names);
    var ds := DeclareLines(names);
    assert Terminated(ds + [PositiveAssert(query)]) == Terminated(ds) + [PositiveAssert(query) + "\n"];
    assert Terminated(ds + [NegativeAssert(query)]) == Terminated(ds) + [NegativeAssert(query) + "\n"];
    ConcatAppend(Terminated(ds), [PositiveAssert(query) + "\n"]);
    ConcatAppend(Terminated(ds), [NegativeAssert(query) + "\n"]);
    Solver(
      hasConstraints := |query| > 0,
      timeLimit := if timeLimit == 0 then DEFAULT_TIME_LIMIT else NatToString(timeLimit as nat),
      useZ3 := useZ3,
      variableNames := names,
      ftolAbs := ToleranceString(fl, ftolAbs),
      ftolRel := ToleranceString(fl, ftolRel),
      positiveConstraint := preamble + PositiveAssert(query) + "\n",
      negativeConstraint := preamble + NegativeAssert(query) + "\n")
  }

  /** The time-limit text reads back as the effective budget: 6000 for 0, else the value. */
  lemma NewTimeLimitReadsBack(query: string, names: seq<string>, ftolAbs: Bits, ftolRel: Bits,
                              timeLimit: U32, useZ3: bool, fl: Ops)
    ensures var s := New(query, names, ftolAbs, ftolRel, timeLimit, useZ3, fl);
            (forall i :: 0 <= i < |s.timeLimit| ==> IsDigit(s.timeLimit[i]))
            && ParseDecimal(s.timeLimit) == EffectiveTimeLimit(timeLimit)
  {
    var s := New(query, names, ftolAbs, ftolRel, timeLimit, useZ3, fl);
    if timeLimit == 0 {
      assert s.timeLimit == NatToString(6000) by {
        assert NatToString(6) == "6";
        assert NatToString(60) == "60";
        assert NatToString(600) == "600";
      }
    }
    DecimalRoundTrip(EffectiveTimeLimit(timeLimit));
  }

  lemma DeclareLinesOnOneLine(names: seq<string>, query: string)
    requires AllOnOneLine(names) && NoNewline(query)
    ensures forall i :: 0 <= i < |names| ==> NoNewline(DeclareLine(names[i]))
    ensures NoNewline(PositiveAssert(query)) && NoNewline(NegativeAssert(query))
  {
    forall i | 0 <= i < |names| ensures NoNewline(DeclareLine(names[i])) {
      var n := names[i];
      assert forall k :: 0 <= k < |n| ==> DeclareLine(n)[13 + k] == n[k];
    }
    assert forall k :: 0 <= k < |query| ==> PositiveAssert(query)[8 + k] == query[k];
    assert forall k :: 0 <= k < |query| ==> NegativeAssert(query)[13 + k] == query[k];
  }

  /**
   * Line by line, the positive text is one declaration per name, in order, then
   * `(assert q)`; the negative text has the same declarations, then `(assert (not q))`.
   */
  lemma NewConstraintLines(query: string, names: seq<string>, ftolAbs: Bits, ftolRel: Bits,
                           timeLimit: U32, useZ3: bool, fl: Ops)
    requires AllOnOneLine(names) && NoNewline(query)
    ensures var s := New(query, names, ftolAbs, ftolRel, timeLimit, useZ3, fl);
            && Lines(s.positiveConstraint) == DeclareLines(names) + [PositiveAssert(query)]
            && Lines(s.negativeConstraint) == DeclareLines(names) + [NegativeAssert(query)]
  {
    DeclareLinesOnOneLine(names, query);
    LinesOfTerminated(DeclareLines(names) + [PositiveAssert(query)]);
    LinesOfTerminated(DeclareLines(names) + [NegativeAssert(query)]);
  }

  // ---------------------------------------------------------------------------------------
  // The query script
  // ---------------------------------------------------------------------------------------

  function Min(a: nat, b: nat): nat
  {
    if a < b then a else b
  }

  function LowerBoundLine<I>(e: Gaol.Engine<I>, name: string, iv: I): string
  {
    "(assert (<= " + e.fl.show(e.lower(iv)) + " " + name + "))"
  }

  function UpperBoundLine<I>(e: Gaol.Engine<I>, name: string, iv: I): string
  {
    "(assert (<= " + name + " " + e.fl.show(e.upper(iv)) + "))"
  }

  /** The lower-bound assertions: names and ranges zipped, so as many as the shorter has. */
  function LowerBoundLines<I>(e: Gaol.Engine<I>, names: seq<string>, ranges: seq<I>): (ls: seq<string>)
    ensures |ls| == Min(|names|, |ranges|)
    ensures forall i :: 0 <= i < |ls| ==> ls[i] == LowerBoundLine(e, names[i], ranges[i])
  {
    seq(Min(|names|, |ranges|), i requires 0 <= i < Min(|names|, |ranges|) =>
      LowerBoundLine(e, names[i], ranges[i]))
  }

  function UpperBoundLines<I>(e: Gaol.Engine<I>, names: seq<string>, ranges: seq<I>): (ls: seq<string>)
    ensures |ls| == Min(|names|, |ranges|)
    ensures forall i :: 0 <= i < |ls| ==> ls[i] == UpperBoundLine(e, names[i], ranges[i])
  {
    seq(Min(|names|, |ranges|), i requires 0 <= i < Min(|names|, |ranges|) =>
      UpperBoundLine(e, names[i], ranges[i]))
  }

  function Constraint(s: Solver, isPositive: bool): string
  {
    if isPositive then s.positiveConstraint else s.negativeConstraint
  }

  /** The pieces of the script in the order `make_query` pushes them. */
  function QueryParts<I>(s: Solver, e: Gaol.Engine<I>, isPositive: bool, ranges: seq<I>): seq<string>
  {
    [Constraint(s, isPositive)]
    + Terminated(LowerBoundLines(e, s.variableNames, ranges))
    + Terminated(UpperBoundLines(e, s.variableNames, ranges))
    + ["(check-sat)\n", "(exit)\n"]
  }

  function QueryText<I>(s: Solver, e: Gaol.Engine<I>, isPositive: bool, ranges: seq<I>): string
  {
    Concat(QueryParts(s, e, isPositive, ranges))
  }

  /** `make_query`: collect the pieces in a vector, then concatenate them. */
  method MakeQuery<I>(s: Solver, e: Gaol.Engine<I>, isPositive: bool, ranges: seq<I>)
    returns (query: string)
    ensures query == QueryText(s, e, isPositive, ranges)
  {
    var constraint := if isPositive then s.positiveConstraint else s.negativeConstraint;
    var n := Min(|s.variableNames|, |ranges|);
    ghost var lows := Terminated(LowerBoundLines(e, s.variableNames, ranges));
    ghost var ups := Terminated(UpperBoundLines(e, s.variableNames, ranges));
    var queryParts := [constraint];
    for i := 0 to n
      invariant queryParts == [constraint] + lows[..i]
    {
      queryParts := queryParts + [LowerBoundLine(e, s.variableNames[i], ranges[i]) + "\n"];
    }
    assert lows[..n] == lows;
    for i := 0 to n
      invariant queryParts == [constraint] + lows + ups[..i]
    {
      queryParts := queryParts + [UpperBoundLine(e, s.variableNames[i], ranges[i]) + "\n"];
    }
    assert ups[..n] == ups;
    queryParts := queryParts + ["(check-sat)\n"];
    queryParts := queryParts + ["(exit)\n"];
    assert queryParts == QueryParts(s, e, isPositive, ranges);
    query := Concat(queryParts);
  }

  ghost predicate BoundsOnOneLine<I>(e: Gaol.Engine<I>, ranges: seq<I>)
  {
    forall i :: 0 <= i < |ranges| ==>
      NoNewline(e.fl.show(e.lower(ranges[i]))) && NoNewline(e.fl.show(e.upper(ranges[i])))
  }

  lemma BoundLinesOnOneLine<I>(e: Gaol.Engine<I>, names: seq<string>, ranges: seq<I>)
    requires AllOnOneLine(names) && BoundsOnOneLine(e, ranges)
    ensures forall i :: 0 <= i < Min(|names|, |ranges|) ==>
              NoNewline(LowerBoundLine(e, names[i], ranges[i]))
              && NoNewline(UpperBoundLine(e, names[i], ranges[i]))
  {
    forall i | 0 <= i < Min(|names|, |ranges|)
      ensures NoNewline(LowerBoundLine(e, names[i], ranges[i]))
      ensures NoNewline(UpperBoundLine(e, names[i], ranges[i]))
    {
      var lo := e.fl.show(e.lower(ranges[i]));
      var hi := e.fl.show(e.upper(ranges[i]));
      var n := names[i];
      var l := LowerBoundLine(e, n, ranges[i]);
      var u := UpperBoundLine(e, n, ranges[i]);
      assert forall k :: 0 <= k < |lo| ==> l[12 + k] == lo[k];
      assert forall k :: 0 <= k < |n| ==> l[13 + |lo| + k] == n[k];
      assert forall k :: 0 <= k < |n| ==> u[12 + k] == n[k];
      assert forall k :: 0 <= k < |hi| ==> u[13 + |n| + k] == hi[k];
    }
  }

  /** The lines after the constraint: the bounds, `(check-sat)` and `(exit)`. */
  function TailLines<I>(e: Gaol.Engine<I>, names: seq<string>, ranges: seq<I>): seq<string>
  {
    LowerBoundLines(e, names, ranges) + UpperBoundLines(e, names, ranges) + ["(check-sat)", "(exit)"]
  }

  lemma TerminatedTail<I>(e: Gaol.Engine<I>, names: seq<string>, ranges: seq<I>)
    ensures Terminated(TailLines(e, names, ranges))
            == Terminated(LowerBoundLines(e, names, ranges))
               + Terminated(UpperBoundLines(e, names, ranges)) + ["(check-sat)\n", "(exit)\n"]
  {
    TerminatedAppend(LowerBoundLines(e, names, ranges), UpperBoundLines(e, names, ranges));
    TerminatedAppend(LowerBoundLines(e, names, ranges) + UpperBoundLines(e, names, ranges),
                     ["(check-sat)", "(exit)"]);
    assert "(check-sat)" + "\n" == "(check-sat)\n" && "(exit)" + "\n" == "(exit)\n";
    assert Terminated(["(check-sat)", "(exit)"]) == ["(check-sat)\n", "(exit)\n"];
  }

  /** When the constraint text is a block of terminated lines, so is the whole script. */
  lemma QueryTextTerminated<I>(s: Solver, e: Gaol.Engine<I>, isPositive: bool, ranges: seq<I>,
                               head: seq<string>)
    requires Constraint(s, isPositive) == Concat(Terminated(head))
    ensures QueryText(s, e, isPositive, ranges)
            == Concat(Terminated(head + TailLines(e, s.variableNames, ranges)))
  {
    var rest := Terminated(TailLines(e, s.variableNames, ranges));
    TerminatedTail(e, s.variableNames, ranges);
    assert QueryParts(s, e, isPositive, ranges) == [Concat(Terminated(head))] + rest;
    ConcatAppend([Concat(Terminated(head))], rest);
    TerminatedAppend(head, TailLines(e, s.variableNames, ranges));
    ConcatAppend(Terminated(head), rest);
  }

  lemma TailOnOneLine<I>(e: Gaol.Engine<I>, names: seq<string>, ranges: seq<I>)
    requires AllOnOneLine(names) && BoundsOnOneLine(e, ranges)
    ensures AllOnOneLine(TailLines(e, names, ranges))
  {
    BoundLinesOnOneLine(e, names, ranges);
    AllOnOneLineAppend(LowerBoundLines(e, names, ranges), UpperBoundLines(e, names, ranges));
    AllOnOneLineAppend(LowerBoundLines(e, names, ranges) + UpperBoundLines(e, names, ranges),
                       ["(check-sat)", "(exit)"]);
  }

  /** A script whose constraint text is the lines `head` has the lines `head` + the tail. */
  lemma LinesOfQuery<I>(s: Solver, e: Gaol.Engine<I>, isPositive: bool, ranges: seq<I>,
                        head: seq<string>)
    requires Constraint(s, isPositive) == Concat(Terminated(head)) && AllOnOneLine(head)
    requires AllOnOneLine(s.variableNames) && BoundsOnOneLine(e, ranges)
    ensures Lines(QueryText(s, e, isPositive, ranges)) == head + TailLines(e, s.variableNames, ranges)
  {
    TailOnOneLine(e, s.variableNames, ranges);
    AllOnOneLineAppend(head, TailLines(e, s.variableNames, ranges));
    QueryTextTerminated(s, e, isPositive, ranges, head);
    LinesOfTerminated(head + TailLines(e, s.variableNames, ranges));
  }

  /** The constraint line of a script: the constraint itself, or its negation. */
  function AssertLine(query: string, isPositive: bool): string
  {
    if isPositive then PositiveAssert(query) else NegativeAssert(query)
  }

  /**
   * The layout of a query script for a solver built by `New`, line by line: the declarations,
   * the constraint (or its negation), every lower bound `(<= lo n)` in variable order, every
   * upper bound `(<= n hi)` in variable order, `(check-sat)`, `(exit)`.
   */
  lemma QueryLayout<I>(query: string, names: seq<string>, ftolAbs: Bits, ftolRel: Bits,
                       timeLimit: U32, useZ3: bool, fl: Ops,
                       e: Gaol.Engine<I>, isPositive: bool, ranges: seq<I>)
    requires AllOnOneLine(names) && NoNewline(query) && BoundsOnOneLine(e, ranges)
    ensures var s := New(query, names, ftolAbs, ftolRel, timeLimit, useZ3, fl);
            Lines(QueryText(s, e, isPositive, ranges))
              == DeclareLines(names) + [AssertLine(query, isPositive)]
                 + LowerBoundLines(e, names, ranges) + UpperBoundLines(e, names, ranges)
                 + ["(check-sat)", "(exit)"]
  {
    var s := New(query, names, ftolAbs, ftolRel, timeLimit, useZ3, fl);
    var head := DeclareLines(names) + [AssertLine(query, isPositive)];
    DeclareLinesOnOneLine(names, query);
    AllOnOneLineAppend(DeclareLines(names), [AssertLine(query, isPositive)]);
    LinesOfQuery(s, e, isPositive, ranges, head);
  }

  // ---------------------------------------------------------------------------------------
  // Asking the decision procedure
  // ---------------------------------------------------------------------------------------

  datatype SolverError =
    | LaunchFailed   // an `expect` on spawning, stdin or stdout failed
    | Z3Error        // "z3 reported an error"
    | NoAnswer       // "z3 did not output an answer" / "dreal did not output an answer"

  /** One run of the external decision procedure: its command line and its standard input. */
  datatype Call = Call(argv: seq<string>, input: string)

  /** The external process: the text it printed, or `None` if running it failed. */
  type Oracle = (seq<string>, string) -> Option<string>

  /** A verdict together with every process run it took, in order. */
  datatype Answer = Answer(verdict: Result<bool, SolverError>, calls: seq<Call>)

  /** The command line `check_query` spawns for the configured backend. */
  function Command(s: Solver): (argv: seq<string>)
    ensures s.useZ3 ==>
              && |argv| == 4 && argv[0] == "z3" && argv[1] == "-smt2" && argv[2] == "-in"
              && argv[3] == "-T:" + s.timeLimit
    ensures !s.useZ3 ==>
              && |argv| == 8 && argv[0] == "dreal" && argv[1] == "--in"
              && argv[2] == "--nlopt-ftol-abs" && argv[3] == s.ftolAbs
              && argv[4] == "--nlopt-ftol-rel" && argv[5] == s.ftolRel
              && argv[6] == "--nlopt-maxtime" && argv[7] == s.timeLimit
  {
    if s.useZ3 then ["z3", "-smt2", "-in", "-T:" + s.timeLimit]
    else ["dreal", "--in", "--nlopt-ftol-abs", s.ftolAbs, "--nlopt-ftol-rel", s.ftolRel,
          "--nlopt-maxtime", s.timeLimit]
  }

  /** z3's output: "error" first, then "unsat", then "sat". */
  function ClassifyZ3(out: string): (r: Result<bool, SolverError>)
    ensures r.Ok? ==> !Contains(out, "error")
    ensures r == Ok(true) ==> Contains(out, "sat") && !Contains(out, "unsat")
  {
    if Contains(out, "error") then Err(Z3Error)
    else if Contains(out, "unsat") then Ok(false)
    else if Contains(out, "sat") then Ok(true)
    else Err(NoAnswer)
  }

  /** dReal's output: "unsat", then "delta-sat". */
  function ClassifyDreal(out: string): (r: Result<bool, SolverError>)
    ensures r == Ok(true) ==> Contains(out, "delta-sat") && !Contains(out, "unsat")
    ensures r == Ok(false) <==> Contains(out, "unsat")
  {
    if Contains(out, "unsat") then Ok(false)
    else if Contains(out, "delta-sat") then Ok(true)
    else Err(NoAnswer)
  }

  /** Every output that mentions "unsat" also mentions "sat". */
  lemma UnsatContainsSat(out: string)
    requires Contains(out, "unsat")
    ensures Contains(out, "sat")
  {
    assert StartsWith("unsat"[2..], "sat");
    assert Contains("unsat"[2..], "sat");
    assert Contains("unsat"[1..], "sat");
    ContainsTransitive(out, "unsat", "sat");
  }

  /**
   * The z3 classification in full. Because "unsat" contains "sat", testing "sat" before
   * "unsat" would read every unsatisfiable answer as satisfiable; in this order an output
   * with "unsat" is never read as true, and without "error" it is always read as false.
   */
  lemma ClassifyZ3Cases(out: string)
    ensures ClassifyZ3(out) == Ok(true) <==>
              !Contains(out, "error") && !Contains(out, "unsat") && Contains(out, "sat")
    ensures ClassifyZ3(out) == Ok(false) <==> !Contains(out, "error") && Contains(out, "unsat")
    ensures ClassifyZ3(out) == Err(Z3Error) <==> Contains(out, "error")
    ensures ClassifyZ3(out) == Err(NoAnswer) <==> !Contains(out, "error") && !Contains(out, "sat")
  {
    if Contains(out, "unsat") {
      UnsatContainsSat(out);
    }
  }

  /** The dReal classification in full: an output with "unsat" is never read as true. */
  lemma ClassifyDrealCases(out: string)
    ensures ClassifyDreal(out) == Ok(true) <==> !Contains(out, "unsat") && Contains(out, "delta-sat")
    ensures ClassifyDreal(out) == Ok(false) <==> Contains(out, "unsat")
    ensures ClassifyDreal(out).Err? <==> !Contains(out, "unsat") && !Contains(out, "delta-sat")
  {
  }

  /** The backend's output reports the script satisfiable: z3's "sat" or dReal's "delta-sat". */
  predicate ReportsSat(useZ3: bool, out: string) {
    if useZ3 then !Contains(out, "error") && !Contains(out, "unsat") && Contains(out, "sat")
    else !Contains(out, "unsat") && Contains(out, "delta-sat")
  }

  /** The backend's output reports the script unsatisfiable (for z3, without an error). */
  predicate ReportsUnsat(useZ3: bool, out: string) {
    (useZ3 ==> !Contains(out, "error")) && Contains(out, "unsat")
  }

  /** `check_query`: one run of the backend on the script, its output classified. */
  function CheckQuery(s: Solver, query: string, oracle: Oracle): (a: Answer)
    ensures a.calls == [Call(Command(s), query)]
    ensures oracle(Command(s), query).None? ==> a.verdict == Err(LaunchFailed)
    ensures oracle(Command(s), query).Some? ==>
              a.verdict == (if s.useZ3 then ClassifyZ3(oracle(Command(s), query).value)
                            else ClassifyDreal(oracle(Command(s), query).value))
  {
    var call := Call(Command(s), query);
    match oracle(call.argv, call.input)
    case None => Answer(Err(LaunchFailed), [call])
    case Some(out) => Answer(if s.useZ3 then ClassifyZ3(out) else ClassifyDreal(out), [call])
  }

  /**
   * The verdict of one query in terms of the backend's output: true exactly when the backend
   * ran and reported the script satisfiable, false exactly when it ran and reported it
   * unsatisfiable, and a launch failure exactly when it could not be run.
   */
  lemma CheckQueryVerdict(s: Solver, query: string, oracle: Oracle)
    ensures var out := oracle(Command(s), query);
            var v := CheckQuery(s, query, oracle).verdict;
            && (v == Ok(true) <==> out.Some? && ReportsSat(s.useZ3, out.value))
            && (v == Ok(false) <==> out.Some? && ReportsUnsat(s.useZ3, out.value))
            && (v == Err(LaunchFailed) <==> out.None?)
  {
    var out := oracle(Command(s), query);
    if out.Some? {
      if s.useZ3 {
        ClassifyZ3Cases(out.value);
      } else {
        ClassifyDrealCases(out.value);
      }
    }
  }

  /**
   * `check_may`: can the constraint hold somewhere in the box? Without a constraint it is
   * true and runs nothing; with one it runs exactly the positive script.
   */
  function CheckMay<I>(s: Solver, e: Gaol.Engine<I>, ranges: seq<I>, oracle: Oracle): (a: Answer)
    ensures !s.hasConstraints ==> a == Answer(Ok(true), [])
    ensures s.hasConstraints ==> a.calls == [Call(Command(s), QueryText(s, e, true, ranges))]
    ensures s.hasConstraints ==> a == CheckQuery(s, QueryText(s, e, true, ranges), oracle)
  {
    if s.hasConstraints then CheckQuery(s, QueryText(s, e, true, ranges), oracle)
    else Answer(Ok(true), [])
  }

  /**
   * `check_may_not`: can the negated constraint hold somewhere in the box? Without a
   * constraint it is false and runs nothing; with one it runs exactly the negative script.
   */
  function CheckMayNot<I>(s: Solver, e: Gaol.Engine<I>, ranges: seq<I>, oracle: Oracle): (a: Answer)
    ensures !s.hasConstraints ==> a == Answer(Ok(false), [])
    ensures s.hasConstraints ==> a.calls == [Call(Command(s), QueryText(s, e, false, ranges))]
    ensures s.hasConstraints ==> a == CheckQuery(s, QueryText(s, e, false, ranges), oracle)
  {
    if s.hasConstraints then CheckQuery(s, QueryText(s, e, false, ranges), oracle)
    else Answer(Ok(false), [])
  }

  /**
   * With a constraint, `check_may` is true exactly when the backend reports the positive
   * script satisfiable, and false exactly when it reports it unsatisfiable.
   */
  lemma MayVerdict<I>(s: Solver, e: Gaol.Engine<I>, ranges: seq<I>, oracle: Oracle)
    requires s.hasConstraints
    ensures var out := oracle(Command(s), QueryText(s, e, true, ranges));
            var v := CheckMay(s, e, ranges, oracle).verdict;
            && (v == Ok(true) <==> out.Some? && ReportsSat(s.useZ3, out.value))
            && (v == Ok(false) <==> out.Some? && ReportsUnsat(s.useZ3, out.value))
  {
    CheckQueryVerdict(s, QueryText(s, e, true, ranges), oracle);
  }

  /**
   * With a constraint, `check_may_not` is true exactly when the backend reports the negated
   * script satisfiable, and false exactly when it reports it unsatisfiable.
   */
  lemma MayNotVerdict<I>(s: Solver, e: Gaol.Engine<I>, ranges: seq<I>, oracle: Oracle)
    requires s.hasConstraints
    ensures var out := oracle(Command(s), QueryText(s, e, false, ranges));
            var v := CheckMayNot(s, e, ranges, oracle).verdict;
            && (v == Ok(true) <==> out.Some? && ReportsSat(s.useZ3, out.value))
            && (v == Ok(false) <==> out.Some? && ReportsUnsat(s.useZ3, out.value))
  {
    CheckQueryVerdict(s, QueryText(s, e, false, ranges), oracle);
  }

  /**
   * `check_must`: `check_may(r) && !check_may_not(r)` with Rust's short-circuit `&&`: the
   * negative query runs only after the positive one answered true, and a panic in either
   * query ends the call. Without a constraint it is true and runs nothing; with one the
   * positive script always runs first.
   */
  function CheckMust<I>(s: Solver, e: Gaol.Engine<I>, ranges: seq<I>, oracle: Oracle): (a: Answer)
    ensures !s.hasConstraints ==> a == Answer(Ok(true), [])
    ensures s.hasConstraints ==> CheckMay(s, e, ranges, oracle).calls <= a.calls
  {
    if s.hasConstraints then
      var may := CheckMay(s, e, ranges, oracle);
      if may.verdict != Ok(true) then may
      else
        var mayNot := CheckMayNot(s, e, ranges, oracle);
        Answer(match mayNot.verdict
               case Ok(b) => Ok(!b)
               case Err(x) => Err(x),
               may.calls + mayNot.calls)
    else Answer(Ok(true), [])
  }

  /**
   * With a constraint, `check_must` holds exactly when `check_may` holds and `check_may_not`
   * does not. When `check_may` answers false, only the positive script is run.
   */
  lemma MustComposition<I>(s: Solver, e: Gaol.Engine<I>, ranges: seq<I>, oracle: Oracle)
    requires s.hasConstraints
    ensures var must := CheckMust(s, e, ranges, oracle);
            var may := CheckMay(s, e, ranges, oracle);
            var mayNot := CheckMayNot(s, e, ranges, oracle);
            && (must.verdict == Ok(true) <==> may.verdict == Ok(true) && mayNot.verdict == Ok(false))
            && (may.verdict.Ok? && mayNot.verdict.Ok? ==>
                  must.verdict == Ok(may.verdict.value && !mayNot.verdict.value))
            && (may.verdict == Ok(false) ==>
                  must == Answer(Ok(false), [Call(Command(s), QueryText(s, e, true, ranges))]))
            && (may.verdict == Ok(true) ==> must.calls == may.calls + mayNot.calls)
            && (must.verdict.Err? <==> may.verdict.Err? || (may.verdict == Ok(true) && mayNot.verdict.Err?))
            && (may.verdict.Err? ==> must == may)
  {
  }
}
