/** The parallel search for a nonce: solvers, the results channel and the quit broadcast, over every
    interleaving. */
module SolveBlock {
  import opened WalletTypes
  import opened NonceRanges

  /** A solver is at its loop test with a counter, past the poll of quit and about to test a nonce,
      offering its result, or gone. */
  datatype Solver = Looping(i: uint32) | Testing(i: uint32) | Sending(result: Result) | Exited

  /** The solvers, how often quit has been closed, the results taken so far, the one taken but not yet
      looked at, whether one was a find, and the nonce of the header. */
  datatype Sys = Sys(
    solvers: seq<Solver>, closes: nat,
    received: nat, pending: Option<Result>,
    foundResult: bool, nonce: uint32)

  datatype Step = Advance(core: nat) | Receive(core: nat) | Inspect

  /** The number of cores, the nonce of the header passed in, and which nonces meet the target. */
  datatype Search = Search(numCores: uint32, nonce: uint32, good: uint32 -> bool) {
    function Ranges(c: nat): Range
      requires c < numCores
    {
      RangeOf(numCores, c)
    }
  }

  function Begin(q: Search): Sys {
    Sys(seq(q.numCores, c requires 0 <= c < q.numCores => Looping(q.Ranges(c).first)), 0, 0, None, false, q.nonce)
  }

  /** One step of a solver on its own. A closed quit channel is always noticed at the poll. */
  function Moved(q: Search, closed: bool, c: nat, solver: Solver): Solver
    requires c < q.numCores
  {
    match solver
    case Looping(i) =>
      if !InRange(i, q.Ranges(c)) then Sending(Result(false, 0))
      else if closed then Sending(Result(false, 0))
      else Testing(i)
    case Testing(i) => if q.good(i) then Sending(Result(true, i)) else Looping(Wrap(i + 1))
    case Sending(_) => solver
    case Exited => solver
  }

  predicate Can(q: Search, s: Sys, step: Step) {
    match step
    case Advance(c) => c < q.numCores && c < |s.solvers| && (s.solvers[c].Looping? || s.solvers[c].Testing?)
    case Receive(c) => c < |s.solvers| && s.solvers[c].Sending? && s.pending.None? && s.received < q.numCores
    case Inspect => s.pending.Some?
  }

  function Do(q: Search, s: Sys, step: Step): Sys
    requires Can(q, s, step)
  {
    match step
    case Advance(c) => s.(solvers := s.solvers[c := Moved(q, s.closes > 0, c, s.solvers[c])])
    case Receive(c) => s.(solvers := s.solvers[c := Exited], pending := Some(s.solvers[c].result))
    case Inspect =>
      var result := s.pending.value;
      var s1 := s.(pending := None, received := s.received + 1);
      if !s.foundResult && result.found then s1.(closes := s.closes + 1, nonce := result.nonce,
            foundResult := true) else s1
  }

  predicate StepAt(q: Search, states: seq<Sys>, steps: seq<Step>, i: nat)
    requires i < |steps| && i + 1 < |states|
  {
    Can(q, states[i], steps[i]) && states[i + 1] == Do(q, states[i], steps[i])
  }

  /** The states one interleaving passes through. */
  predicate Schedule(q: Search, states: seq<Sys>, steps: seq<Step>) {
    && |states| == |steps| + 1
    && states[0] == Begin(q)
    && (forall i :: 0 <= i < |steps| ==> StepAt(q, states, steps, i))
  }

  /** The collector has all results and returns. */
  predicate Returned(q: Search, s: Sys) {
    s.received == q.numCores && s.pending.None?
  }

  // ----- the invariant -----

  ghost predicate NoneGood(q: Search, r: Range, next: int) {
    forall x: uint32 :: r.first <= x < next && x <= r.last ==> !q.good(x)
  }

  /** What a result says of the range it was sent for. */
  ghost predicate Says(q: Search, s: Sys, c: nat, result: Result)
    requires c < q.numCores
  {
    if result.found then q.good(result.nonce) && InRange(result.nonce, q.Ranges(c))
    else s.foundResult || NoneGood(q, q.Ranges(c), UINT32_LIMIT)
  }

  ghost predicate SolverOk(q: Search, s: Sys, c: nat)
    requires c < q.numCores && c < |s.solvers|
  {
    var r := q.Ranges(c);
    match s.solvers[c]
    case Looping(i) =>
      if i >= r.first then NoneGood(q, r, i) && (i == r.first || i <= r.last + 1)
      else i == 0 && r.last == STOP_NONCE && NoneGood(q, r, UINT32_LIMIT)
    case Testing(i) => InRange(i, r) && NoneGood(q, r, i)
    case Sending(result) => Says(q, s, c, result)
    case Exited => s.foundResult || (s.pending.Some? && s.pending.value.found) || NoneGood(q, r, UINT32_LIMIT)
  }

  function Gone(solvers: seq<Solver>, n: nat): nat
    requires n <= |solvers|
  {
    if n == 0 then 0 else Gone(solvers, n - 1) + (if solvers[n - 1].Exited? then 1 else 0)
  }

  ghost predicate CollectorOk(q: Search, s: Sys) {
    && Gone(s.solvers, |s.solvers|) == s.received + (if s.pending.Some? then 1 else 0)
    && s.closes == (if s.foundResult then 1 else 0)
    && (if s.foundResult then q.good(s.nonce) && s.nonce >= START_NONCE else s.nonce == q.nonce)
    && (s.pending.Some? && s.pending.value.found ==>
          q.good(s.pending.value.nonce) && s.pending.value.nonce >= START_NONCE)
  }

  ghost predicate Ok(q: Search, s: Sys) {
    && |s.solvers| == q.numCores
    && CollectorOk(q, s)
    && (forall c :: 0 <= c < q.numCores ==> SolverOk(q, s, c))
  }

  lemma {:induction false} GoneUpdate(solvers: seq<Solver>, c: nat, v: Solver, n: nat)
    requires c < |solvers| && n <= |solvers|
    ensures Gone(solvers[c := v], n) == Gone(solvers, n) +
              (if c >= n then 0 else (if v.Exited? then 1 else 0) - (if solvers[c].Exited? then 1 else 0))
  {
    if n > 0 {
      GoneUpdate(solvers, c, v, n - 1);
    }
  }

  lemma {:induction false} GoneBound(solvers: seq<Solver>, n: nat)
    requires n <= |solvers|
    ensures Gone(solvers, n) <= n && (Gone(solvers, n) == n <==> forall c :: 0 <= c < n ==> solvers[c].Exited?)
  {
    if n > 0 {
      GoneBound(solvers, n - 1);
    }
  }

  lemma {:induction false} GoneNone(solvers: seq<Solver>, n: nat)
    requires n <= |solvers| && forall c :: 0 <= c < n ==> !solvers[c].Exited?
    ensures Gone(solvers, n) == 0
  {
    if n > 0 {
      GoneNone(solvers, n - 1);
    }
  }

  lemma BeginOk(q: Search)
    ensures Ok(q, Begin(q))
  {
    var s := Begin(q);
    GoneNone(s.solvers, |s.solvers|);
  }

  lemma FirstIsPositive(q: Search, c: nat)
    requires c < q.numCores
    ensures q.Ranges(c).first >= START_NONCE
  {
    BoundsExact(q.numCores, c);
    PerCoreBounds(q.numCores, c);
  }

  lemma AdvanceOk(q: Search, s: Sys, c: nat)
    requires Ok(q, s) && Can(q, s, Advance(c))
    ensures Ok(q, Do(q, s, Advance(c)))
  {
    hide RangeOf;
    var s2 := Do(q, s, Advance(c));
    GoneUpdate(s.solvers, c, s2.solvers[c], |s.solvers|);
    FirstIsPositive(q, c);
    assert SolverOk(q, s, c);
    forall d | 0 <= d < q.numCores ensures SolverOk(q, s2, d) {
      assert SolverOk(q, s, d);
    }
  }

  lemma ReceiveOk(q: Search, s: Sys, c: nat)
    requires Ok(q, s) && Can(q, s, Receive(c))
    ensures Ok(q, Do(q, s, Receive(c)))
  {
    hide RangeOf;
    var s2 := Do(q, s, Receive(c));
    GoneUpdate(s.solvers, c, Exited, |s.solvers|);
    FirstIsPositive(q, c);
    assert SolverOk(q, s, c);
    forall d | 0 <= d < q.numCores ensures SolverOk(q, s2, d) {
      assert SolverOk(q, s, d);
    }
  }

  lemma InspectOk(q: Search, s: Sys)
    requires Ok(q, s) && Can(q, s, Inspect)
    ensures Ok(q, Do(q, s, Inspect))
  {
    hide RangeOf;
    var s2 := Do(q, s, Inspect);
    forall d | 0 <= d < q.numCores ensures SolverOk(q, s2, d) {
      assert SolverOk(q, s, d);
    }
  }

  lemma StepOk(q: Search, s: Sys, step: Step)
    requires Ok(q, s) && Can(q, s, step)
    ensures Ok(q, Do(q, s, step))
  {
    match step
    case Advance(c) => AdvanceOk(q, s, c);
    case Receive(c) => ReceiveOk(q, s, c);
    case Inspect => InspectOk(q, s);
  }

  lemma {:induction false} ScheduleOk(q: Search, states: seq<Sys>, steps: seq<Step>, n: nat)
    requires Schedule(q, states, steps) && n <= |steps|
    ensures Ok(q, states[n])
  {
    hide Ok, Can, Do;
    if n == 0 {
      BeginOk(q);
    } else {
      ScheduleOk(q, states, steps, n - 1);
      assert StepAt(q, states, steps, n - 1);
      StepOk(q, states[n - 1], steps[n - 1]);
    }
  }

  // ----- what the search returns -----

  ghost predicate Solvable(q: Search) {
    exists x: uint32 :: x >= 1 && q.good(x)
  }

  /** Whatever the interleaving and the number of cores, the search returns true exactly if some nonce
      from 1 to the largest meets the target; then the header holds such a nonce, and else it is as it
      was passed in. */
  lemma SearchCorrect(q: Search, states: seq<Sys>, steps: seq<Step>, n: nat)
    requires q.numCores > 0 && Schedule(q, states, steps) && n <= |steps| && Returned(q, states[n])
    ensures states[n].foundResult <==> Solvable(q)
    ensures states[n].foundResult ==> q.good(states[n].nonce) && states[n].nonce >= 1
    ensures !states[n].foundResult ==> states[n].nonce == q.nonce
  {
    hide RangeOf, InRange, CoreOf;
    ScheduleOk(q, states, steps, n);
    var s := states[n];
    GoneBound(s.solvers, |s.solvers|);
    if !s.foundResult && Solvable(q) {
      var x: uint32 :| x >= 1 && q.good(x);
      var c := CoreOf(q.numCores, x);
      RangesPartition(q.numCores, x, 0);
      RangesPartition(q.numCores, x, c);
      assert s.solvers[c].Exited? && SolverOk(q, s, c);
      NotGoodInRange(q, c, x);
      assert false;
    }
  }

  lemma NotGoodInRange(q: Search, c: nat, x: uint32)
    requires c < q.numCores && NoneGood(q, q.Ranges(c), UINT32_LIMIT) && InRange(x, q.Ranges(c))
    ensures !q.good(x)
  {
  }

  /** A solver that reports nothing although its range holds a good nonce does so only once a find has
      been received; quit is closed at most once, and only then. */
  lemma CalledOffOnlyAfterFind(q: Search, states: seq<Sys>, steps: seq<Step>, n: nat, c: nat, x: uint32)
    requires Schedule(q, states, steps) && n <= |steps| && c < q.numCores
    requires |states[n].solvers| == q.numCores && states[n].solvers[c] == Sending(Result(false, 0))
    requires InRange(x, q.Ranges(c)) && q.good(x)
    ensures states[n].foundResult && states[n].closes == 1
  {
    ScheduleOk(q, states, steps, n);
    assert SolverOk(q, states[n], c);
    if !states[n].foundResult {
      NotGoodInRange(q, c, x);
      assert false;
    }
  }

  /** The collector has taken one result from each solver that is gone and none from the others, and quit
      is closed once if a find was received and never otherwise. */
  lemma OneResultEach(q: Search, states: seq<Sys>, steps: seq<Step>, n: nat)
    requires Schedule(q, states, steps) && n <= |steps|
    ensures var s := states[n];
            && |s.solvers| == q.numCores
            && s.received + (if s.pending.Some? then 1 else 0) == Gone(s.solvers, |s.solvers|) <= q.numCores
            && s.closes == (if s.foundResult then 1 else 0)
            && (Returned(q, s) ==> forall c :: 0 <= c < q.numCores ==> s.solvers[c].Exited?)
  {
    ScheduleOk(q, states, steps, n);
    GoneBound(states[n].solvers, |states[n].solvers|);
  }

  /** Until the collector returns, some step can be taken. */
  lemma NeverStuck(q: Search, states: seq<Sys>, steps: seq<Step>, n: nat)
    requires Schedule(q, states, steps) && n <= |steps| && !Returned(q, states[n])
    ensures exists step :: Can(q, states[n], step)
  {
    hide SolverOk;
    ScheduleOk(q, states, steps, n);
    var s := states[n];
    GoneBound(s.solvers, |s.solvers|);
    if s.pending.Some? {
      assert Can(q, s, Inspect);
    } else {
      var c :| 0 <= c < q.numCores && !s.solvers[c].Exited?;
      assert Can(q, s, Advance(c)) || Can(q, s, Receive(c));
    }
  }

  // ----- every interleaving ends -----

  /** Steps a solver has left, and what the collector has left to do with its result. */
  function Left(q: Search, c: nat, solver: Solver): nat
    requires c < q.numCores
  {
    var r := q.Ranges(c);
    match solver
    case Looping(i) => if InRange(i, r) then 2 * (r.last - i) + 5 else 3
    case Testing(i) => if InRange(i, r) then 2 * (r.last - i) + 4 else 4
    case Sending(_) => 2
    case Exited => 0
  }

  function TotalLeft(q: Search, solvers: seq<Solver>, n: nat): nat
    requires n <= |solvers| <= q.numCores
  {
    if n == 0 then 0 else TotalLeft(q, solvers, n - 1) + Left(q, n - 1, solvers[n - 1])
  }

  lemma {:induction false} LeftUpdate(q: Search, solvers: seq<Solver>, c: nat, v: Solver, n: nat)
    requires c < |solvers| <= q.numCores && n <= |solvers|
    ensures TotalLeft(q, solvers[c := v], n)
          == TotalLeft(q, solvers, n) + (if c < n then Left(q, c, v) - Left(q, c, solvers[c]) else 0)
  {
    hide Left;
    if n > 0 {
      LeftUpdate(q, solvers, c, v, n - 1);
    }
  }

  function Measure(q: Search, s: Sys): nat
    requires |s.solvers| == q.numCores
  {
    TotalLeft(q, s.solvers, |s.solvers|) + (if s.pending.Some? then 1 else 0)
  }

  lemma StepDescends(q: Search, s: Sys, step: Step)
    requires Ok(q, s) && Can(q, s, step)
    ensures |Do(q, s, step).solvers| == q.numCores && Measure(q, Do(q, s, step)) < Measure(q, s)
  {
    hide RangeOf;
    match step
    case Advance(c) =>
      assert SolverOk(q, s, c);
      FirstIsPositive(q, c);
      LeftUpdate(q, s.solvers, c, Do(q, s, step).solvers[c], |s.solvers|);
    case Receive(c) => LeftUpdate(q, s.solvers, c, Exited, |s.solvers|);
    case Inspect =>
  }

  /** No interleaving takes more steps than the measure at its start. */
  lemma {:induction false} SchedulesEnd(q: Search, states: seq<Sys>, steps: seq<Step>, n: nat)
    requires Schedule(q, states, steps) && n <= |steps|
    ensures |states[n].solvers| == q.numCores && n + Measure(q, states[n]) <= Measure(q, Begin(q))
  {
    hide Ok, Can, Do, Measure;
    ScheduleOk(q, states, steps, n);
    if n > 0 {
      SchedulesEnd(q, states, steps, n - 1);
      ScheduleOk(q, states, steps, n - 1);
      assert StepAt(q, states, steps, n - 1);
      StepDescends(q, states[n - 1], steps[n - 1]);
    }
  }

  // ----- after a find -----

  /** Steps a solver has left at most once quit is closed, and the collector with its result. */
  function LeftOnceClosed(solver: Solver): nat {
    match solver
    case Looping(_) => 3
    case Testing(_) => 4
    case Sending(_) => 2
    case Exited => 0
  }

  function AllLeftOnceClosed(solvers: seq<Solver>, n: nat): nat
    requires n <= |solvers|
  {
    if n == 0 then 0 else AllLeftOnceClosed(solvers, n - 1) + LeftOnceClosed(solvers[n - 1])
  }

  function MeasureOnceClosed(s: Sys): nat {
    AllLeftOnceClosed(s.solvers, |s.solvers|) + (if s.pending.Some? then 1 else 0)
  }

  lemma {:induction false} ClosedUpdate(solvers: seq<Solver>, c: nat, v: Solver, n: nat)
    requires c < |solvers| && n <= |solvers|
    ensures AllLeftOnceClosed(solvers[c := v], n) ==
            AllLeftOnceClosed(solvers, n) + (if c < n then LeftOnceClosed(v) - LeftOnceClosed(solvers[c]) else 0)
  {
    if n > 0 {
      ClosedUpdate(solvers, c, v, n - 1);
    }
  }

  lemma {:induction false} ClosedBound(solvers: seq<Solver>, n: nat)
    requires n <= |solvers|
    ensures AllLeftOnceClosed(solvers, n) <= 4 * n
  {
    if n > 0 {
      ClosedBound(solvers, n - 1);
    }
  }

  lemma ClosedStep(q: Search, s: Sys, step: Step)
    requires |s.solvers| == q.numCores && s.closes > 0 && Can(q, s, step)
    ensures var s2 := Do(q, s, step);
            |s2.solvers| == q.numCores && s2.closes > 0 && MeasureOnceClosed(s2) < MeasureOnceClosed(s)
  {
    match step
    case Advance(c) => ClosedUpdate(s.solvers, c, Do(q, s, step).solvers[c], |s.solvers|);
    case Receive(c) => ClosedUpdate(s.solvers, c, Exited, |s.solvers|);
    case Inspect =>
  }

  lemma {:induction false} ClosedRun(q: Search, states: seq<Sys>, steps: seq<Step>, i: nat, n: nat)
    requires Schedule(q, states, steps) && i <= n <= |steps|
    requires |states[i].solvers| == q.numCores && states[i].closes > 0
    ensures |states[n].solvers| == q.numCores && states[n].closes > 0
    ensures n + MeasureOnceClosed(states[n]) <= i + MeasureOnceClosed(states[i])
  {
    hide Can, Do, MeasureOnceClosed;
    if i < n {
      ClosedRun(q, states, steps, i, n - 1);
      assert StepAt(q, states, steps, n - 1);
      ClosedStep(q, states[n - 1], steps[n - 1]);
    }
  }

  /** A find ends the search: once quit is closed at most four more steps per core and one more are taken
      in all, however many nonces are still untested. */
  lemma FindEndsSearch(q: Search, states: seq<Sys>, steps: seq<Step>, i: nat, n: nat)
    requires Schedule(q, states, steps) && i <= n <= |steps| && states[i].closes > 0
    ensures n - i <= 4 * q.numCores + 1
  {
    hide Ok;
    ScheduleOk(q, states, steps, i);
    SolversCounted(q, states[i]);
    ClosedRun(q, states, steps, i, n);
    ClosedBound(states[i].solvers, q.numCores);
  }

  lemma SolversCounted(q: Search, s: Sys)
    requires Ok(q, s)
    ensures |s.solvers| == q.numCores
  {
  }

  // ----- the collector -----

  /** What the machine's collector holds after looking at these results in order. */
  function Collected(q: Search, results: seq<Result>): Sys
    requires |results| <= q.numCores
  {
    if results == [] then Begin(q)
    else
      var s := Collected(q, results[..|results| - 1]).(pending := Some(results[|results| - 1]));
      Do(q, s, Inspect)
  }

  /** The collector's loop over the results in the order they arrive: the nonce is that of the first
      find, quit is closed at that find and never again. */
  method Collect(q: Search, results: seq<Result>) returns (foundResult: bool, nonce: uint32, closes: nat)
    requires |results| == q.numCores
    ensures var s := Collected(q, results); foundResult == s.foundResult && nonce == s.nonce && closes == s.closes
    ensures foundResult <==> exists k :: 0 <= k < |results| && results[k].found
    ensures foundResult ==> exists k :: 0 <= k < |results| && results[k] == Result(true, nonce) &&
                                        forall j :: 0 <= j < k ==> !results[j].found
    ensures closes == (if foundResult then 1 else 0) && (!foundResult ==> nonce == q.nonce)
  {
    foundResult, nonce, closes := false, q.nonce, 0;
    ghost var first: nat := 0;
    for i := 0 to q.numCores
      invariant var s := Collected(q, results[..i]);
                foundResult == s.foundResult && nonce == s.nonce && closes == s.closes
      invariant closes == (if foundResult then 1 else 0)
      invariant if foundResult then first < i && results[first] == Result(true, nonce)
                else first == i && nonce == q.nonce
      invariant forall j :: 0 <= j < first ==> !results[j].found
    {
      assert results[..i + 1][..i] == results[..i];
      var result := results[i];
      if !foundResult && result.found {
        closes := closes + 1;
        nonce := result.nonce;
        foundResult := true;
      } else if !foundResult {
        first := i + 1;
      }
    }
    assert results[..q.numCores] == results;
  }
}
