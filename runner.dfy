/** How run-spec.js runs the tests of one fixture file and judges them: `runTest`
    with the execution of the script given as a parameter, `detectFailure`, and the
    counting at the end of `processSpecFile`. */
module Runner {
  import opened Text
  import opened TestCase
  import opened Overrides
  import opened ScriptBuilder
  import opened GroupName

  /** What running a test's script gives: everything it printed, and the text of the
      error when the process failed or timed out. */
  datatype Execution = Execution(stdout: string, error: Option<string>)

  /** `detectFailure`: a test fails when its script reported an error or when its
      output is not exactly the expected text; nothing is trimmed or normalised. */
  function DetectFailure(scriptError: Option<string>, output: Option<string>, expected: string): (failed: bool)
    ensures HasText(scriptError) ==> failed
    ensures output != Some(expected) ==> failed
    ensures !HasText(scriptError) && output == Some(expected) ==> !failed
  {
    HasText(scriptError) || output != Some(expected)
  }

  /** Output that differs from the expected text in any way fails, even when it only
      adds a trailing line feed. */
  lemma TrailingNewlineFails(expected: string)
    ensures DetectFailure(None, Some(expected + "\n"), expected)
  {
    assert |expected + "\n"| != |expected|;
  }

  /** A script without error passes exactly when it printed the expected text. */
  lemma PassIffExactOutput(stdout: string, expected: string)
    ensures !DetectFailure(None, Some(stdout), expected) <==> stdout == expected
  {
  }

  /** The decision part of `runTest`. Partials default to an empty set, the full name
      is "<group> -> <test>", overrides are applied under that name, and the script is
      built from the data as the overrides left it. A test whose (possibly overridden)
      `skip` is truthy stops there, before any setup or execution; otherwise the
      execution's output is stored, its error when there is one, and the verdict. */
  method RunTest(overrides: map<string, Override>, groupName: string, test: Test, execution: Execution) returns (executed: bool)
    modifies test
    ensures test.partials == if old(test.partials).Some? then old(test.partials) else Some([])
    ensures test.fullName == Some(groupName + " -> " + test.name)
    ensures var o := OverrideFor(overrides, test.fullName);
      && test.Overridable() == (if o.Some? then Overridden(o.value, old(test.Overridable())) else old(test.Overridable()))
      && test.overridesApplied == (o.Some? || old(test.overridesApplied))
      && test.valuesBeforeOverride ==
         (if o.Some? then Some(Originals(o.value, old(test.Overridable()))) else old(test.valuesBeforeOverride))
    ensures test.script == Some(Script(test.data))
    ensures executed == !HasText(test.skip)
    ensures !executed ==>
      test.output == old(test.output) && test.scriptError == old(test.scriptError) && test.isFailure == old(test.isFailure)
    ensures executed ==>
      && test.output == Some(execution.stdout)
      && test.scriptError == (if execution.error.Some? then execution.error else old(test.scriptError))
      && test.isFailure == DetectFailure(test.scriptError, test.output, test.expected)
  {
    if test.partials.None? {
      test.partials := Some([]);
    }
    test.fullName := Some(groupName + " -> " + test.name);
    ApplyTestOverrides(overrides, test);
    var script := BuildScript(test.data);
    test.script := Some(script);
    if HasText(test.skip) {
      return false;
    }
    if execution.error.Some? {
      test.scriptError := execution.error;
    }
    test.output := Some(execution.stdout);
    test.isFailure := DetectFailure(test.scriptError, test.output, test.expected);
    return true;
  }

  /** Where a test that had not run before stands after `RunTest`, given the values
      `before` its overridable properties held: the table's entry for its full name,
      if any, has replaced them and its snapshot holds what they were. */
  predicate Ran(overrides: map<string, Override>, t: Test, groupName: string, execution: Execution, before: Fields)
    reads t
  {
    var o := OverrideFor(overrides, t.fullName);
    && t.partials.Some?
    && t.fullName == Some(groupName + " -> " + t.name)
    && t.Overridable() == (if o.Some? then Overridden(o.value, before) else before)
    && t.overridesApplied == o.Some?
    && t.valuesBeforeOverride == (if o.Some? then Some(Originals(o.value, before)) else None)
    && t.script == Some(Script(t.data))
    && (HasText(t.skip) ==> t.output.None? && t.scriptError.None? && !t.isFailure)
    && (!HasText(t.skip) ==>
         t.output == Some(execution.stdout) && t.scriptError == execution.error
         && t.isFailure == DetectFailure(execution.error, Some(execution.stdout), t.expected))
  }

  /** `RunTest` on a test that has not run before. */
  method RunFresh(overrides: map<string, Override>, groupName: string, test: Test, execution: Execution)
    requires test.Unrun()
    modifies test
    ensures Ran(overrides, test, groupName, execution, old(test.Overridable()))
  {
    var executed := RunTest(overrides, groupName, test, execution);
  }

  /** The three verdicts of the counting loop; a pass records whether overrides were applied. */
  datatype Outcome = Failed | Skipped | Passed(overridden: bool)

  /** The branch the counting loop takes for a test: failure first, then skip, then pass. */
  function Classify(isFailure: bool, skip: Option<string>, overridesApplied: bool): Outcome
  {
    if isFailure then Failed else if HasText(skip) then Skipped else Passed(overridesApplied)
  }

  function OutcomeOf(t: Test): Outcome
    reads t
  {
    Classify(t.isFailure, t.skip, t.overridesApplied)
  }

  function Outcomes(ts: seq<Test>): (os: seq<Outcome>)
    reads set i | 0 <= i < |ts| :: ts[i]
    ensures |os| == |ts| && forall i :: 0 <= i < |ts| ==> os[i] == OutcomeOf(ts[i])
  {
    seq(|ts|, i reads set i | 0 <= i < |ts| :: ts[i] requires 0 <= i < |ts| => OutcomeOf(ts[i]))
  }

  /** A test that has run is skipped exactly when its `skip` is truthy, fails exactly when
      it was executed and `DetectFailure` holds of its execution, and otherwise passes,
      counted as overridden exactly when the table has an entry for its full name. */
  lemma RunOutcome(overrides: map<string, Override>, t: Test, groupName: string, execution: Execution, before: Fields)
    requires Ran(overrides, t, groupName, execution, before)
    ensures OutcomeOf(t) == Skipped <==> HasText(t.skip)
    ensures OutcomeOf(t) == Failed <==>
      !HasText(t.skip) && DetectFailure(execution.error, Some(execution.stdout), t.expected)
    ensures OutcomeOf(t).Passed? ==> OutcomeOf(t).overridden == OverrideFor(overrides, t.fullName).Some?
  {
  }

  /** The table's entry for a full name sets a truthy `skip`. */
  predicate TableSkips(overrides: map<string, Override>, fullName: Option<string>)
  {
    var o := OverrideFor(overrides, fullName);
    o.Some? && o.value.skip.Some? && o.value.skip.value != ""
  }

  /** Which tests are skipped is decided by the table: a test is counted as skipped
      exactly when its table entry sets a truthy `skip`, or, when the entry sets no
      `skip` at all, when the fixture's own `skip` was truthy. */
  lemma SkippedByTable(overrides: map<string, Override>, t: Test, groupName: string, execution: Execution,
                       before: Fields)
    requires Ran(overrides, t, groupName, execution, before)
    ensures var o := OverrideFor(overrides, t.fullName);
      OutcomeOf(t) == Skipped <==>
        if o.Some? && o.value.skip.Some? then TableSkips(overrides, t.fullName) else HasText(before.skip)
  {
  }

  /** The counters `pass`, `fail`, `skip` and `passOverride`. */
  datatype Tally = Tally(pass: nat, fail: nat, skip: nat, passOverride: nat)

  /** One step of the counting loop. */
  function Tick(t: Tally, o: Outcome): Tally
  {
    match o
    case Failed => t.(fail := t.fail + 1)
    case Skipped => t.(skip := t.skip + 1)
    case Passed(overridden) =>
      t.(pass := t.pass + 1, passOverride := if overridden then t.passOverride + 1 else t.passOverride)
  }

  /** The counters after the loop has gone through `os` in order from zero. */
  function TallyOf(os: seq<Outcome>): Tally
  {
    if os == [] then Tally(0, 0, 0, 0) else Tick(TallyOf(os[..|os| - 1]), os[|os| - 1])
  }

  /** Each counter counts the tests of its verdict; `passOverride` counts the passes with
      overrides, among the passes. */
  lemma {:induction false} TallyCounts(os: seq<Outcome>)
    ensures TallyOf(os).fail == multiset(os)[Failed]
    ensures TallyOf(os).skip == multiset(os)[Skipped]
    ensures TallyOf(os).pass == multiset(os)[Passed(false)] + multiset(os)[Passed(true)]
    ensures TallyOf(os).passOverride == multiset(os)[Passed(true)]
  {
    if os != [] {
      var init := os[..|os| - 1];
      TallyCounts(init);
      assert os == init + [os[|os| - 1]];
    }
  }

  /** Every test is counted exactly once, and passes with overrides are among the passes. */
  lemma {:induction false} TallyTotal(os: seq<Outcome>)
    ensures TallyOf(os).pass + TallyOf(os).fail + TallyOf(os).skip == |os|
    ensures TallyOf(os).passOverride <= TallyOf(os).pass
  {
    if os != [] {
      TallyTotal(os[..|os| - 1]);
    }
  }

  /** A parsed fixture file: its tests, and what the harness adds to it. */
  class TestSet {
    var name: Option<string>
    const tests: seq<Test>
    var pass: nat
    var fail: nat
    var skip: nat
    var passOverride: nat

    constructor (tests: seq<Test>)
      ensures this.tests == tests && name.None? && Counts() == Tally(0, 0, 0, 0)
    {
      this.tests := tests;
      name := None;
      pass, fail, skip, passOverride := 0, 0, 0, 0;
    }

    function Counts(): Tally
      reads this
    {
      Tally(pass, fail, skip, passOverride)
    }

    /** The counting loop of `processSpecFile`. */
    method CountOutcomes()
      modifies this`pass, this`fail, this`skip, this`passOverride
      ensures Counts() == TallyOf(Outcomes(tests))
    {
      ghost var os := Outcomes(tests);
      pass, fail, skip, passOverride := 0, 0, 0, 0;
      for i := 0 to |tests|
        invariant Counts() == TallyOf(os[..i])
      {
        assert os[..i + 1][..i] == os[..i];
        var test := tests[i];
        if test.isFailure {
          fail := fail + 1;
        } else if HasText(test.skip) {
          skip := skip + 1;
        } else {
          pass := pass + 1;
          if test.overridesApplied {
            passOverride := passOverride + 1;
          }
        }
      }
      assert os[..|tests|] == os;
    }

    /** Runs every test in order, each with its own execution. */
    method RunAll(overrides: map<string, Override>, groupName: string, executions: seq<Execution>)
      requires |executions| == |tests|
      requires forall i, j :: 0 <= i < j < |tests| ==> tests[i] != tests[j]
      requires forall i :: 0 <= i < |tests| ==> tests[i].Unrun()
      modifies set i | 0 <= i < |tests| :: tests[i]
      ensures forall i :: 0 <= i < |tests| ==>
        Ran(overrides, tests[i], groupName, executions[i], old(tests[i].Overridable()))
    {
      for i := 0 to |tests|
        invariant forall j :: 0 <= j < i ==>
          Ran(overrides, tests[j], groupName, executions[j], old(tests[j].Overridable()))
        invariant forall j :: i <= j < |tests| ==>
          tests[j].Unrun() && tests[j].Overridable() == old(tests[j].Overridable())
      {
        RunFresh(overrides, groupName, tests[i], executions[i]);
      }
    }

    /** `processSpecFile` once the file is parsed: the group is named after the file,
        every test is run in order with its own execution, and the verdicts are counted. */
    method ProcessSpecFile(filename: string, executions: seq<Execution>)
      requires |executions| == |tests|
      requires forall i, j :: 0 <= i < j < |tests| ==> tests[i] != tests[j]
      requires forall i :: 0 <= i < |tests| ==> tests[i].Unrun()
      modifies this, set i | 0 <= i < |tests| :: tests[i]
      ensures name == Some(SpecFileToName(filename))
      ensures forall i :: 0 <= i < |tests| ==>
        Ran(TestOverrides, tests[i], SpecFileToName(filename), executions[i], old(tests[i].Overridable()))
      ensures forall i :: 0 <= i < |tests| ==> (OutcomeOf(tests[i]) == Skipped <==> TableSkips(TestOverrides, tests[i].fullName))
      ensures Counts() == TallyOf(Outcomes(tests))
      ensures pass + fail + skip == |tests| && passOverride <= pass
    {
      var groupName := SpecFileToName(filename);
      name := Some(groupName);
      RunAll(TestOverrides, groupName, executions);
      forall i | 0 <= i < |tests|
        ensures OutcomeOf(tests[i]) == Skipped <==> TableSkips(TestOverrides, tests[i].fullName)
      {
        SkippedByTable(TestOverrides, tests[i], groupName, executions[i], old(tests[i].Overridable()));
      }
      CountOutcomes();
      TallyTotal(Outcomes(tests));
    }
  }
}
