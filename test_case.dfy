/** One test of a fixture file, as run-spec.js keeps it: the properties the fixture
    gives it, and the ones the harness adds to the same object as the test goes
    through override, script building, execution and judgement. */
module TestCase {
  import opened Text
  import opened Fixture

  /** The test properties an override may replace. */
  datatype Field = DataField | TemplateField | SkipField

  /** What a snapshot keeps of one replaced property. */
  datatype FieldValue =
    | DataValue(data: Entries)
    | TemplateValue(template: string)
    | SkipValue(skip: Option<string>)

  /** The overridable part of a test, as a value. */
  datatype Fields = Fields(data: Entries, template: string, skip: Option<string>)

  /** The value of one overridable property. */
  function Get(f: Fields, k: Field): (v: FieldValue)
    ensures k == DataField <==> v.DataValue?
    ensures k == TemplateField <==> v.TemplateValue?
    ensures k == SkipField <==> v.SkipValue?
  {
    match k
    case DataField => DataValue(f.data)
    case TemplateField => TemplateValue(f.template)
    case SkipField => SkipValue(f.skip)
  }

  /** A string property that may be unset is truthy: it is set and not empty. */
  predicate HasText(s: Option<string>)
  {
    s.Some? && s.value != ""
  }

  /** A property the harness has not set yet is `None` (JavaScript's `undefined`);
      `isFailure` and `overridesApplied` are read only for their truthiness, so an
      unset one is `false`. */
  class Test {
    const name: string
    const desc: string
    const expected: string
    var data: Entries
    var template: string
    var skip: Option<string>
    var partials: Option<seq<(string, string)>>
    var fullName: Option<string>
    var script: Option<string>
    var output: Option<string>
    var scriptError: Option<string>
    var isFailure: bool
    var overridesApplied: bool
    var valuesBeforeOverride: Option<map<Field, FieldValue>>

    /** A test as its fixture file gives it. */
    constructor (name: string, desc: string, data: Entries, template: string, expected: string,
                 partials: Option<seq<(string, string)>>)
      ensures this.name == name && this.desc == desc && this.expected == expected
      ensures this.data == data && this.template == template && this.partials == partials
      ensures Unrun()
    {
      this.name := name;
      this.desc := desc;
      this.expected := expected;
      this.data := data;
      this.template := template;
      this.partials := partials;
      skip := None;
      fullName := None;
      script := None;
      output := None;
      scriptError := None;
      isFailure := false;
      overridesApplied := false;
      valuesBeforeOverride := None;
    }

    /** None of the properties the harness adds has been set. */
    predicate Unrun()
      reads this
    {
      skip.None? && fullName.None? && script.None? && output.None? && scriptError.None?
      && !isFailure && !overridesApplied && valuesBeforeOverride.None?
    }

    function Overridable(): Fields
      reads this
    {
      Fields(data, template, skip)
    }
  }
}
