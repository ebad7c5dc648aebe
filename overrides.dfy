/** The override table of run-spec.js and `applyTestOverrides`, which replaces the
    properties an entry names, keeps what they held before and marks the test. */
module Overrides {
  import opened Text
  import opened Fixture
  import opened TestCase

  /** One table entry: the properties it sets, each given at most once, as a
      JavaScript object literal gives each key once. */
  datatype Override = Override(data: Option<Entries>, template: Option<string>, skip: Option<string>)

  /** One `[key, value]` pair of `Object.entries(overrides)`. */
  datatype Patch = SetData(data: Entries) | SetTemplate(template: string) | SetSkip(reason: string)

  function FieldOf(p: Patch): Field
  {
    match p
    case SetData(_) => DataField
    case SetTemplate(_) => TemplateField
    case SetSkip(_) => SkipField
  }

  /** The value a patch stores, as the property then reads. */
  function PatchValue(p: Patch): FieldValue
  {
    match p
    case SetData(d) => DataValue(d)
    case SetTemplate(t) => TemplateValue(t)
    case SetSkip(r) => SkipValue(Some(r))
  }

  /** The entries of an override in the order the table writes its keys. */
  function Patches(o: Override): seq<Patch>
  {
    (if o.data.Some? then [SetData(o.data.value)] else [])
    + (if o.template.Some? then [SetTemplate(o.template.value)] else [])
    + (if o.skip.Some? then [SetSkip(o.skip.value)] else [])
  }

  /** `test[key] = value`. */
  function ApplyPatch(f: Fields, p: Patch): Fields
  {
    match p
    case SetData(d) => f.(data := d)
    case SetTemplate(t) => f.(template := t)
    case SetSkip(r) => f.(skip := Some(r))
  }

  /** The properties after the assignments of `ps`, in order. */
  function ApplyAll(ps: seq<Patch>, f: Fields): Fields
  {
    if ps == [] then f else ApplyPatch(ApplyAll(ps[..|ps| - 1], f), ps[|ps| - 1])
  }

  /** `originals` after the loop over `ps`: each step records the property as it
      reads just before that step assigns it. */
  function Snapshots(ps: seq<Patch>, f: Fields): map<Field, FieldValue>
  {
    if ps == [] then map[]
    else
      var init := ps[..|ps| - 1];
      var k := FieldOf(ps[|ps| - 1]);
      Snapshots(init, f)[k := Get(ApplyAll(init, f), k)]
  }

  /** The fields the patches assign. */
  function FieldsOf(ps: seq<Patch>): set<Field>
  {
    set i | 0 <= i < |ps| :: FieldOf(ps[i])
  }

  predicate DistinctFields(ps: seq<Patch>)
  {
    forall i, j :: 0 <= i < j < |ps| ==> FieldOf(ps[i]) != FieldOf(ps[j])
  }

  /** What an override leaves: each property it names holds the table's value as is,
      the data object included, and every other property keeps its value. */
  function Overridden(o: Override, f: Fields): Fields
  {
    Fields(if o.data.Some? then o.data.value else f.data,
           if o.template.Some? then o.template.value else f.template,
           if o.skip.Some? then Some(o.skip.value) else f.skip)
  }

  /** `valuesBeforeOverride`: the previous value of each property the override names. */
  function Originals(o: Override, f: Fields): map<Field, FieldValue>
  {
    map k | k in FieldsOf(Patches(o)) :: Get(f, k)
  }

  /** A property no patch names keeps its value. */
  lemma {:induction false} Untouched(ps: seq<Patch>, f: Fields, k: Field)
    requires forall i :: 0 <= i < |ps| ==> FieldOf(ps[i]) != k
    ensures Get(ApplyAll(ps, f), k) == Get(f, k)
  {
    if ps != [] {
      Untouched(ps[..|ps| - 1], f, k);
    }
  }

  /** A property named by a patch ends up holding that patch's value as a whole when no
      later patch names it: assignment replaces, it never merges. */
  lemma {:induction false} LastPatchWins(ps: seq<Patch>, f: Fields, i: nat)
    requires i < |ps|
    requires forall j :: i < j < |ps| ==> FieldOf(ps[j]) != FieldOf(ps[i])
    ensures Get(ApplyAll(ps, f), FieldOf(ps[i])) == PatchValue(ps[i])
  {
    if i < |ps| - 1 {
      LastPatchWins(ps[..|ps| - 1], f, i);
    }
  }

  /** When each property is assigned at most once, the snapshot holds exactly the
      assigned properties, each with its value from before any assignment. */
  lemma {:induction false} SnapshotsHoldOriginals(ps: seq<Patch>, f: Fields)
    requires DistinctFields(ps)
    ensures Snapshots(ps, f) == map k | k in FieldsOf(ps) :: Get(f, k)
  {
    if ps != [] {
      var init := ps[..|ps| - 1];
      var k := FieldOf(ps[|ps| - 1]);
      SnapshotsHoldOriginals(init, f);
      Untouched(init, f, k);
      assert FieldsOf(ps) == FieldsOf(init) + {k} by {
        forall x | x in FieldsOf(ps) ensures x in FieldsOf(init) + {k} {
          var i :| 0 <= i < |ps| && FieldOf(ps[i]) == x;
          if i < |init| { assert FieldOf(init[i]) == x; }
        }
        forall x | x in FieldsOf(init) ensures x in FieldsOf(ps) {
          var i :| 0 <= i < |init| && FieldOf(init[i]) == x;
          assert FieldOf(ps[i]) == x;
        }
      }
    }
  }

  /** An entry assigns each property at most once, and exactly the properties it sets. */
  lemma PatchesDistinct(o: Override)
    ensures DistinctFields(Patches(o))
    ensures DataField in FieldsOf(Patches(o)) <==> o.data.Some?
    ensures TemplateField in FieldsOf(Patches(o)) <==> o.template.Some?
    ensures SkipField in FieldsOf(Patches(o)) <==> o.skip.Some?
  {
    var ps := Patches(o);
    if o.data.Some? {
      assert FieldOf(ps[0]) == DataField;
    }
    if o.template.Some? {
      assert FieldOf(ps[if o.data.Some? then 1 else 0]) == TemplateField;
    }
    if o.skip.Some? {
      assert FieldOf(ps[|ps| - 1]) == SkipField;
    }
  }

  /** Assigning `ps` and then `qs` is assigning `ps + qs`. */
  lemma {:induction false} ApplyAllAppend(ps: seq<Patch>, qs: seq<Patch>, f: Fields)
    ensures ApplyAll(ps + qs, f) == ApplyAll(qs, ApplyAll(ps, f))
  {
    if qs == [] {
      assert ps + qs == ps;
    } else {
      assert (ps + qs)[..|ps + qs| - 1] == ps + qs[..|qs| - 1];
      ApplyAllAppend(ps, qs[..|qs| - 1], f);
    }
  }

  /** Running the assignments of an entry one after the other gives `Overridden`. */
  lemma ApplyPatches(o: Override, f: Fields)
    ensures ApplyAll(Patches(o), f) == Overridden(o, f)
  {
    var a := if o.data.Some? then [SetData(o.data.value)] else [];
    var b := if o.template.Some? then [SetTemplate(o.template.value)] else [];
    var c := if o.skip.Some? then [SetSkip(o.skip.value)] else [];
    ApplyAllAppend(a + b, c, f);
    ApplyAllAppend(a, b, f);
    var f1 := ApplyAll(a, f);
    var f2 := ApplyAll(b, f1);
    assert f1 == if o.data.Some? then f.(data := o.data.value) else f;
    assert f2 == if o.template.Some? then f1.(template := o.template.value) else f1;
  }

  /** The entry's snapshot is `Originals`. */
  lemma SnapshotPatches(o: Override, f: Fields)
    ensures Snapshots(Patches(o), f) == Originals(o, f)
  {
    PatchesDistinct(o);
    SnapshotsHoldOriginals(Patches(o), f);
  }

  function SkipOnly(reason: string): Override
  {
    Override(None, None, Some(reason))
  }

  const HtmlEscaping: string := "HTML escaping is not supported"
  const ImplicitIteratorOutsideLoop: string := "Can not use {{.}} outside of a loop. Need to use a variable name."
  const DeepNesting: string := "Deeply nested objects are not supported"

  /** `testOverrides`, keyed by the full test name "<group> -> <test>". */
  const TestOverrides: map<string, Override> := map[
    "Comments -> Variable Name Collision" :=
      Override(Some([("comment", Num(4))]), None, None),
    "Interpolation -> Dotted Names - Arbitrary Depth" :=
      SkipOnly("Not able to use more than one level of depth"),
    "Interpolation -> Dotted Names - Broken Chain Resolution" :=
      Override(Some([("a", Obj([("b", Str("wrong"))])), ("name", Str("Jim"))]),
               Some("\"{{a.name}}\" == \"\""), None),
    "Interpolation -> Dotted Names - Initial Resolution" :=
      Override(Some([("a", Obj([("name", Str("Phil"))])), ("name", Str("Wrong"))]),
               Some("\"{{#a}}{{name}}{{/a}}\" == \"Phil\""), None),
    "Interpolation -> Implicit Iterators - Ampersand" := SkipOnly(HtmlEscaping),
    "Interpolation -> Implicit Iterators - Basic Interpolation" := SkipOnly(ImplicitIteratorOutsideLoop),
    "Interpolation -> Implicit Iterators - Basic Integer Interpolation" := SkipOnly(ImplicitIteratorOutsideLoop),
    "Interpolation -> Implicit Iterators - Triple Mustache" := SkipOnly(ImplicitIteratorOutsideLoop),
    "Interpolation -> HTML Escaping" := SkipOnly(HtmlEscaping),
    "Interpolation -> Implicit Iterators - HTML Escaping" := SkipOnly(HtmlEscaping),
    "Inverted -> Dotted Names - Falsey" :=
      Override(Some([("a", Obj([("b", Str(""))]))]),
               Some("\"{{^a.b}}Not Here{{/a.b}}\" == \"Not Here\""), None),
    "Inverted -> Dotted Names - Truthy" :=
      Override(Some([("a", Obj([("b", Str("1"))]))]),
               Some("\"{{^a.b}}Not Here{{/a.b}}\" == \"\""), None),
    "Lambdas -> Escaping" := SkipOnly(HtmlEscaping),
    "Lambdas -> Interpolation - Alternate Delimiters" :=
      SkipOnly("There is no difference between a lamba used as a value and a lambda used as a block. Both will parse using the current delimiters."),
    "Lambdas -> Inverted Section" :=
      Override(Some([("static", Str("static")), ("lambda", Lambda("false"))]), None, None),
    "Lambdas -> Interpolation" :=
      Override(Some([("lambda", Lambda("echo -n \"world\""))]), None, None),
    "Lambdas -> Interpolation - Expansion" :=
      Override(Some([("lambda", Lambda("mo::parse result \"{{planet}}\"; echo -n \"$result\"")),
                     ("planet", Str("world"))]), None, None),
    "Lambdas -> Interpolation - Multiple Calls" :=
      SkipOnly("Calls are not cached, but they run in isolated environments, so saving a global variable does not work."),
    "Lambdas -> Section" :=
      Override(Some([("lambda", Lambda("if [[ \"$(cat)\" == \"{{x}}\" ]]; then echo -n yes; else echo -n no; fi")),
                     ("x", Str("Error!"))]), None, None),
    "Lambdas -> Section - Alternate Delimiters" :=
      Override(Some([("lambda", Lambda("local content=$(cat); mo::parse content \"$content{{planet}} => |planet|$content\"; echo -n \"$content\"")),
                     ("planet", Str("Earth"))]), None, None),
    "Lambdas -> Section - Expansion" :=
      Override(Some([("lambda", Lambda("local content=$(cat); mo::parse content \"$content{{planet}}$content\"; echo -n \"$content\"")),
                     ("planet", Str("Earth"))]), None, None),
    "Lambdas -> Section - Multiple Calls" :=
      Override(Some([("lambda", Lambda("echo -n \"__$(cat)__\""))]), None, None),
    "Partials -> Recursion" :=
      SkipOnly("Complex objects are not supported and context is reset to the global level, so the recursion will loop forever"),
    "Sections -> Deeply Nested Contexts" := SkipOnly("Nested objects are not supported"),
    "Sections -> Dotted Names - Broken Chains" :=
      Override(None, Some("\"{{#a.b}}Here{{/a.b}}\" == \"\""), None),
    "Sections -> Dotted Names - Falsey" :=
      Override(Some([("a", Obj([("b", Bool(false))]))]), Some("\"{{#a.b}}Here{{/a.b}}\" == \"\""), None),
    "Sections -> Dotted Names - Truthy" :=
      Override(Some([("a", Obj([("b", Bool(true))]))]), Some("\"{{#a.b}}Here{{/a.b}}\" == \"Here\""), None),
    "Sections -> Implicit Iterator - Array" := SkipOnly("Nested arrays are not supported"),
    "Sections -> List" :=
      Override(Some([("list", List([Num(1), Num(2), Num(3)]))]), Some("\"{{#list}}{{.}}{{/list}}\""), None),
    "Sections -> List Context" := SkipOnly(DeepNesting),
    "Sections -> List Contexts" := SkipOnly(DeepNesting)
  ]

  /** `testOverrides[test.fullName]`, the table given as `overrides`: an unset name
      reads as the key "undefined", which no full name "<group> -> <test>" can be. */
  function OverrideFor(overrides: map<string, Override>, fullName: Option<string>): (r: Option<Override>)
    ensures r.Some? <==> fullName.Some? && fullName.value in overrides
    ensures r.Some? ==> r.value == overrides[fullName.value]
  {
    if fullName.Some? && fullName.value in overrides then Some(overrides[fullName.value]) else None
  }

  /** The table skips "Interpolation -> HTML Escaping" with its reason and touches
      nothing else of that test. */
  lemma HtmlEscapingSkipped(f: Fields)
    ensures var o := OverrideFor(TestOverrides, Some("Interpolation -> HTML Escaping"));
      && o == Some(SkipOnly(HtmlEscaping))
      && Overridden(o.value, f) == Fields(f.data, f.template, Some("HTML escaping is not supported"))
      && HasText(Overridden(o.value, f).skip)
  {
  }

  /** The table gives "Comments -> Variable Name Collision" data that replaces the
      fixture's whole: the only key left is `comment`, bound to 4. */
  lemma CollisionDataReplaced(f: Fields)
    ensures var o := OverrideFor(TestOverrides, Some("Comments -> Variable Name Collision"));
      && o.Some? && Patches(o.value) == [SetData([("comment", Num(4))])]
      && Overridden(o.value, f) == Fields([("comment", Num(4))], f.template, f.skip)
  {
  }

  /** The table's entry for "Lambdas -> Interpolation": data holding one lambda. */
  lemma LambdaInterpolationEntry()
    ensures OverrideFor(TestOverrides, Some("Lambdas -> Interpolation"))
         == Some(Override(Some([("lambda", Lambda("echo -n \"world\""))]), None, None))
  {
  }

  /** `applyTestOverrides`: with no entry for the test nothing changes; otherwise each
      property the entry names is replaced by the entry's value, the previous values
      are kept in `valuesBeforeOverride` and `overridesApplied` is set. The frame
      says that no other property of the test changes. */
  method ApplyTestOverrides(overrides: map<string, Override>, test: Test)
    modifies test`data, test`template, test`skip, test`overridesApplied, test`valuesBeforeOverride
    ensures OverrideFor(overrides, test.fullName).None? ==>
      test.Overridable() == old(test.Overridable()) && test.overridesApplied == old(test.overridesApplied)
      && test.valuesBeforeOverride == old(test.valuesBeforeOverride)
    ensures OverrideFor(overrides, test.fullName).Some? ==>
      var o := OverrideFor(overrides, test.fullName).value;
      test.Overridable() == Overridden(o, old(test.Overridable()))
      && test.overridesApplied
      && test.valuesBeforeOverride == Some(Originals(o, old(test.Overridable())))
  {
    var entry := OverrideFor(overrides, test.fullName);
    if entry.None? {
      return;
    }
    var patches := Patches(entry.value);
    var originals: map<Field, FieldValue> := map[];
    for i := 0 to |patches|
      invariant test.Overridable() == ApplyAll(patches[..i], old(test.Overridable()))
      invariant originals == Snapshots(patches[..i], old(test.Overridable()))
    {
      var p := patches[i];
      assert patches[..i + 1][..i] == patches[..i];
      originals := originals[FieldOf(p) := Get(test.Overridable(), FieldOf(p))];
      match p
      case SetData(d) => test.data := d;
      case SetTemplate(t) => test.template := t;
      case SetSkip(r) => test.skip := Some(r);
    }
    assert patches[..|patches|] == patches;
    ApplyPatches(entry.value, old(test.Overridable()));
    SnapshotPatches(entry.value, old(test.Overridable()));
    test.overridesApplied := true;
    test.valuesBeforeOverride := Some(originals);
  }
}
