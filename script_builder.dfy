/** `buildScript` of run-spec.js: the Bash script that binds a test's data and then
    hands the template to the engine. */
module ScriptBuilder {
  import opened Text
  import opened Fixture
  import opened Serializer

  const Shebang: string := "#!/usr/bin/env bash"
  /** Sources the engine into the running shell, so that lambdas stay callable. */
  const LoadEngine: string := ". ./mo"
  /** Renders the template file the executor writes into the working directory. */
  const RunEngine: string := "mo spec-runner/spec-template"

  function EntryLine(entry: (string, Value)): string
  {
    EnvLine(entry.0, entry.1)
  }

  /** One serialized binding per data key, in key order. */
  function EnvLines(data: Entries): seq<string>
  {
    Map(EntryLine, data)
  }

  /** Line i binds data key i. */
  lemma EnvLinesAt(data: Entries)
    ensures |EnvLines(data)| == |data|
    ensures forall i :: 0 <= i < |data| ==> EnvLines(data)[i] == EnvLine(data[i].0, data[i].1)
  {
    MapAt(EntryLine, data);
  }

  /** The script text: the lines, closed by an empty one, joined with line feeds. */
  function Script(data: Entries): string
  {
    Join([Shebang] + EnvLines(data) + [LoadEngine, RunEngine, ""], "\n")
  }

  /** A join of a head line, some lines and three trailing lines, the last one empty. */
  lemma JoinFramed(head: string, lines: seq<string>, a: string, b: string, sep: string)
    ensures Join([head] + lines + [a, b, ""], sep) == head + Prefixed(lines, sep) + sep + a + sep + b + sep
  {
    var tail := [a, b, ""];
    assert Join([head] + lines + tail, sep) == head + Prefixed(lines + tail, sep) by {
      assert [head] + lines + tail == [head] + (lines + tail);
      JoinIsPrefixed(head, lines + tail, sep);
    }
    assert Prefixed(lines + tail, sep) == Prefixed(lines, sep) + Prefixed(tail, sep) by {
      PrefixedAppend(lines, tail, sep);
    }
    assert Prefixed(tail, sep) == sep + a + sep + b + sep by {
      assert tail[1..] == [b, ""] && tail[1..][1..] == [""] && tail[1..][1..][1..] == [];
      assert Prefixed([""], sep) == sep;
      assert Prefixed([b, ""], sep) == sep + b + sep;
    }
  }

  /** The script is the interpreter line, then each binding on a line of its own in key
      order, then the line that loads the engine and the line that runs it; every one
      of these ends with a line feed. */
  lemma ScriptLayout(data: Entries)
    ensures Script(data) == Shebang + Prefixed(EnvLines(data), "\n") + "\n" + LoadEngine + "\n" + RunEngine + "\n"
    ensures Script(data)[..|Shebang|] == Shebang
    ensures Script(data)[|Script(data)| - 1] == '\n'
  {
    JoinFramed(Shebang, EnvLines(data), LoadEngine, RunEngine, "\n");
  }

  method BuildScript(data: Entries) returns (script: string)
    ensures script == Script(data)
  {
    var lines := [Shebang];
    for i := 0 to |data|
      invariant lines == [Shebang] + EnvLines(data[..i])
    {
      assert data[..i + 1][..i] == data[..i];
      var line := AddToEnvironment(data[i].0, data[i].1);
      lines := lines + [line];
    }
    assert data[..|data|] == data;
    script := Join(lines + [LoadEngine, RunEngine, ""], "\n");
  }
}
