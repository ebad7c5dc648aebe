/** The value serializer of run-spec.js: how one named fixture value becomes Bash
    text that binds it (`makeShellString` and the `addToEnvironment*` family). Every
    value yields some text; shapes Bash cannot hold degrade to a placeholder or a
    comment, never to an error. */
module Serializer {
  import opened Text
  import opened JsonString
  import opened Fixture

  /** What `makeShellString` gives for null, arrays and objects. */
  const ErrConverting: string := "ERR_CONVERTING"

  /** The body of a code object that has no truthy `bash` entry. */
  const NoBashCode: string := "echo \"NO BASH VERSION OF CODE\""

  /** What `makeShellString` puts between the quoted lines of a multi-line string:
      a closing quotation mark, a raw line feed and an opening quotation mark, so
      that Bash reads one word holding the line feed. */
  const ChunkSeparator: string := "\"\n\""

  function QuoteAll(parts: seq<string>): (r: seq<string>)
    ensures |r| == |parts| && forall i :: 0 <= i < |parts| ==> r[i] == Quote(parts[i])
  {
    seq(|parts|, i requires 0 <= i < |parts| => Quote(parts[i]))
  }

  /** The JSON-quoted lines of a string, split at each line feed. */
  function QuotedChunks(s: string): seq<string>
  {
    QuoteAll(Split(s, '\n'))
  }

  /** `makeShellString`: a boolean as "true" or the empty string (Bash has no boolean,
      and the engine treats only the empty string as false), a string as its quoted
      lines, a number as its decimal text, anything else as a placeholder. */
  function ShellString(v: Value): string
  {
    match v
    case Bool(b) => if b then "\"true\"" else "\"\""
    case Str(s) => Join(QuotedChunks(s), ChunkSeparator)
    case Num(n) => Decimal(n)
    case _ => ErrConverting
  }

  /** Unquotes every chunk, or fails if one of them is not a JSON string literal. */
  function UnquoteAll(chunks: seq<string>): Option<seq<string>>
  {
    if chunks == [] then Some([])
    else match (Unquote(chunks[0]), UnquoteAll(chunks[1..]))
      case (Some(v), Some(vs)) => Some([v] + vs)
      case _ => None
  }

  lemma {:induction false} UnquoteAllQuoteAll(parts: seq<string>)
    ensures UnquoteAll(QuoteAll(parts)) == Some(parts)
  {
    if parts != [] {
      UnquoteQuote(parts[0]);
      assert QuoteAll(parts)[1..] == QuoteAll(parts[1..]);
      UnquoteAllQuoteAll(parts[1..]);
      assert [parts[0]] + parts[1..] == parts;
    }
  }

  /** A string with k line feeds is written as k + 1 quoted chunks joined by the chunk
      separator; no chunk holds a raw line feed; unquoting the chunks and joining them
      with line feeds gives the string back. */
  lemma MultiLineString(s: string)
    ensures ShellString(Str(s)) == Join(QuotedChunks(s), ChunkSeparator)
    ensures |QuotedChunks(s)| == Count(s, '\n') + 1
    ensures forall i :: 0 <= i < |QuotedChunks(s)| ==> '\n' !in QuotedChunks(s)[i]
    ensures UnquoteAll(QuotedChunks(s)) == Some(Split(s, '\n'))
    ensures Join(Split(s, '\n'), "\n") == s
  {
    var chunks := QuotedChunks(s);
    forall i | 0 <= i < |chunks| ensures '\n' !in chunks[i] {
      QuoteHasNoControl(Split(s, '\n')[i]);
    }
    UnquoteAllQuoteAll(Split(s, '\n'));
  }

  /** The text of a string value starts with a quotation mark. */
  lemma StringStartsQuoted(s: string)
    ensures |ShellString(Str(s))| > 0 && ShellString(Str(s))[0] == '"'
  {
    var chunks := QuotedChunks(s);
    JoinIsPrefixed(chunks[0], chunks[1..], ChunkSeparator);
    assert [chunks[0]] + chunks[1..] == chunks;
  }

  /** The scalar encodings: true as "true" in quotes, false as "", a number as its
      decimal text (which reads back as the number), and the placeholder exactly for
      null, arrays and objects. */
  lemma ScalarEncoding(v: Value)
    ensures ShellString(Bool(true)) == "\"true\"" && ShellString(Bool(false)) == "\"\""
    ensures v.Num? ==> ParseDecimal(ShellString(v)) == Some(v.n)
    ensures ShellString(v) == ErrConverting <==> IsObjectType(v)
  {
    match v {
      case Str(s) =>
        StringStartsQuoted(s);
      case Num(n) =>
        DecimalRoundTrip(n);
        assert ShellString(v)[0] == '-' || IsDigit(ShellString(v)[0]);
      case _ =>
    }
  }

  function ShellStrings(items: seq<Value>): (r: seq<string>)
    ensures |r| == |items| && forall i :: 0 <= i < |items| ==> r[i] == ShellString(items[i])
  {
    seq(|items|, i requires 0 <= i < |items| => ShellString(items[i]))
  }

  /** `addToEnvironmentArray`: an indexed array whose words are the elements' shell strings. */
  function ArrayLine(name: string, items: seq<Value>): string
  {
    name + "=" + Join(["("] + ShellStrings(items) + [")"], " ")
  }

  /** The array line is `name=(`, then a space and the shell string of each element in
      order, then ` )`. */
  lemma ArrayLineLayout(name: string, items: seq<Value>)
    ensures ArrayLine(name, items) == name + "=(" + Prefixed(ShellStrings(items), " ") + " )"
  {
    var words := ShellStrings(items);
    assert ["("] + words + [")"] == ["("] + (words + [")"]);
    JoinIsPrefixed("(", words + [")"], " ");
    PrefixedAppend(words, [")"], " ");
  }

  method AddToEnvironmentArray(name: string, items: seq<Value>) returns (line: string)
    ensures line == ArrayLine(name, items)
  {
    var result := ["("];
    for i := 0 to |items|
      invariant result == ["("] + ShellStrings(items[..i])
    {
      result := result + [ShellString(items[i])];
    }
    assert items[..|items|] == items;
    result := result + [")"];
    line := name + "=" + Join(result, " ");
  }

  /** A non-null object or an array: an entry the associative-array conversion refuses. */
  predicate Nested(v: Value)
  {
    v.List? || v.Obj?
  }

  /** The key of the first entry whose value is nested, if any. */
  function FirstNested(entries: Entries): (r: Option<string>)
    ensures r.None? <==> forall i :: 0 <= i < |entries| ==> !Nested(entries[i].1)
  {
    if entries == [] then None
    else if Nested(entries[0].1) then Some(entries[0].0)
    else
      var r := FirstNested(entries[1..]);
      assert forall i :: 0 < i < |entries| ==> entries[i] == entries[1..][i - 1];
      r
  }

  /** One element of an associative array: `[k]=` for null, `[k]=` and the shell string otherwise. */
  function Binding(key: string, v: Value): string
  {
    if v.Null? then "[" + key + "]=" else "[" + key + "]=" + ShellString(v)
  }

  function EntryBinding(entry: (string, Value)): string
  {
    Binding(entry.0, entry.1)
  }

  /** The elements of the associative array, one per entry in order. */
  function Bindings(entries: Entries): seq<string>
  {
    Map(EntryBinding, entries)
  }

  /** Element i of the array binds entry i. */
  lemma BindingsAt(entries: Entries)
    ensures |Bindings(entries)| == |entries|
    ensures forall i :: 0 <= i < |entries| ==> Bindings(entries)[i] == Binding(entries[i].0, entries[i].1)
  {
    MapAt(EntryBinding, entries);
  }

  /** The comment that replaces the whole conversion when entry `key` is nested. */
  function AbortComment(name: string, key: string): string
  {
    "# " + name + "." + key + " is an object that can not be converted to an associative array"
  }

  /** `addToEnvironmentObjectConvertedToAssociativeArray`. */
  function AssocLine(name: string, entries: Entries): string
  {
    match FirstNested(entries)
    case Some(key) => AbortComment(name, key)
    case None => DeclareLine(name, Bindings(entries))
  }

  /** `declare -A name`, a line feed, and the bindings between `name=(` and `)`. */
  function DeclareLine(name: string, bindings: seq<string>): string
  {
    "declare -A " + name + "\n" + name + "=(" + Join(bindings, " ") + ")"
  }

  /** The conversion gives a comment exactly when some entry is nested, and then it names
      the first such entry; otherwise it declares the array and binds every key in order. */
  lemma AssocLineShape(name: string, entries: Entries)
    ensures AssocLine(name, entries)[0] == '#' <==> exists i :: 0 <= i < |entries| && Nested(entries[i].1)
    ensures forall i :: 0 <= i < |entries| && Nested(entries[i].1) && (forall j :: 0 <= j < i ==> !Nested(entries[j].1))
                       ==> AssocLine(name, entries) == AbortComment(name, entries[i].0)
    ensures (forall i :: 0 <= i < |entries| ==> !Nested(entries[i].1))
            ==> AssocLine(name, entries) == "declare -A " + name + "\n" + name + "=(" + Join(Bindings(entries), " ") + ")"
  {
    var line := AssocLine(name, entries);
    match FirstNested(entries) {
      case Some(key) =>
        assert line == AbortComment(name, key) && line[0] == '#';
        forall i | 0 <= i < |entries| && Nested(entries[i].1) && (forall j :: 0 <= j < i ==> !Nested(entries[j].1))
          ensures line == AbortComment(name, entries[i].0)
        {
          FirstNestedAt(entries, i);
        }
      case None =>
        assert line[0] == 'd';
    }
  }

  /** The entry the conversion stops at is the one `FirstNested` names. */
  lemma {:induction false} FirstNestedAt(entries: Entries, i: nat)
    requires i < |entries| && Nested(entries[i].1)
    requires forall j :: 0 <= j < i ==> !Nested(entries[j].1)
    ensures FirstNested(entries) == Some(entries[i].0)
  {
    if i > 0 {
      FirstNestedAt(entries[1..], i - 1);
    }
  }

  method AddToEnvironmentAssoc(name: string, entries: Entries) returns (line: string)
    ensures line == AssocLine(name, entries)
  {
    var values: seq<string> := [];
    for i := 0 to |entries|
      invariant values == Bindings(entries[..i])
      invariant forall j :: 0 <= j < i ==> !Nested(entries[j].1)
    {
      assert entries[..i + 1][..i] == entries[..i];
      var key := entries[i].0;
      var v := entries[i].1;
      if Nested(v) {
        // an object or an array: abort the whole conversion
        FirstNestedAt(entries, i);
        return AbortComment(name, key);
      }
      values := values + [Binding(key, v)];
    }
    assert entries[..|entries|] == entries;
    line := DeclareLine(name, values);
  }

  /** `value.__tag__ === "code"`: the object stands for a lambda. */
  predicate IsCode(entries: Entries)
  {
    Lookup(entries, "__tag__") == Some(Str("code"))
  }

  /** `value.bash || 'echo "NO BASH VERSION OF CODE"'`, as the template literal writes it. */
  function CodeBody(entries: Entries): string
  {
    match Lookup(entries, "bash")
    case Some(body) => if Truthy(body) then JsString(body) else NoBashCode
    case None => NoBashCode
  }

  /** A lambda becomes a Bash function whose body is the `bash` entry. */
  function CodeLine(name: string, entries: Entries): string
  {
    name + "() { " + CodeBody(entries) + "; }"
  }

  /** `addToEnvironment` with `addToEnvironmentObject` folded in. */
  function EnvLine(name: string, v: Value): string
  {
    match v
    case List(items) => ArrayLine(name, items)
    case Null => "#" + name + " is null"
    case Obj(entries) => if IsCode(entries) then CodeLine(name, entries) else AssocLine(name, entries)
    case _ => name + "=" + ShellString(v)
  }

  /** The dispatch: arrays, null, lambdas (with the fallback body), other objects, scalars. */
  lemma EnvLineDispatch(name: string, v: Value)
    ensures v.List? ==> EnvLine(name, v) == ArrayLine(name, v.items)
    ensures v.Null? ==> EnvLine(name, v) == "#" + name + " is null"
    ensures v.Obj? && IsCode(v.entries) ==>
      EnvLine(name, v) == name + "() { " + CodeBody(v.entries) + "; }"
    ensures v.Obj? && IsCode(v.entries) && (forall i :: 0 <= i < |v.entries| ==> v.entries[i].0 != "bash") ==>
      EnvLine(name, v) == name + "() { " + NoBashCode + "; }"
    ensures v.Obj? && IsCode(v.entries) && Lookup(v.entries, "bash").Some? && Lookup(v.entries, "bash").value.Str?
            && Lookup(v.entries, "bash").value.s != "" ==>
      EnvLine(name, v) == name + "() { " + Lookup(v.entries, "bash").value.s + "; }"
    ensures v.Obj? && !IsCode(v.entries) ==> EnvLine(name, v) == AssocLine(name, v.entries)
    ensures !IsObjectType(v) ==> EnvLine(name, v) == name + "=" + ShellString(v)
  {
  }

  /** A lambda with a non-empty body becomes a Bash function that runs that body. */
  lemma LambdaLine(name: string, bash: string)
    requires bash != ""
    ensures EnvLine(name, Lambda(bash)) == name + "() { " + bash + "; }"
  {
    var entries := Lambda(bash).entries;
    assert Lookup(entries, "__tag__") == Some(Str("code"));
    assert Lookup(entries, "bash") == Some(Str(bash)) by {
      assert entries[0].0 != "bash" && entries[1..] == [("bash", Str(bash))];
    }
  }

  method AddToEnvironment(name: string, v: Value) returns (line: string)
    ensures line == EnvLine(name, v)
  {
    match v {
      case List(items) =>
        line := AddToEnvironmentArray(name, items);
      case Null =>
        line := "#" + name + " is null";
      case Obj(entries) =>
        if IsCode(entries) {
          line := CodeLine(name, entries);
        } else {
          line := AddToEnvironmentAssoc(name, entries);
        }
      case _ =>
        line := name + "=" + ShellString(v);
    }
  }
}
