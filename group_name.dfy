/** `specFileToName` of run-spec.js: the group name derived from a fixture file path
    by four string replacements, each modelled as JavaScript's `String.prototype.replace`
    performs it. */
module GroupName {
  import opened Text

  /** The characters the regular-expression `.` does not match. */
  predicate IsLineTerminator(c: char)
  {
    c == '\n' || c == '\r' || c == '\U{2028}' || c == '\U{2029}'
  }

  /** Where the line holding position `p` ends: the first line terminator at or after `p`. */
  function LineEnd(s: string, p: nat): (e: nat)
    requires p <= |s|
    ensures p <= e <= |s|
    ensures forall i :: p <= i < e ==> !IsLineTerminator(s[i])
    ensures e < |s| ==> IsLineTerminator(s[e])
    decreases |s| - p
  {
    if p == |s| || IsLineTerminator(s[p]) then p else LineEnd(s, p + 1)
  }

  /** The last '/' in `s[p..e]`. */
  function LastSlash(s: string, p: nat, e: nat): (r: Option<nat>)
    requires p <= e <= |s|
    ensures r.Some? ==> p <= r.value < e && s[r.value] == '/' && forall i :: r.value < i < e ==> s[i] != '/'
    ensures r.None? ==> forall i :: p <= i < e ==> s[i] != '/'
    decreases e - p
  {
    if e == p then None else if s[e - 1] == '/' then Some(e - 1) else LastSlash(s, p, e - 1)
  }

  /** The leftmost match of `/.*\//` at or after `p`, as a start and an end: from each
      start, `.*` runs to the end of the line and backs off to its last '/'. */
  function DirectoryMatch(s: string, p: nat): (r: Option<(nat, nat)>)
    requires p <= |s|
    ensures r.Some? ==> p <= r.value.0 < r.value.1 <= |s| && s[r.value.1 - 1] == '/'
    decreases |s| - p
  {
    if p == |s| then None
    else match LastSlash(s, p, LineEnd(s, p))
      case Some(j) => Some((p, j + 1))
      case None => DirectoryMatch(s, p + 1)
  }

  /** `file.replace(/.*\//, "")`. */
  function StripDirectory(s: string): string
  {
    match DirectoryMatch(s, 0)
    case Some((a, b)) => s[..a] + s[b..]
    case None => s
  }

  lemma {:induction false} NoSlashNoMatch(s: string, p: nat)
    requires p <= |s|
    requires forall i :: p <= i < |s| ==> s[i] != '/'
    ensures DirectoryMatch(s, p) == None
    decreases |s| - p
  {
    if p < |s| {
      NoSlashNoMatch(s, p + 1);
    }
  }

  /** On a path without line terminators, stripping keeps exactly what follows the last
      '/': the result is a suffix of the path that holds no '/', and when it is shorter
      than the path a '/' comes just before it. */
  lemma StripDirectoryOneLine(s: string)
    requires forall i :: 0 <= i < |s| ==> !IsLineTerminator(s[i])
    ensures var r := StripDirectory(s);
      && |r| <= |s| && r == s[|s| - |r|..]
      && '/' !in r
      && (|r| < |s| ==> s[|s| - |r| - 1] == '/')
  {
    assert LineEnd(s, 0) == |s|;
    match LastSlash(s, 0, |s|) {
      case Some(j) =>
        assert StripDirectory(s) == s[j + 1..];
      case None =>
        NoSlashNoMatch(s, 0);
    }
  }

  predicate OccursAt(s: string, pat: string, i: nat)
  {
    i + |pat| <= |s| && s[i..i + |pat|] == pat
  }

  /** The first occurrence of `pat` in `s` at or after `from`. */
  function IndexOf(s: string, pat: string, from: nat): (r: Option<nat>)
    requires from <= |s|
    ensures r.Some? ==> from <= r.value && OccursAt(s, pat, r.value)
                        && forall i :: from <= i < r.value ==> !OccursAt(s, pat, i)
    ensures r.None? ==> forall i :: from <= i <= |s| ==> !OccursAt(s, pat, i)
    decreases |s| - from
  {
    if OccursAt(s, pat, from) then Some(from)
    else if from == |s| then None
    else IndexOf(s, pat, from + 1)
  }

  /** `s.replace(pat, "")` with a string pattern: only the first occurrence goes. */
  function RemoveFirst(s: string, pat: string): string
  {
    match IndexOf(s, pat, 0)
    case Some(i) => s[..i] + s[i + |pat|..]
    case None => s
  }

  /** With `i` the first occurrence, the replacement cuts out exactly `s[i..i + |pat|]`,
      so the text shrinks by the pattern's length. */
  lemma RemoveFirstAt(s: string, pat: string, i: nat)
    requires OccursAt(s, pat, i) && forall j :: 0 <= j < i ==> !OccursAt(s, pat, j)
    ensures RemoveFirst(s, pat) == s[..i] + s[i + |pat|..]
    ensures |RemoveFirst(s, pat)| == |s| - |pat|
  {
    assert IndexOf(s, pat, 0) == Some(i);
  }

  /** Only the first occurrence goes: a later one that does not overlap it survives,
      shifted left by the pattern's length. */
  lemma RemoveFirstOnce(s: string, pat: string, i: nat, k: nat)
    requires OccursAt(s, pat, i) && forall j :: 0 <= j < i ==> !OccursAt(s, pat, j)
    requires i + |pat| <= k && OccursAt(s, pat, k)
    ensures OccursAt(RemoveFirst(s, pat), pat, k - |pat|)
  {
    RemoveFirstAt(s, pat, i);
    var t := RemoveFirst(s, pat);
    assert t[k - |pat|..k] == s[k..k + |pat|];
  }

  lemma RemoveAbsent(s: string, pat: string)
    requires forall i :: 0 <= i <= |s| ==> !OccursAt(s, pat, i)
    ensures RemoveFirst(s, pat) == s
  {
  }

  predicate IsLower(c: char)
  {
    'a' <= c <= 'z'
  }

  function ToUpper(c: char): char
    requires IsLower(c)
  {
    (c as int - 32) as char
  }

  /** The global replacement `/(^|-)[a-z]/g` with each match upper-cased, from position
      `p` of the scan on: a match is a lower-case letter at the start, or a '-' and the
      lower-case letter after it, and scanning resumes after the match. */
  function CapitalizeFrom(s: string, p: nat): string
    decreases |s| - p
  {
    if p >= |s| then ""
    else if p == 0 && IsLower(s[0]) then [ToUpper(s[0])] + CapitalizeFrom(s, 1)
    else if s[p] == '-' && p + 1 < |s| && IsLower(s[p + 1]) then ['-', ToUpper(s[p + 1])] + CapitalizeFrom(s, p + 2)
    else [s[p]] + CapitalizeFrom(s, p + 1)
  }

  /** What the replacement leaves at position `i`: a lower-case letter at the start or
      after a '-' is upper-cased; every other character, the '-' included, stays. */
  function CapitalizedAt(s: string, i: nat): char
    requires i < |s|
  {
    if IsLower(s[i]) && (i == 0 || s[i - 1] == '-') then ToUpper(s[i]) else s[i]
  }

  /** Character by character, the scan agrees with `CapitalizedAt` from any position it reaches. */
  lemma {:induction false} CapitalizeFromPointwise(s: string, p: nat)
    requires p <= |s|
    requires p == 0 || p == |s| || s[p - 1] != '-' || !IsLower(s[p])
    ensures |CapitalizeFrom(s, p)| == |s| - p
    ensures forall i :: p <= i < |s| ==> CapitalizeFrom(s, p)[i - p] == CapitalizedAt(s, i)
    decreases |s| - p
  {
    if p < |s| {
      var r := CapitalizeFrom(s, p);
      if p == 0 && IsLower(s[0]) {
        CapitalizeFromPointwise(s, 1);
        assert forall i :: 1 <= i < |s| ==> r[i] == CapitalizeFrom(s, 1)[i - 1];
      } else if s[p] == '-' && p + 1 < |s| && IsLower(s[p + 1]) {
        CapitalizeFromPointwise(s, p + 2);
        assert forall j :: 2 <= j < |r| ==> r[j] == CapitalizeFrom(s, p + 2)[j - 2];
      } else {
        CapitalizeFromPointwise(s, p + 1);
        assert forall j :: 1 <= j < |r| ==> r[j] == CapitalizeFrom(s, p + 1)[j - 1];
      }
    }
  }

  /** `/(^|-)[a-z]/g` replacement over the whole string. */
  function Capitalize(s: string): (r: string)
    ensures |r| == |s| && forall i :: 0 <= i < |s| ==> r[i] == CapitalizedAt(s, i)
  {
    CapitalizeFromPointwise(s, 0);
    CapitalizeFrom(s, 0)
  }

  /** `specFileToName`. */
  function SpecFileToName(file: string): string
  {
    Capitalize(RemoveFirst(RemoveFirst(StripDirectory(file), ".json"), "~"))
  }

  lemma StripSpecsDirectory(path: string)
    requires path == "specs/~lambdas.json"
    ensures StripDirectory(path) == "~lambdas.json"
  {
    assert path[5] == '/' && |path| == 19;
    assert forall i :: 0 <= i < |path| ==> !IsLineTerminator(path[i]);
    assert LineEnd(path, 0) == |path|;
    assert forall i :: 5 < i < |path| ==> path[i] != '/';
    assert LastSlash(path, 0, |path|) == Some(5);
    assert DirectoryMatch(path, 0) == Some((0, 6));
    assert path[6..] == "~lambdas.json";
  }

  lemma RemoveJsonSuffix(file: string)
    requires file == "~lambdas.json"
    ensures RemoveFirst(file, ".json") == "~lambdas"
  {
    assert forall i :: 0 <= i < 8 ==> file[i] != '.';
    assert forall i :: 0 <= i < 8 ==> !OccursAt(file, ".json", i) by {
      forall i | 0 <= i < 8 ensures !OccursAt(file, ".json", i) {
        if i + 5 <= |file| { assert file[i..i + 5][0] == file[i]; }
      }
    }
    assert OccursAt(file, ".json", 8) by { assert file[8..13] == ".json"; }
    assert IndexOf(file, ".json", 0) == Some(8);
    assert file[..8] + file[13..] == "~lambdas";
  }

  lemma RemoveTilde(stem: string)
    requires stem == "~lambdas"
    ensures RemoveFirst(stem, "~") == "lambdas"
  {
    assert OccursAt(stem, "~", 0) by { assert stem[0..1] == "~"; }
    assert IndexOf(stem, "~", 0) == Some(0);
    assert stem[1..] == "lambdas";
  }

  lemma CapitalizeLambdas(base: string)
    requires base == "lambdas"
    ensures Capitalize(base) == "Lambdas"
  {
    var name := Capitalize(base);
    forall i | 1 <= i < |base| ensures name[i] == base[i] {
      assert CapitalizedAt(base, i) == base[i] by { assert base[i - 1] != '-'; }
    }
    assert name[0] == 'L';
  }

  /** The group name of the lambda fixtures: the directory, the first ".json" and the
      first "~" go, and the leading letter is upper-cased. */
  lemma LambdasGroupName(path: string)
    requires path == "specs/~lambdas.json"
    ensures SpecFileToName(path) == "Lambdas"
  {
    StripSpecsDirectory(path);
    RemoveJsonSuffix("~lambdas.json");
    RemoveTilde("~lambdas");
    CapitalizeLambdas("lambdas");
  }
}
