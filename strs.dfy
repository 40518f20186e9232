/** The string operations of the standard library that the locator and the snapshot
    loader rely on: `trim_end`, `split_once`, `lines`, and the file-name split of
    `Path::file_stem` / `Path::extension`. */
module Strs {
  import opened Wrappers

  /** `char::is_whitespace`: the Unicode White_Space property. */
  predicate IsWhitespace(c: char)
  {
    || ('\t' <= c <= '\r') || c == ' ' || c == '\U{0085}' || c == '\U{00A0}' || c == '\U{1680}'
    || ('\U{2000}' <= c <= '\U{200A}') || c == '\U{2028}' || c == '\U{2029}' || c == '\U{202F}'
    || c == '\U{205F}' || c == '\U{3000}'
  }

  /** `str::trim_end`: the longest prefix that does not end in whitespace. */
  function TrimEnd(s: string): (t: string)
    ensures t <= s
    ensures t == [] || !IsWhitespace(t[|t| - 1])
    ensures forall i :: |t| <= i < |s| ==> IsWhitespace(s[i])
  {
    if s != [] && IsWhitespace(s[|s| - 1]) then TrimEnd(s[..|s| - 1]) else s
  }

  /** The first position of `c` in `s`. */
  function IndexOf(s: string, c: char): (r: Option<nat>)
    ensures r.Some? ==> r.value < |s| && s[r.value] == c && forall j :: 0 <= j < r.value ==> s[j] != c
    ensures r.None? ==> forall j :: 0 <= j < |s| ==> s[j] != c
  {
    if s == [] then None
    else if s[0] == c then Some(0)
    else match IndexOf(s[1..], c)
      case Some(i) => Some(i + 1)
      case None => None
  }

  /** The last position of `c` in `s`. */
  function LastIndexOf(s: string, c: char): (r: Option<nat>)
    ensures r.Some? ==> r.value < |s| && s[r.value] == c && forall j :: r.value < j < |s| ==> s[j] != c
    ensures r.None? ==> forall j :: 0 <= j < |s| ==> s[j] != c
  {
    if s == [] then None
    else if s[|s| - 1] == c then Some(|s| - 1)
    else LastIndexOf(s[..|s| - 1], c)
  }

  /** `str::split_once(c)`: the text before and after the first `c`. */
  function SplitOnce(s: string, c: char): (r: Option<(string, string)>)
    ensures r.Some? ==> s == r.value.0 + [c] + r.value.1 && c !in r.value.0
    ensures r.None? <==> c !in s
  {
    match IndexOf(s, c)
    case Some(i) => assert s == s[..i] + [c] + s[i + 1..]; Some((s[..i], s[i + 1..]))
    case None => None
  }

  function StripCr(line: string): string
  {
    if line != [] && line[|line| - 1] == '\r' then line[..|line| - 1] else line
  }

  /** `str::lines`: split after each `\n`, dropping the `\n` and a `\r` just before it;
      text after the last `\n` is a line only when it is not empty. */
  function Lines(s: string): (ls: seq<string>)
    ensures forall k :: 0 <= k < |ls| ==> '\n' !in ls[k]
    decreases |s|
  {
    if s == [] then []
    else
      match IndexOf(s, '\n')
      case None => [s]
      case Some(i) => [StripCr(s[..i])] + Lines(s[i + 1..])
  }

  lemma LinesCons(line: string, rest: string)
    requires '\n' !in line
    ensures Lines(line + "\n" + rest) == [StripCr(line)] + Lines(rest)
  {
    var s := line + "\n" + rest;
    assert s[|line|] == '\n';
    assert IndexOf(s, '\n') == Some(|line|);
    assert s[..|line|] == line && s[|line| + 1..] == rest;
  }

  /** `rsplit_file_at_dot` on a file name: the stem, and the extension after the last dot;
      a name with no dot, or whose only dot leads, has no extension. */
  function SplitExtension(name: string): (r: (string, Option<string>))
    ensures r.1.Some? ==> name == r.0 + "." + r.1.value && r.0 != [] && '.' !in r.1.value
    ensures r.1.None? ==> r.0 == name
  {
    if name == ".." then (name, None)
    else
      match LastIndexOf(name, '.')
      case None => (name, None)
      case Some(i) =>
        if i == 0 then (name, None)
        else
          assert name == name[..i] + "." + name[i + 1..];
          (name[..i], Some(name[i + 1..]))
  }

  /** `Path::file_stem` of a directory-entry name. */
  function FileStem(name: string): string { SplitExtension(name).0 }

  /** `Path::extension` of a directory-entry name. */
  function Extension(name: string): Option<string> { SplitExtension(name).1 }

  /** A dump file named `<stem>.dump` has extension `dump` and gives back its stem. */
  lemma DumpFileName(stem: string)
    requires stem != []
    ensures Extension(stem + ".dump") == Some("dump")
    ensures FileStem(stem + ".dump") == stem
  {
    var name := stem + ".dump";
    assert name[|stem|] == '.';
    assert forall j :: |stem| < j < |name| ==> name[j] != '.';
    assert LastIndexOf(name, '.') == Some(|stem|);
    assert name[..|stem|] == stem && name[|stem| + 1..] == "dump";
  }

  /** Splitting at the first `c` undoes joining with a `c` that the left part lacks. */
  lemma SplitOnceJoin(a: string, c: char, b: string)
    requires c !in a
    ensures SplitOnce(a + [c] + b, c) == Some((a, b))
  {
    var s := a + [c] + b;
    assert s[|a|] == c;
    assert forall j :: 0 <= j < |a| ==> s[j] == a[j];
    assert IndexOf(s, c) == Some(|a|);
    assert s[..|a|] == a && s[|a| + 1..] == b;
  }
}
