/** Relative path parsing (server/src/paths.rs) and the path text stored in a job row. */
module Paths {
  import opened Prelude
  import opened Text

  /** A normalised relative path: its components, outermost first. */
  type RelPath = seq<string>

  datatype PathError = Absolute | NullByte | InvalidComponent | TrashAccess

  const TRASH_NAME := ".trash"

  /** One normal path component. */
  predicate IsNormal(part: string) {
    part != "" && part != "." && part != ".." && '/' !in part
  }

  predicate AllNormal(path: RelPath) {
    forall i :: 0 <= i < |path| ==> IsNormal(path[i])
  }

  /** The components that remain once empty parts and "." are skipped; ".." has no place in a safe path. */
  function KeepNormal(parts: seq<string>): Option<RelPath> {
    if parts == [] then Some([])
    else if parts[0] == ".." then None
    else
      var rest := KeepNormal(parts[1..]);
      if rest.None? then None
      else if parts[0] == "" || parts[0] == "." then rest
      else Some([parts[0]] + rest.value)
  }

  /** What `safe_relative_path` answers for a raw path. */
  function Parse(raw: string): Result<RelPath, PathError> {
    var trimmed := Trim(raw);
    if trimmed == "" then Ok([])
    else if trimmed[0] == '/' then Err(Absolute)
    else if '\0' in trimmed then Err(NullByte)
    else
      var clean := KeepNormal(Split(trimmed, '/'));
      if clean.None? then Err(InvalidComponent)
      else if TRASH_NAME in clean.value then Err(TrashAccess)
      else Ok(clean.value)
  }

  /** `safe_relative_path`: components are pushed one by one onto a buffer. */
  method SafeRelativePath(raw: string) returns (r: Result<RelPath, PathError>)
    ensures r == Parse(raw)
    ensures r.Ok? ==> AllNormal(r.value) && TRASH_NAME !in r.value
  {
    var trimmed := Trim(raw);
    if trimmed == "" {
      return Ok([]);
    }
    if trimmed[0] == '/' {
      return Err(Absolute);
    }
    if '\0' in trimmed {
      return Err(NullByte);
    }
    var parts := Split(trimmed, '/');
    JoinOfSplit(trimmed, '/');
    var clean: RelPath := [];
    for i := 0 to |parts|
      invariant AllNormal(clean)
      invariant KeepNormal(parts).None? <==> KeepNormal(parts[i..]).None?
      invariant KeepNormal(parts).Some? ==> KeepNormal(parts).value == clean + KeepNormal(parts[i..]).value
    {
      assert parts[i..][1..] == parts[i + 1..];
      if parts[i] == ".." {
        return Err(InvalidComponent);
      }
      if parts[i] != "" && parts[i] != "." {
        clean := clean + [parts[i]];
      }
    }
    assert clean + [] == clean;
    assert KeepNormal(parts) == Some(clean);
    if TRASH_NAME in clean {
      return Err(TrashAccess);
    }
    return Ok(clean);
  }

  /** `Path::file_name` of a client-supplied name: its last component, unless that is "..". */
  function FileNameOf(name: string): Option<string> {
    LastNormal(Split(name, '/'))
  }

  function LastNormal(parts: seq<string>): Option<string> {
    if parts == [] then None
    else
      var last := parts[|parts| - 1];
      if last == "" || last == "." then LastNormal(parts[..|parts| - 1])
      else if last == ".." then None
      else Some(last)
  }

  /** The path text with '/' between components. */
  function Display(path: RelPath): string {
    Join(path, '/')
  }

  function Slashed(s: string): string {
    seq(|s|, i requires 0 <= i < |s| => if s[i] == '\\' then '/' else s[i])
  }

  /** The text a job row stores for a path: backslashes become slashes. */
  function StoredText(path: RelPath): string {
    Slashed(Display(path))
  }

  // ---------------------------------------------------------------- lemmas

  lemma {:induction false} KeepNormalOfNormal(path: RelPath)
    requires AllNormal(path)
    ensures KeepNormal(path) == Some(path)
  {
    if path != [] {
      KeepNormalOfNormal(path[1..]);
      assert [path[0]] + path[1..] == path;
    }
  }

  /** Kept components are parts of the input, in order, so the kept path is never longer. */
  lemma {:induction false} KeepNormalShape(parts: seq<string>)
    requires forall i :: 0 <= i < |parts| ==> '/' !in parts[i]
    ensures KeepNormal(parts).Some? ==>
      && AllNormal(KeepNormal(parts).value)
      && (forall p :: p in KeepNormal(parts).value ==> p in parts)
      && |Display(KeepNormal(parts).value)| <= |Join(parts, '/')|
      && (KeepNormal(parts).value != [] ==> parts != [])
  {
    if parts != [] && parts[0] != ".." {
      KeepNormalShape(parts[1..]);
      var rest := KeepNormal(parts[1..]);
      if rest.Some? && parts[0] != "" && parts[0] != "." {
        var kept := [parts[0]] + rest.value;
        assert kept[1..] == rest.value;
      }
    }
  }

  lemma SlashedFixedPoint(s: string)
    ensures Slashed(s) == s <==> '\\' !in s
    ensures '\\' !in Slashed(s)
    ensures forall c :: c in s && c != '\\' ==> c in Slashed(s)
  {
    assert forall i :: 0 <= i < |s| && s[i] == '\\' ==> Slashed(s)[i] == '/';
    forall c | c in s && c != '\\' ensures c in Slashed(s) {
      var i :| 0 <= i < |s| && s[i] == c;
      assert Slashed(s)[i] == c;
    }
  }

  /** Every safe path is made of normal components, none of them the trash, and uses only the text's characters. */
  lemma ParseShape(raw: string)
    ensures Parse(raw).Ok? ==>
      && AllNormal(Parse(raw).value)
      && TRASH_NAME !in Parse(raw).value
      && |Display(Parse(raw).value)| <= |Trim(raw)|
      && (forall i, c :: 0 <= i < |Parse(raw).value| && c in Parse(raw).value[i] ==> c in raw && c != '\0')
  {
    var trimmed := Trim(raw);
    TrimFixedPoint(raw);
    if Parse(raw).Ok? && trimmed != "" {
      var parts := Split(trimmed, '/');
      JoinOfSplit(trimmed, '/');
      KeepNormalShape(parts);
      var path := Parse(raw).value;
      forall i, c | 0 <= i < |path| && c in path[i] ensures c in raw && c != '\0' {
        assert path[i] in path;
        var j :| 0 <= j < |parts| && parts[j] == path[i];
        JoinContains(parts, '/', j, c);
      }
    }
  }

  lemma FileNameIsNormal(name: string)
    ensures FileNameOf(name).Some? ==> IsNormal(FileNameOf(name).value)
    ensures forall c :: FileNameOf(name).Some? && c in FileNameOf(name).value ==> c in name
  {
    var parts := Split(name, '/');
    JoinOfSplit(name, '/');
    LastNormalShape(parts);
    forall c | FileNameOf(name).Some? && c in FileNameOf(name).value ensures c in name {
      var i :| 0 <= i < |parts| && parts[i] == FileNameOf(name).value;
      JoinContains(parts, '/', i, c);
    }
  }

  lemma {:induction false} LastNormalShape(parts: seq<string>)
    requires forall i :: 0 <= i < |parts| ==> '/' !in parts[i]
    ensures LastNormal(parts).Some? ==> IsNormal(LastNormal(parts).value) && LastNormal(parts).value in parts
  {
    if parts != [] {
      LastNormalShape(parts[..|parts| - 1]);
    }
  }

  /** The parts of a path text that name something. */
  function NamedParts(parts: seq<string>): RelPath {
    if parts == [] then []
    else (if parts[0] == "" || parts[0] == "." then [] else [parts[0]]) + NamedParts(parts[1..])
  }

  lemma {:induction false} KeptAreNamed(parts: seq<string>)
    ensures KeepNormal(parts).Some? <==> ".." !in parts
    ensures ".." !in parts ==> KeepNormal(parts).value == NamedParts(parts)
  {
    if parts != [] {
      KeptAreNamed(parts[1..]);
      assert ".." in parts <==> parts[0] == ".." || ".." in parts[1..];
    }
  }

  lemma {:induction false} NamedAreParts(parts: seq<string>, part: string)
    requires part != "" && part != "."
    ensures part in NamedParts(parts) <==> part in parts
  {
    if parts != [] {
      NamedAreParts(parts[1..], part);
      assert part in parts <==> parts[0] == part || part in parts[1..];
    }
  }

  /** A raw path is accepted if and only if, trimmed, it is empty or relative, without NUL, and no part of it is ".." or the trash;
      what it stands for are its parts without the empty ones and the dots. */
  lemma ParseIff(raw: string)
    ensures var text := Trim(raw);
            var parts := Split(text, '/');
            && (Parse(raw).Ok? <==> text == "" || (text[0] != '/' && '\0' !in text && ".." !in parts && TRASH_NAME !in parts))
            && (Parse(raw).Ok? ==> Parse(raw).value == NamedParts(parts))
  {
    var parts := Split(Trim(raw), '/');
    KeptAreNamed(parts);
    NamedAreParts(parts, TRASH_NAME);
  }

  /** The stored text of a path parses back to that very path. */
  predicate Reparses(path: RelPath) {
    Parse(StoredText(path)) == Ok(path)
  }

  /** A path whose names hold no backslash, as every path has on other systems. */
  predicate PlainPath(path: RelPath) {
    path != [] && AllNormal(path) && forall i :: 0 <= i < |path| ==> '\\' !in path[i]
  }

  lemma PlainTextIsDisplay(path: RelPath)
    requires PlainPath(path)
    ensures StoredText(path) == Display(path) && Split(StoredText(path), '/') == path
  {
    JoinOnlyContains(path, '/', '\\');
    SlashedFixedPoint(Display(path));
    forall i | 0 <= i < |path| ensures '/' !in path[i] {
      assert path[i] in path;
    }
    SplitOfJoin(path, '/');
  }

  /** Without backslashes the stored text determines the path. */
  lemma StoredTextInjective(a: RelPath, b: RelPath)
    requires PlainPath(a) && PlainPath(b) && StoredText(a) == StoredText(b)
    ensures a == b
  {
    PlainTextIsDisplay(a);
    PlainTextIsDisplay(b);
  }

  /** With them it does not: a name with a backslash is stored like a file in a folder. */
  lemma BackslashTwins()
    ensures StoredText(["a\\b"]) == StoredText(["a", "b"]) && !PlainPath(["a\\b"])
  {
    assert Display(["a\\b"]) == "a\\b";
    assert Display(["a", "b"]) == "a/b";
    assert ["a\\b"][0][1] == '\\';
  }

  /** What a caller can check on the components before a transfer starts. */
  predicate StableText(path: RelPath) {
    && (forall i :: 0 <= i < |path| ==> '\\' !in path[i] && '\0' !in path[i] && path[i] != TRASH_NAME)
    && Trimmed(Display(path))
  }

  lemma {:induction false} DisplayEnds(path: RelPath)
    requires AllNormal(path) && path != []
    ensures Display(path) != "" && Display(path)[0] != '/'
  {
    if |path| > 1 {
      DisplayEnds(path[1..]);
    }
  }

  lemma StableTextReparses(path: RelPath)
    requires AllNormal(path) && path != [] && StableText(path)
    ensures Reparses(path)
  {
    var text := Display(path);
    JoinOnlyContains(path, '/', '\\');
    JoinOnlyContains(path, '/', '\0');
    SlashedFixedPoint(text);
    TrimFixedPoint(text);
    DisplayEnds(path);
    SplitOfJoin(path, '/');
    KeepNormalOfNormal(path);
  }

  /** Cancel, sweep and recovery read a path back from its stored text; they find the
      path the chunk handler used exactly when the components meet StableText. */
  lemma StoredTextReparses(path: RelPath)
    requires AllNormal(path) && path != []
    ensures Reparses(path) <==> StableText(path)
  {
    if StableText(path) {
      StableTextReparses(path);
    }
    if Reparses(path) {
      var text := StoredText(path);
      ParseShape(text);
      SlashedFixedPoint(Display(path));
      TrimFixedPoint(text);
      forall i | 0 <= i < |path|
        ensures '\\' !in path[i] && '\0' !in path[i] && path[i] != TRASH_NAME
      {
        assert path[i] in path;
      }
      JoinOnlyContains(path, '/', '\\');
    }
  }

  /** A name the upload handlers accept but recovery cannot read back: a file called ".trash". */
  lemma TrashNameIsNotStable(folder: RelPath)
    requires AllNormal(folder)
    ensures FileNameOf(TRASH_NAME) == Some(TRASH_NAME)
    ensures !Reparses(folder + [TRASH_NAME])
  {
    SplitOfPiece(TRASH_NAME, "", '/');
    var path := folder + [TRASH_NAME];
    assert path[|folder|] == TRASH_NAME;
    StoredTextReparses(path);
  }
}
