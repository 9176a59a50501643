/** Names of staging files (server/src/handlers/upload.rs) and the ids they carry. */
module StagingNames {
  import opened Prelude
  import opened Text
  import opened Paths

  type Nibble = n: int | 0 <= n < 16

  /** An upload id: 128 bits, as 32 hexadecimal digits. */
  type Uuid = s: seq<Nibble> | |s| == 32 witness seq(32, _ => 0)

  const STAGING_MARKER := ".nexadrive-upload-"

  function HexDigit(n: Nibble): (c: char)
    ensures c != '.' && c != '-' && HexValue(c) == Some(n)
  {
    if n < 10 then '0' + n as char else 'a' + (n - 10) as char
  }

  function HexValue(c: char): Option<Nibble> {
    if '0' <= c <= '9' then Some((c - '0') as int)
    else if 'a' <= c <= 'f' then Some((c - 'a') as int + 10)
    else if 'A' <= c <= 'F' then Some((c - 'A') as int + 10)
    else None
  }

  function Hex(digits: seq<Nibble>): (s: string)
    ensures |s| == |digits|
    ensures forall i :: 0 <= i < |s| ==> s[i] == HexDigit(digits[i])
  {
    seq(|digits|, i requires 0 <= i < |digits| => HexDigit(digits[i]))
  }

  /** The values of a run of hexadecimal digits, in either case. */
  function FromHex(s: string): (r: Option<seq<Nibble>>)
    ensures r.Some? ==> |r.value| == |s|
    ensures r.Some? <==> forall i :: 0 <= i < |s| ==> HexValue(s[i]).Some?
    ensures r.Some? ==> forall i :: 0 <= i < |s| ==> Some(r.value[i]) == HexValue(s[i])
  {
    if forall i :: 0 <= i < |s| ==> HexValue(s[i]).Some? then
      Some(seq(|s|, i requires 0 <= i < |s| => HexValue(s[i]).value))
    else None
  }

  /** The hyphenated text form, eight-four-four-four-twelve. */
  function UuidText(id: Uuid): (s: string)
    ensures |s| == 36
  {
    Hex(id[..8]) + "-" + Hex(id[8..12]) + "-" + Hex(id[12..16]) + "-" + Hex(id[16..20]) + "-" + Hex(id[20..])
  }

  function ParseHyphenated(s: string): Option<Uuid>
    requires |s| == 36
  {
    if s[8] == '-' && s[13] == '-' && s[18] == '-' && s[23] == '-' then
      FromHex(s[..8] + s[9..13] + s[14..18] + s[19..23] + s[24..])
    else None
  }

  /** `Uuid::parse_str`: plain, hyphenated, braced or URN form. */
  function ParseUuid(s: string): Option<Uuid> {
    if |s| == 32 then FromHex(s)
    else if |s| == 36 then ParseHyphenated(s)
    else if |s| == 38 && s[0] == '{' && s[37] == '}' then ParseHyphenated(s[1..37])
    else if |s| == 45 && s[..9] == "urn:uuid:" then ParseHyphenated(s[9..])
    else None
  }

  predicate IsStagingName(name: string) {
    Contains(name, STAGING_MARKER)
  }

  /** `staging_upload_id`: the id after the last marker, if it parses. */
  function StagingUploadId(name: string): (r: Option<Uuid>)
    ensures r.Some? ==> IsStagingName(name)
  {
    var cut := RSplitOnce(name, STAGING_MARKER);
    if cut.None? then None else ParseUuid(cut.value.1)
  }

  function StagingName(name: string, id: Uuid): string {
    name + STAGING_MARKER + UuidText(id)
  }

  /** The path of the staging file of a target: the same folder, a marked name.
      A target without a file name falls back to "upload.bin". */
  function StagingPath(target: RelPath, id: Uuid): (p: RelPath)
    ensures p != []
  {
    if target == [] then [StagingName("upload.bin", id)]
    else target[..|target| - 1] + [StagingName(target[|target| - 1], id)]
  }

  /** The name is that of the staging file of some upload: what the server writes for a target that can exist. Other names
      may hold the marker, or even an id after it in another spelling, and are nobody's staging file. */
  predicate Collides(name: string) {
    var cut := RSplitOnce(name, STAGING_MARKER);
    && cut.Some? && IsNormal(cut.value.0)
    && StagingUploadId(name).Some? && name == StagingName(cut.value.0, StagingUploadId(name).value)
  }

  // ---------------------------------------------------------------- lemmas

  lemma HexReadsBack(digits: seq<Nibble>)
    ensures FromHex(Hex(digits)) == Some(digits)
  {
    var s := Hex(digits);
    forall i | 0 <= i < |s| ensures HexValue(s[i]) == Some(digits[i]) {
      assert s[i] == HexDigit(digits[i]);
    }
    assert FromHex(s).value == digits;
  }

  lemma TextWithoutHyphens(id: Uuid)
    ensures var s := UuidText(id); s[..8] + s[9..13] + s[14..18] + s[19..23] + s[24..] == Hex(id)
  {
    var s := UuidText(id);
    assert s[..8] == Hex(id[..8]) && s[9..13] == Hex(id[8..12]) && s[14..18] == Hex(id[12..16]);
    assert s[19..23] == Hex(id[16..20]) && s[24..] == Hex(id[20..]);
    assert Hex(id[..8]) + Hex(id[8..12]) + Hex(id[12..16]) + Hex(id[16..20]) + Hex(id[20..]) == Hex(id);
  }

  lemma UuidTextParses(id: Uuid)
    ensures ParseUuid(UuidText(id)) == Some(id)
    ensures '.' !in UuidText(id)
  {
    TextWithoutHyphens(id);
    HexReadsBack(id);
  }

  /** The marker begins with the only '.' of what follows the name, so its last occurrence is the one just written. */
  lemma NoLaterMarker(name: string, tail: string, i: nat)
    requires '.' !in tail && |name| < i < |name + STAGING_MARKER + tail|
    ensures !OccursAt(name + STAGING_MARKER + tail, STAGING_MARKER, i)
  {
    var s := name + STAGING_MARKER + tail;
    assert s[i] != '.' by {
      if i < |name| + |STAGING_MARKER| {
        assert '.' !in STAGING_MARKER[1..];
        assert s[i] == STAGING_MARKER[1..][i - |name| - 1];
      } else {
        assert s[i] == tail[i - |name| - |STAGING_MARKER|];
      }
    }
    assert i + |STAGING_MARKER| <= |s| ==> s[i..i + |STAGING_MARKER|][0] == s[i];
  }

  /** Cutting at the last marker takes a marked name apart. */
  lemma MarkerCut(name: string, tail: string)
    requires '.' !in tail
    ensures RSplitOnce(name + STAGING_MARKER + tail, STAGING_MARKER) == Some((name, tail))
  {
    var s := name + STAGING_MARKER + tail;
    assert OccursAt(s, STAGING_MARKER, |name|);
    var at := LastBelow(s, STAGING_MARKER, |s| + 1);
    assert at.Some?;
    assert |name| <= at.value;
    if |name| < at.value < |s| {
      NoLaterMarker(name, tail, at.value);
    }
    assert s[..|name|] == name && s[|name| + |STAGING_MARKER|..] == tail;
  }

  lemma StagingNameCut(name: string, id: Uuid)
    ensures RSplitOnce(StagingName(name, id), STAGING_MARKER) == Some((name, UuidText(id)))
  {
    UuidTextParses(id);
    MarkerCut(name, UuidText(id));
  }

  /** The id of a staging name reads back for every target name, even one that already holds the marker. */
  lemma StagingNameParsesBack(name: string, id: Uuid)
    ensures StagingUploadId(StagingName(name, id)) == Some(id)
    ensures IsStagingName(StagingName(name, id))
  {
    StagingNameCut(name, id);
    UuidTextParses(id);
  }

  /** A name collides exactly when it is the staging name of a target name that can exist. */
  lemma CollidesExactly(name: string)
    ensures Collides(name) <==> exists t, y :: IsNormal(t) && name == StagingName(t, y)
  {
    forall t, y | IsNormal(t) && name == StagingName(t, y) ensures Collides(name) {
      StagingNameCut(t, y);
      StagingNameParsesBack(t, y);
    }
  }

  /** Two staging names are equal only for the same target name and the same id. */
  lemma StagingNameInjective(a: string, x: Uuid, b: string, y: Uuid)
    requires StagingName(a, x) == StagingName(b, y)
    ensures a == b && x == y
  {
    StagingNameParsesBack(a, x);
    StagingNameParsesBack(b, y);
    assert |a| == |b|;
    assert a == StagingName(a, x)[..|a|];
    assert b == StagingName(b, y)[..|b|];
  }

  lemma StagingPathParsesBack(target: RelPath, id: Uuid)
    ensures StagingUploadId(FileName(StagingPath(target, id))) == Some(id)
    ensures IsStagingName(FileName(StagingPath(target, id)))
  {
    StagingNameParsesBack(if target == [] then "upload.bin" else target[|target| - 1], id);
  }

  /** Staging files of different transfers never share a path. */
  lemma StagingPathInjective(a: RelPath, x: Uuid, b: RelPath, y: Uuid)
    requires a != [] && b != []
    requires StagingPath(a, x) == StagingPath(b, y)
    ensures a == b && x == y
  {
    var p := StagingPath(a, x);
    assert p[|p| - 1] == StagingName(a[|a| - 1], x) == StagingName(b[|b| - 1], y);
    StagingNameInjective(a[|a| - 1], x, b[|b| - 1], y);
    assert p[..|p| - 1] == a[..|a| - 1] == b[..|b| - 1];
    assert a == a[..|a| - 1] + [a[|a| - 1]];
    assert b == b[..|b| - 1] + [b[|b| - 1]];
  }

  /** The file name of a path; the root has none. */
  function FileName(path: RelPath): string {
    if path == [] then "" else path[|path| - 1]
  }
}
