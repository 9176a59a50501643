/** String operations of the standard library that the handlers rely on. */
module Text {
  import opened Prelude

  /** The Unicode White_Space characters, which is what `str::trim` removes. */
  predicate IsWhitespace(c: char) {
    || '\t' <= c <= '\r' || c == ' '
    || c == '\U{85}' || c == '\U{A0}' || c == '\U{1680}'
    || '\U{2000}' <= c <= '\U{200A}'
    || c == '\U{2028}' || c == '\U{2029}' || c == '\U{202F}'
    || c == '\U{205F}' || c == '\U{3000}'
  }

  function TrimStart(s: string): string {
    if s != "" && IsWhitespace(s[0]) then TrimStart(s[1..]) else s
  }

  function TrimEnd(s: string): string {
    if s != "" && IsWhitespace(s[|s| - 1]) then TrimEnd(s[..|s| - 1]) else s
  }

  function Trim(s: string): string {
    TrimEnd(TrimStart(s))
  }

  /** Neither end of the text is whitespace. */
  predicate Trimmed(s: string) {
    s != "" ==> !IsWhitespace(s[0]) && !IsWhitespace(s[|s| - 1])
  }

  lemma {:induction false} TrimStartShape(s: string)
    ensures |TrimStart(s)| <= |s| && TrimStart(s) == s[|s| - |TrimStart(s)|..]
    ensures TrimStart(s) != "" ==> !IsWhitespace(TrimStart(s)[0])
    ensures forall i :: 0 <= i < |s| - |TrimStart(s)| ==> IsWhitespace(s[i])
  {
    if s != "" && IsWhitespace(s[0]) {
      TrimStartShape(s[1..]);
      forall i | 0 <= i < |s| - |TrimStart(s)| ensures IsWhitespace(s[i]) {
        if i > 0 { assert s[1..][i - 1] == s[i]; }
      }
    }
  }

  lemma {:induction false} TrimEndShape(s: string)
    ensures |TrimEnd(s)| <= |s| && TrimEnd(s) == s[..|TrimEnd(s)|]
    ensures TrimEnd(s) != "" ==> !IsWhitespace(TrimEnd(s)[|TrimEnd(s)| - 1])
    ensures forall i :: |TrimEnd(s)| <= i < |s| ==> IsWhitespace(s[i])
  {
    if s != "" && IsWhitespace(s[|s| - 1]) {
      TrimEndShape(s[..|s| - 1]);
      forall i | |TrimEnd(s)| <= i < |s| ensures IsWhitespace(s[i]) {
        if i < |s| - 1 { assert s[..|s| - 1][i] == s[i]; }
      }
    }
  }

  /** Trimming cuts a slice whose removed ends are whitespace only. */
  lemma TrimSlice(s: string) returns (lo: nat, hi: nat)
    ensures lo <= hi <= |s| && Trim(s) == s[lo..hi]
    ensures forall i :: 0 <= i < lo || hi <= i < |s| ==> IsWhitespace(s[i])
  {
    TrimStartShape(s);
    var t := TrimStart(s);
    TrimEndShape(t);
    lo := |s| - |t|;
    hi := lo + |TrimEnd(t)|;
    forall i | 0 <= i < lo || hi <= i < |s| ensures IsWhitespace(s[i]) {
      if hi <= i { assert s[i] == t[i - lo]; }
    }
  }

  lemma TrimKeepsText(s: string)
    ensures forall c :: c in Trim(s) ==> c in s
    ensures forall c :: c in s && !IsWhitespace(c) ==> c in Trim(s)
  {
    var lo, hi := TrimSlice(s);
    forall c | c in s && !IsWhitespace(c) ensures c in Trim(s) {
      var i :| 0 <= i < |s| && s[i] == c;
      assert s[lo..hi][i - lo] == c;
    }
  }

  lemma TrimShortens(s: string)
    ensures |Trim(s)| <= |s|
    ensures Trimmed(s) ==> Trim(s) == s
    ensures !Trimmed(s) ==> |Trim(s)| < |s|
  {
    TrimStartShape(s);
    TrimEndShape(TrimStart(s));
  }

  /** A text is a fixed point of trimming exactly when its ends are not whitespace. */
  lemma TrimFixedPoint(s: string)
    ensures Trim(s) == s <==> Trimmed(s)
    ensures |Trim(s)| <= |s|
    ensures !Trimmed(s) ==> |Trim(s)| < |s|
    ensures forall c :: c in Trim(s) ==> c in s
    ensures forall c :: c in s && !IsWhitespace(c) ==> c in Trim(s)
  {
    TrimKeepsText(s);
    TrimShortens(s);
  }

  predicate Blank(s: string) {
    forall i :: 0 <= i < |s| ==> IsWhitespace(s[i])
  }

  lemma {:induction false} TrimStartPads(pre: string, s: string)
    requires Blank(pre) && s != "" && !IsWhitespace(s[0])
    ensures TrimStart(pre + s) == s
    decreases |pre|
  {
    if pre == "" {
      assert pre + s == s;
    } else {
      assert (pre + s)[1..] == pre[1..] + s;
      TrimStartPads(pre[1..], s);
    }
  }

  lemma {:induction false} TrimEndPads(s: string, post: string)
    requires Blank(post) && s != "" && !IsWhitespace(s[|s| - 1])
    ensures TrimEnd(s + post) == s
    decreases |post|
  {
    if post == "" {
      assert s + post == s;
    } else {
      assert (s + post)[..|s + post| - 1] == s + post[..|post| - 1];
      TrimEndPads(s, post[..|post| - 1]);
    }
  }

  /** Trimming takes away whatever blanks were put around a text. */
  lemma TrimPads(pre: string, s: string, post: string)
    requires Blank(pre) && Blank(post) && s != "" && Trimmed(s)
    ensures Trim(pre + s + post) == s
  {
    assert pre + s + post == pre + (s + post);
    TrimStartPads(pre, s + post);
    TrimEndPads(s, post);
  }

  /** The parts of a text between occurrences of a separator. */
  function Split(s: string, sep: char): (parts: seq<string>)
    ensures |parts| >= 1
  {
    if s == "" then [""]
    else
      var rest := Split(s[1..], sep);
      if s[0] == sep then [""] + rest else [[s[0]] + rest[0]] + rest[1..]
  }

  function Join(parts: seq<string>, sep: char): string {
    if parts == [] then ""
    else if |parts| == 1 then parts[0]
    else parts[0] + [sep] + Join(parts[1..], sep)
  }

  lemma {:induction false} SplitOfPiece(piece: string, rest: string, sep: char)
    requires sep !in piece
    ensures Split(piece, sep) == [piece]
    ensures Split(piece + [sep] + rest, sep) == [piece] + Split(rest, sep)
  {
    if piece == "" {
      assert ("" + [sep] + rest)[1..] == rest;
    } else {
      SplitOfPiece(piece[1..], rest, sep);
      var whole := piece + [sep] + rest;
      assert whole[1..] == piece[1..] + [sep] + rest;
      assert [piece[0]] + piece[1..] == piece;
    }
  }

  /** Joining parts that hold no separator and splitting again gives the parts back. */
  lemma {:induction false} SplitOfJoin(parts: seq<string>, sep: char)
    requires parts != []
    requires forall i :: 0 <= i < |parts| ==> sep !in parts[i]
    ensures Split(Join(parts, sep), sep) == parts
  {
    if |parts| == 1 {
      SplitOfPiece(parts[0], "", sep);
    } else {
      SplitOfJoin(parts[1..], sep);
      SplitOfPiece(parts[0], Join(parts[1..], sep), sep);
    }
  }

  /** Splitting loses nothing: the parts join back to the text, and hold no separator. */
  lemma {:induction false} JoinOfSplit(s: string, sep: char)
    ensures Join(Split(s, sep), sep) == s
    ensures forall i :: 0 <= i < |Split(s, sep)| ==> sep !in Split(s, sep)[i]
  {
    if s != "" {
      JoinOfSplit(s[1..], sep);
      var rest := Split(s[1..], sep);
      assert [s[0]] + s[1..] == s;
      if s[0] == sep {
        assert ([""] + rest)[1..] == rest;
      } else {
        var parts := [[s[0]] + rest[0]] + rest[1..];
        assert parts[1..] == rest[1..];
        if |rest| == 1 {
        } else {
          assert [s[0]] + (rest[0] + [sep] + Join(rest[1..], sep))
              == [s[0]] + rest[0] + [sep] + Join(rest[1..], sep);
        }
      }
    }
  }

  /** Every character of a part is a character of the text. */
  lemma {:induction false} JoinContains(parts: seq<string>, sep: char, i: nat, c: char)
    requires i < |parts| && c in parts[i]
    ensures c in Join(parts, sep)
  {
    if |parts| > 1 && i > 0 {
      JoinContains(parts[1..], sep, i - 1, c);
    }
  }

  lemma {:induction false} JoinOnlyContains(parts: seq<string>, sep: char, c: char)
    requires c != sep
    requires forall i :: 0 <= i < |parts| ==> c !in parts[i]
    ensures c !in Join(parts, sep)
  {
    if |parts| > 1 {
      JoinOnlyContains(parts[1..], sep, c);
    }
  }

  predicate OccursAt(s: string, sub: string, i: nat) {
    i + |sub| <= |s| && s[i..i + |sub|] == sub
  }

  predicate Contains(s: string, sub: string) {
    exists i :: 0 <= i <= |s| && OccursAt(s, sub, i)
  }

  /** The last position below `bound` at which `sub` occurs. */
  function LastBelow(s: string, sub: string, bound: nat): (r: Option<nat>)
    ensures r.Some? ==> r.value < bound && OccursAt(s, sub, r.value)
    ensures r.Some? ==> forall i :: r.value < i < bound ==> !OccursAt(s, sub, i)
    ensures r.None? ==> forall i :: 0 <= i < bound ==> !OccursAt(s, sub, i)
  {
    if bound == 0 then None
    else if OccursAt(s, sub, bound - 1) then Some(bound - 1)
    else LastBelow(s, sub, bound - 1)
  }

  /** `str::rsplit_once`: the text before and after the last occurrence. */
  function RSplitOnce(s: string, sub: string): (r: Option<(string, string)>)
    ensures r.None? <==> !Contains(s, sub)
    ensures r.Some? ==> s == r.value.0 + sub + r.value.1
  {
    var at := LastBelow(s, sub, |s| + 1);
    if at.None? then None
    else
      assert s == s[..at.value] + sub + s[at.value + |sub|..];
      Some((s[..at.value], s[at.value + |sub|..]))
  }

  function LowerChar(c: char): char {
    if 'A' <= c <= 'Z' then (c as int + 32) as char else c
  }

  /** The LIKE operator of SQLite: '%' stands for any text, '_' for any character, and ASCII letters match in both cases. */
  predicate Like(text: string, pattern: string)
    decreases |text| + |pattern|
  {
    if pattern == "" then text == ""
    else if pattern[0] == '%' then Like(text, pattern[1..]) || (text != "" && Like(text[1..], pattern))
    else text != "" && (pattern[0] == '_' || LowerChar(text[0]) == LowerChar(pattern[0])) && Like(text[1..], pattern[1..])
  }

  lemma {:induction false} LikeAnything(text: string)
    ensures Like(text, "%")
    decreases |text|
  {
    assert "%"[1..] == "";
    if text != "" {
      LikeAnything(text[1..]);
    }
  }

  /** Every text matches itself, whatever wildcards it holds, in front of what matches. */
  lemma {:induction false} LikeAfterSame(front: string, text: string, pattern: string)
    requires Like(text, pattern)
    ensures Like(front + text, front + pattern)
    decreases |front|
  {
    if front == "" {
      assert front + text == text && front + pattern == pattern;
    } else {
      assert (front + text)[1..] == front[1..] + text && (front + pattern)[1..] == front[1..] + pattern;
      LikeAfterSame(front[1..], text, pattern);
    }
  }

  /** No wildcard of LIKE is in the text. */
  predicate Literal(s: string) {
    '%' !in s && '_' !in s
  }

  /** Equal up to ASCII case. */
  predicate SameLetters(a: string, b: string) {
    |a| == |b| && forall i :: 0 <= i < |a| ==> LowerChar(a[i]) == LowerChar(b[i])
  }

  /** In front of a pattern a text without wildcards matches itself up to ASCII case and nothing else. */
  lemma {:induction false} LikeLiteral(text: string, front: string, pattern: string)
    requires Literal(front)
    ensures Like(text, front + pattern) <==>
            |text| >= |front| && SameLetters(text[..|front|], front) && Like(text[|front|..], pattern)
    decreases |front|
  {
    if front == "" {
      assert front + pattern == pattern && text[0..] == text;
    } else if text != "" {
      var rest := front[1..];
      assert (front + pattern)[0] == front[0] && (front + pattern)[1..] == rest + pattern;
      LikeLiteral(text[1..], rest, pattern);
      if |text| >= |front| {
        assert text[1..][..|rest|] == text[..|front|][1..] && text[1..][|rest|..] == text[|front|..];
        SameLettersTake(text[..|front|], front);
      }
    }
  }

  lemma SameLettersTake(a: string, b: string)
    requires |a| == |b| > 0
    ensures SameLetters(a, b) <==> LowerChar(a[0]) == LowerChar(b[0]) && SameLetters(a[1..], b[1..])
  {
    if LowerChar(a[0]) == LowerChar(b[0]) && SameLetters(a[1..], b[1..]) {
      forall i | 0 <= i < |a| ensures LowerChar(a[i]) == LowerChar(b[i]) {
        assert i > 0 ==> a[i] == a[1..][i - 1] && b[i] == b[1..][i - 1];
      }
    }
  }
}
