/** The in-memory log of the console (server/src/logbuf.rs): a ring of lines and the writer that cuts its input
    into lines. Text is ASCII, so lengths in bytes and in characters agree. */
module LogLines {
  import opened Prelude
  import opened Text

  const MAX_LOG_LINES: nat := 500
  const MAX_PENDING: nat := 4000

  // ------------------------------------------------------------ the ring

  /** The lines worth keeping: redacted, and not blank afterwards. */
  function Kept(pushed: seq<string>, redact: string -> string): seq<string> {
    if pushed == [] then []
    else
      var line := redact(pushed[|pushed| - 1]);
      Kept(pushed[..|pushed| - 1], redact) + (if Trim(line) == "" then [] else [line])
  }

  function LastOf<T>(s: seq<T>, n: nat): seq<T> {
    if |s| <= n then s else s[|s| - n..]
  }

  /** `rev().take(n)`. */
  function NewestFirst(s: seq<string>, n: nat): seq<string> {
    seq(Min(n, |s|), i requires 0 <= i < |s| => s[|s| - 1 - i])
  }

  function Clamp(limit: nat): nat {
    if limit < 1 then 1 else Min(limit, MAX_LOG_LINES)
  }

  /** The newest lines of the ring are the newest of all. */
  lemma NewestOfRing(kept: seq<string>, n: nat)
    requires n <= |LastOf(kept, MAX_LOG_LINES)|
    ensures NewestFirst(LastOf(kept, MAX_LOG_LINES), n) == NewestFirst(kept, n)
    ensures forall i :: 0 <= i < n ==> NewestFirst(kept, n)[i] == kept[|kept| - 1 - i]
  {
  }

  lemma LastOfPush<T>(s: seq<T>, x: T, n: nat)
    requires n > 0
    ensures LastOf(s + [x], n) == (if |LastOf(s, n)| >= n then LastOf(s, n)[1..] else LastOf(s, n)) + [x]
  {
  }

  lemma KeptPush(pushed: seq<string>, line: string, redact: string -> string)
    ensures Kept(pushed + [line], redact)
         == Kept(pushed, redact) + (if Trim(redact(line)) == "" then [] else [redact(line)])
  {
    assert (pushed + [line])[..|pushed|] == pushed;
  }

  class LogBuffer {
    const redact: string -> string
    var lines: seq<string>
    ghost var pushed: seq<string>

    constructor (redact: string -> string)
      ensures Valid() && pushed == [] && this.redact == redact
    {
      this.redact := redact;
      lines, pushed := [], [];
    }

    /** The ring is the end of everything worth keeping that was ever pushed. */
    ghost predicate Valid()
      reads this
    {
      lines == LastOf(Kept(pushed, redact), MAX_LOG_LINES)
    }

    method Push(line: string)
      requires Valid()
      modifies this
      ensures Valid() && pushed == old(pushed) + [line] && |lines| <= MAX_LOG_LINES
    {
      KeptPush(pushed, line, redact);
      var clean := redact(line);
      pushed := pushed + [line];
      if Trim(clean) == "" {
        return;
      }
      LastOfPush(Kept(old(pushed), redact), clean, MAX_LOG_LINES);
      if |lines| >= MAX_LOG_LINES {
        lines := lines[1..];
      }
      lines := lines + [clean];
    }

    /** `recent`: newest first, of everything ever kept, and never more than the ring holds. */
    method Recent(limit: nat) returns (recent: seq<string>)
      requires Valid()
      ensures recent == NewestFirst(Kept(pushed, redact), Clamp(limit))
      ensures var kept := Kept(pushed, redact);
              && |recent| == Min(if limit < 1 then 1 else if limit > 500 then 500 else limit, |kept|)
              && forall i :: 0 <= i < |recent| ==> recent[i] == kept[|kept| - 1 - i]
    {
      var n := Min(Clamp(limit), |lines|);
      recent := [];
      while |recent| < n
        invariant |recent| <= n
        invariant recent == NewestFirst(lines, |recent|)
      {
        recent := recent + [lines[|lines| - 1 - |recent|]];
      }
      NewestOfRing(Kept(pushed, redact), n);
    }
  }

  // ------------------------------------------------------------ cutting into lines

  /** `trim_end_matches(['\n', '\r'])`. */
  function Chomp(line: string): string {
    if line != "" && (line[|line| - 1] == '\n' || line[|line| - 1] == '\r') then Chomp(line[..|line| - 1]) else line
  }

  /** The lines that end with a newline, as they are pushed. */
  function Complete(text: string): seq<string> {
    var parts := Split(text, '\n');
    Chomped(parts[..|parts| - 1])
  }

  function Chomped(parts: seq<string>): seq<string> {
    if parts == [] then [] else [Chomp(parts[0])] + Chomped(parts[1..])
  }

  /** What follows the last newline. */
  function Rest(text: string): string {
    var parts := Split(text, '\n');
    parts[|parts| - 1]
  }

  /** What the writer has pushed, and what it still holds back. */
  datatype Written = Written(pushed: seq<string>, pending: string)

  function Drained(w: Written): Written {
    Written(w.pushed + Complete(w.pending), Rest(w.pending))
  }

  function Write(w: Written, buf: string): Written {
    var d := Drained(Written(w.pushed, w.pending + buf));
    if |d.pending| > MAX_PENDING then Written(d.pushed + [d.pending], "") else d
  }

  function Flush(w: Written): Written {
    var d := Drained(w);
    if d.pending != "" then Written(d.pushed + [d.pending], "") else d
  }

  function WriteAll(w: Written, writes: seq<string>): Written
    decreases writes
  {
    if writes == [] then w else WriteAll(Write(w, writes[0]), writes[1..])
  }

  function Concat(writes: seq<string>): string {
    if writes == [] then "" else writes[0] + Concat(writes[1..])
  }

  lemma ChompNewline(line: string)
    ensures Chomp(line + "\n") == Chomp(line)
  {
    assert (line + "\n")[..|line|] == line;
  }

  lemma {:induction false} SplitAppend(a: string, b: string)
    ensures Complete(a + b) == Complete(a) + Complete(Rest(a) + b)
    ensures Rest(a + b) == Rest(Rest(a) + b)
    decreases |a|
  {
    SplitParts(a, b);
    var left, right := Split(a, '\n'), Split(Rest(a) + b, '\n');
    ChompedConcat(left[..|left| - 1], right[..|right| - 1]);
    var parts := left[..|left| - 1] + right;
    assert parts[..|parts| - 1] == left[..|left| - 1] + right[..|right| - 1];
  }

  lemma {:induction false} ChompedConcat(a: seq<string>, b: seq<string>)
    ensures Chomped(a + b) == Chomped(a) + Chomped(b)
  {
    if a == [] {
      assert a + b == b;
    } else {
      ChompedConcat(a[1..], b);
      assert (a + b)[1..] == a[1..] + b;
    }
  }

  /** A character in front of a text whose parts are known. */
  function InFront(c: char, parts: seq<string>): (r: seq<string>)
    requires parts != []
    ensures r != []
  {
    if c == '\n' then [""] + parts else [[c] + parts[0]] + parts[1..]
  }

  lemma SplitIsInFront(text: string)
    requires text != ""
    ensures Split(text, '\n') == InFront(text[0], Split(text[1..], '\n'))
  {
  }

  lemma {:induction false} SplitParts(a: string, b: string)
    ensures var left := Split(a, '\n');
            Split(a + b, '\n') == left[..|left| - 1] + Split(left[|left| - 1] + b, '\n')
    decreases |a|
  {
    if a == "" {
      assert a + b == b;
    } else {
      SplitParts(a[1..], b);
      SplitIsInFront(a);
      SplitIsInFront(a + b);
      assert (a + b)[1..] == a[1..] + b;
      SplitHead(a[0], Split(a[1..], '\n'), b);
    }
  }

  lemma SplitHead(c: char, rest: seq<string>, b: string)
    requires rest != []
    ensures var left, n := InFront(c, rest), |rest| - 1;
            InFront(c, rest[..n] + Split(rest[n] + b, '\n')) == left[..|left| - 1] + Split(left[|left| - 1] + b, '\n')
  {
    var n := |rest| - 1;
    var tail := Split(rest[n] + b, '\n');
    if c == '\n' {
      assert ([""] + rest)[..n + 1] == [""] + rest[..n];
    } else if n == 0 {
      OnlyPartGrows(c, rest[0], b);
      assert rest[..0] + tail == tail && InFront(c, rest)[..0] == [];
    } else {
      FirstPartGrows(c, rest, tail);
    }
  }

  lemma OnlyPartGrows(c: char, part: string, b: string)
    requires c != '\n'
    ensures InFront(c, Split(part + b, '\n')) == Split([c] + part + b, '\n')
  {
    assert ([c] + part + b)[1..] == part + b;
  }

  lemma FirstPartGrows(c: char, rest: seq<string>, tail: seq<string>)
    requires c != '\n' && |rest| > 1
    ensures var left, n := InFront(c, rest), |rest| - 1;
            InFront(c, rest[..n] + tail) == left[..n] + tail && |left| == |rest| && left[n] == rest[n]
  {
    var n := |rest| - 1;
    var left := InFront(c, rest);
    Behead(rest[..n], tail);
    assert left == [[c] + rest[0]] + rest[1..];
    assert rest[..n][1..] == rest[1..n] && left[..n] == [[c] + rest[0]] + rest[1..n];
    Regrouped([[c] + rest[0]], rest[1..n], tail);
  }

  lemma Behead(a: seq<string>, b: seq<string>)
    requires a != []
    ensures (a + b)[0] == a[0] && (a + b)[1..] == a[1..] + b
  {
  }

  lemma Regrouped(a: seq<string>, b: seq<string>, c: seq<string>)
    ensures a + (b + c) == a + b + c
  {
  }

  /** No line is too long for the writer: complete lines fit the limit, and the last one may be one longer. */
  predicate Fits(text: string) {
    PartsFit(Split(text, '\n'))
  }

  predicate PartsFit(parts: seq<string>)
    requires parts != []
  {
    && (forall i :: 0 <= i < |parts| - 1 ==> |parts[i]| <= MAX_PENDING)
    && |parts[|parts| - 1]| <= MAX_PENDING + 1
  }

  lemma LaterPartsFit(before: seq<string>, parts: seq<string>)
    requires parts != [] && PartsFit(before + parts)
    ensures PartsFit(parts)
  {
    var all := before + parts;
    forall i | 0 <= i < |parts| ensures parts[i] == all[|before| + i] {
    }
  }

  /** What a text is cut into. */
  function Lines(text: string): seq<string> {
    Complete(text) + (if Rest(text) == "" then [] else [Rest(text)])
  }

  lemma FitsRest(a: string, b: string)
    requires Fits(a + b)
    ensures Fits(Rest(a) + b)
  {
    SplitParts(a, b);
    LaterPartsFit(Split(a, '\n')[..|Split(a, '\n')| - 1], Split(Rest(a) + b, '\n'));
  }

  lemma {:induction false} SplitPlain(s: string)
    requires '\n' !in s
    ensures Split(s, '\n') == [s]
  {
    SplitOfPiece(s, "", '\n');
  }

  /** Without a newline in it, a text that fits and is past the limit is at its end. */
  lemma PastLimitIsEnd(held: string, rest: string)
    requires '\n' !in held && |held| > MAX_PENDING && Fits(held + rest)
    ensures rest == ""
  {
    if rest != "" {
      assert held + [rest[0]] + rest[1..] == held + rest;
      FirstOfPlain(held, [rest[0]], rest[1..]);
    }
  }

  lemma FirstPart(held: string, rest: string)
    requires '\n' !in held
    ensures |Split(held + rest, '\n')[0]| >= |held|
    decreases |held|
  {
    if held != "" {
      assert (held + rest)[1..] == held[1..] + rest;
      FirstPart(held[1..], rest);
    }
  }

  lemma FirstOfPlain(held: string, next: string, rest: string)
    requires '\n' !in held && |held| > MAX_PENDING && |next| == 1
    ensures !Fits(held + next + rest)
  {
    var text := held + next + rest;
    var parts := Split(text, '\n');
    if next == "\n" {
      SplitOfPiece(held, rest, '\n');
      assert held + "\n" + rest == text;
      assert parts[0] == held;
    } else {
      assert '\n' !in held + next;
      FirstPart(held + next, rest);
    }
  }

  lemma {:induction false} EmptyWrites(w: Written, writes: seq<string>)
    requires Concat(writes) == "" && w.pending == ""
    ensures WriteAll(w, writes) == w
    decreases writes
  {
    if writes != [] {
      assert writes[0] == "" && w.pending + writes[0] == "";
      assert Complete("") == [] && w.pushed + [] == w.pushed;
      EmptyWrites(w, writes[1..]);
    }
  }

  lemma {:induction false} WritesAddUp(w: Written, writes: seq<string>)
    requires '\n' !in w.pending && |w.pending| <= MAX_PENDING && Fits(w.pending + Concat(writes))
    ensures Flush(WriteAll(w, writes)).pushed == w.pushed + Lines(w.pending + Concat(writes))
    decreases writes
  {
    if writes == [] {
      assert w.pending + "" == w.pending;
      SplitPlain(w.pending);
      assert Complete(w.pending) == [] && w.pushed + [] == w.pushed;
    } else {
      var next := Write(w, writes[0]);
      assert w.pending + Concat(writes) == (w.pending + writes[0]) + Concat(writes[1..]);
      OneWrite(w, writes[0], Concat(writes[1..]));
      if |Rest(w.pending + writes[0])| > MAX_PENDING {
        EmptyWrites(next, writes[1..]);
        assert Complete("") == [] && next.pushed + [] == next.pushed;
      } else {
        WritesAddUp(next, writes[1..]);
        Regroup(w.pushed, Complete(w.pending + writes[0]), Lines(next.pending + Concat(writes[1..])));
      }
    }
  }

  lemma Regroup(a: seq<string>, b: seq<string>, c: seq<string>)
    ensures a + (b + c) == a + b + c
  {
  }

  /** One write leaves the rest of the text to be cut as before. */
  lemma OneWrite(w: Written, buf: string, rest: string)
    requires Fits(w.pending + buf + rest)
    ensures var text := w.pending + buf;
            && '\n' !in Rest(text)
            && Fits(Rest(text) + rest)
            && Lines(text + rest) == Complete(text) + Lines(Rest(text) + rest)
            && (|Rest(text)| > MAX_PENDING ==> rest == "" && Lines(text + rest) == Complete(text) + [Rest(text)])
  {
    var text := w.pending + buf;
    JoinOfSplit(text, '\n');
    FitsRest(text, rest);
    SplitAppend(text, rest);
    if |Rest(text)| > MAX_PENDING {
      PastLimitIsEnd(Rest(text), rest);
      assert Rest(text) + rest == Rest(text);
      SplitPlain(Rest(text));
    }
  }

  /** One write of a whole text always pushes its lines. */
  lemma OneWriteOfAll(pushed: seq<string>, text: string)
    ensures Flush(Write(Written(pushed, ""), text)).pushed == pushed + Lines(text)
  {
    assert "" + text == text;
    JoinOfSplit(text, '\n');
    SplitPlain(Rest(text));
    assert Complete(Rest(text)) == [] && Complete("") == [];
    assert pushed + Complete(text) + [Rest(text)] == pushed + (Complete(text) + [Rest(text)]);
  }

  /** Every way of cutting a text into writes pushes the same lines. */
  ghost predicate Independent(text: string) {
    forall writes :: Concat(writes) == text ==> Flush(WriteAll(Written([], ""), writes)).pushed == Lines(text)
  }

  lemma InFrontTake(c: char, rest: seq<string>, i: nat)
    requires rest != [] && i < |InFront(c, rest)|
    ensures c == '\n' ==> InFront(c, rest)[..i + 1] == [""] + rest[..i]
    ensures c != '\n' ==> InFront(c, rest)[..i + 1] == InFront(c, rest[..i + 1])
  {
    if c != '\n' {
      assert rest[..i + 1][1..] == rest[1..i + 1];
    }
  }

  /** A cut after some part of a text. */
  lemma {:induction false} CutAfter(text: string, i: nat) returns (x: string, y: string)
    requires i < |Split(text, '\n')|
    ensures text == x + y && Split(x, '\n') == Split(text, '\n')[..i + 1]
    ensures if i < |Split(text, '\n')| - 1 then y != "" && y[0] == '\n' else y == ""
    decreases |text|
  {
    if text == "" {
      x, y := "", "";
    } else {
      var rest := Split(text[1..], '\n');
      SplitIsInFront(text);
      InFrontTake(text[0], rest, i);
      if text[0] == '\n' && i == 0 {
        x, y := "", text;
      } else {
        var head;
        head, y := CutAfter(text[1..], if text[0] == '\n' then i - 1 else i);
        x := [text[0]] + head;
        SplitIsInFront(x);
        assert x[1..] == head && text == [text[0]] + text[1..];
      }
    }
  }

  /** Two writes, the first of which ends past the limit: its end is pushed as a line of its own. */
  lemma CutPastLimit(x: string, y: string)
    requires |Rest(x)| > MAX_PENDING
    ensures Flush(WriteAll(Written([], ""), [x, y])).pushed == Complete(x) + [Rest(x)] + Lines(y)
    ensures Lines(x + y) == Complete(x) + Lines(Rest(x) + y)
  {
    assert "" + x == x && [] + Complete(x) == Complete(x);
    var first := Write(Written([], ""), x);
    assert [x, y][1..] == [y] && [y][1..] == [];
    assert WriteAll(first, [y]) == Write(first, y);
    OneWriteOfAll(first.pushed, y);
    SplitAppend(x, y);
    assert Complete(x) + Complete(Rest(x) + y) + [Rest(x + y)] == Complete(x) + (Complete(Rest(x) + y) + [Rest(x + y)]);
  }

  lemma NewlineFirst(line: string, y: string)
    requires '\n' !in line && y != "" && y[0] == '\n'
    ensures |Lines(line + y)| == |Lines(y)|
  {
    SplitOfPiece(line, y[1..], '\n');
    SplitOfPiece("", y[1..], '\n');
    assert line + ['\n'] + y[1..] == line + y && "" + ['\n'] + y[1..] == y;
    ChompedLength(Split(line + y, '\n')[..|Split(line + y, '\n')| - 1]);
    ChompedLength(Split(y, '\n')[..|Split(y, '\n')| - 1]);
  }

  lemma {:induction false} ChompedLength(parts: seq<string>)
    ensures |Chomped(parts)| == |parts|
  {
    if parts != [] {
      ChompedLength(parts[1..]);
    }
  }

  lemma LongLineDependsOnCut(x: string, y: string)
    requires |Rest(x)| > MAX_PENDING && '\n' !in Rest(x) && y != "" && ('\n' in y ==> y[0] == '\n')
    ensures !Independent(x + y)
  {
    CutPastLimit(x, y);
    if y[0] == '\n' {
      NewlineFirst(Rest(x), y);
    } else {
      assert '\n' !in Rest(x) + y;
      SplitPlain(Rest(x) + y);
      SplitPlain(y);
      assert |Lines(Rest(x) + y)| == 1 && |Lines(y)| == 1;
    }
    assert Concat([x, y]) == x + y by {
      assert [x, y][1..] == [y] && Concat([y]) == y + "" && y + "" == y;
    }
  }

  lemma TooLongDepends(text: string)
    requires !Fits(text)
    ensures !Independent(text)
  {
    var parts := Split(text, '\n');
    if i :| 0 <= i < |parts| - 1 && |parts[i]| > MAX_PENDING {
      var x, y := CutAfter(text, i);
      LongLineBeforeNewline(x, y);
    } else {
      LongLast(text, parts[|parts| - 1]);
    }
  }

  /** A complete line past the limit, cut right before its newline. */
  lemma LongLineBeforeNewline(x: string, y: string)
    requires |Rest(x)| > MAX_PENDING && y != "" && y[0] == '\n'
    ensures !Independent(x + y)
  {
    JoinOfSplit(x, '\n');
    LongLineDependsOnCut(x, y);
  }

  /** A last line more than one past the limit, cut inside. */
  lemma LongLast(text: string, last: string)
    requires last == Rest(text) && |last| > MAX_PENDING + 1
    ensures !Independent(text)
  {
    JoinOfSplit(text, '\n');
    RestIsSuffix(text);
    var at := |text| - |last| + MAX_PENDING + 1;
    assert text == text[..at] + text[at..];
    assert text[at..] == last[MAX_PENDING + 1..];
    assert text[..at] == text[..|text| - |last|] + last[..MAX_PENDING + 1];
    RestAfterNewline(text[..|text| - |last|], last[..MAX_PENDING + 1]);
    LongLineDependsOnCut(text[..at], text[at..]);
  }

  /** The rest of a text is its end, right after a newline or the whole text. */
  lemma {:induction false} RestIsSuffix(text: string)
    ensures var k := |text| - |Rest(text)|;
            0 <= k && text[k..] == Rest(text) && (k > 0 ==> text[k - 1] == '\n')
    ensures |Split(text, '\n')| > 1 ==> |Rest(text)| < |text|
    decreases |text|
  {
    if text != "" {
      RestIsSuffix(text[1..]);
      var parts, rest := Split(text, '\n'), Split(text[1..], '\n');
      if text[0] != '\n' && |rest| == 1 {
        JoinOfSplit(text[1..], '\n');
        assert text == [text[0]] + text[1..];
      } else {
        assert Rest(text) == Rest(text[1..]);
      }
    }
  }

  lemma RestAfterNewline(before: string, plain: string)
    requires (before != "" ==> before[|before| - 1] == '\n') && '\n' !in plain
    ensures Rest(before + plain) == plain
  {
    SplitPlain(plain);
    if before == "" {
      assert before + plain == plain;
    } else {
      var a := before[..|before| - 1];
      assert before == a + "\n";
      JoinOfSplit(a, '\n');
      SplitAppend(a, "\n");
      SplitOfPiece(Rest(a), "", '\n');
      assert Rest(a) + ['\n'] + "" == Rest(a) + "\n";
      SplitAppend(before, plain);
      assert "" + plain == plain;
    }
  }

  /** Where the input is cut into writes does not matter while no line is too long: the pushed lines are
      those of the whole text. */
  lemma SplittingIsIndependent(writes: seq<string>)
    requires Fits(Concat(writes))
    ensures Flush(WriteAll(Written([], ""), writes)).pushed == Lines(Concat(writes))
  {
    assert "" + Concat(writes) == Concat(writes);
    WritesAddUp(Written([], ""), writes);
    assert [] + Lines(Concat(writes)) == Lines(Concat(writes));
  }

  /** Exactly when the cut into writes does not matter. */
  lemma IndependentIffFits(text: string)
    ensures Independent(text) <==> Fits(text)
  {
    if Fits(text) {
      forall writes | Concat(writes) == text
        ensures Flush(WriteAll(Written([], ""), writes)).pushed == Lines(text)
      {
        SplittingIsIndependent(writes);
      }
    } else {
      TooLongDepends(text);
    }
  }

  // ------------------------------------------------------------ what the lines are

  /** A part of the text without the line ends behind it, and without anything else. */
  predicate CutFrom(line: string, part: string) {
    && line <= part
    && (forall i :: |line| <= i < |part| ==> part[i] == '\n' || part[i] == '\r')
    && (line != "" ==> line[|line| - 1] != '\n' && line[|line| - 1] != '\r')
  }

  lemma {:induction false} ChompCuts(part: string)
    ensures CutFrom(Chomp(part), part)
    decreases |part|
  {
    if part != "" && (part[|part| - 1] == '\n' || part[|part| - 1] == '\r') {
      ChompCuts(part[..|part| - 1]);
    }
  }

  /** The complete lines of a text are its parts before the newlines, each without the line ends behind it. */
  lemma CompleteLinesAreCut(text: string)
    ensures var parts := Split(text, '\n');
            |Complete(text)| == |parts| - 1 && forall i :: 0 <= i < |parts| - 1 ==> CutFrom(Complete(text)[i], parts[i])
  {
    var parts := Split(text, '\n');
    ChompedAt(parts[..|parts| - 1]);
    forall i | 0 <= i < |parts| - 1 ensures CutFrom(Complete(text)[i], parts[i]) {
      ChompCuts(parts[i]);
    }
  }

  lemma {:induction false} ChompedAt(parts: seq<string>)
    ensures |Chomped(parts)| == |parts| && forall i :: 0 <= i < |parts| ==> Chomped(parts)[i] == Chomp(parts[i])
  {
    if parts != [] {
      ChompedAt(parts[1..]);
      forall i | 0 <= i < |parts| ensures Chomped(parts)[i] == Chomp(parts[i]) {
        if i > 0 { assert Chomped(parts)[i] == Chomped(parts[1..])[i - 1]; }
      }
    }
  }

  /** Without carriage returns nothing is cut off. */
  lemma PlainLines(text: string)
    requires '\r' !in text
    ensures var parts := Split(text, '\n'); Complete(text) == parts[..|parts| - 1]
  {
    var parts := Split(text, '\n');
    JoinOfSplit(text, '\n');
    ChompedAt(parts[..|parts| - 1]);
    forall i | 0 <= i < |parts| - 1 ensures Chomp(parts[i]) == parts[i] {
      ChompCuts(parts[i]);
      if |Chomp(parts[i])| < |parts[i]| {
        JoinContains(parts, '\n', i, parts[i][|parts[i]| - 1]);
      }
    }
  }

  lemma {:induction false} JoinSnoc(parts: seq<string>, last: string)
    requires parts != []
    ensures Join(parts + [last], '\n') == Join(parts, '\n') + "\n" + last
  {
    if |parts| == 1 {
      assert (parts + [last])[1..] == [last];
    } else {
      JoinSnoc(parts[1..], last);
      assert (parts + [last])[1..] == parts[1..] + [last];
      Associate(parts[0], Join(parts[1..], '\n'), last);
    }
  }

  lemma Associate(a: string, b: string, c: string)
    ensures a + ['\n'] + (b + "\n" + c) == a + ['\n'] + b + "\n" + c
  {
  }

  lemma EndOfJoin(before: string, last: string, text: string)
    requires text == before + "\n" + last
    ensures text != "" && text[|text| - 1] == (if last == "" then '\n' else last[|last| - 1])
    ensures last == "" ==> text == before + "\n"
  {
  }

  /** Joined with newlines, the lines of a text without carriage returns are the text, up to its final newline. */
  lemma LinesJoinBack(text: string)
    requires '\r' !in text
    ensures text == Join(Lines(text), '\n') + (if text != "" && text[|text| - 1] == '\n' then "\n" else "")
  {
    var parts := Split(text, '\n');
    var front, last := parts[..|parts| - 1], Rest(text);
    PlainLines(text);
    JoinOfSplit(text, '\n');
    assert parts == front + [last] && Lines(text) == if last == "" then front else parts;
    assert last != "" ==> last[|last| - 1] != '\n';
    if front == [] {
      assert parts == [last] && text == last;
    } else {
      JoinSnoc(front, last);
      EndOfJoin(Join(front, '\n'), last, text);
    }
  }

  /** Nothing is lost: however a fitting text without carriage returns is cut into writes, the lines that were pushed join back
      to it, up to its final newline. */
  lemma NothingIsLost(writes: seq<string>)
    requires Fits(Concat(writes)) && '\r' !in Concat(writes)
    ensures var text := Concat(writes);
            text == Join(Flush(WriteAll(Written([], ""), writes)).pushed, '\n')
                    + (if text != "" && text[|text| - 1] == '\n' then "\n" else "")
  {
    SplittingIsIndependent(writes);
    LinesJoinBack(Concat(writes));
  }

  // ------------------------------------------------------------ the writer

  lemma DrainNothing(w: Written)
    ensures '\n' !in w.pending ==> Drained(w) == w
  {
    if '\n' !in w.pending {
      SplitPlain(w.pending);
      assert w.pushed + [] == w.pushed;
    }
  }

  lemma DrainOne(w: Written, pos: nat)
    requires pos < |w.pending| && w.pending[pos] == '\n' && '\n' !in w.pending[..pos]
    ensures Drained(w) == Drained(Written(w.pushed + [Chomp(w.pending[..pos + 1])], w.pending[pos + 1..]))
  {
    OneLine(w.pending, pos);
    var line, left := Chomp(w.pending[..pos + 1]), w.pending[pos + 1..];
    assert w.pushed + ([line] + Complete(left)) == w.pushed + [line] + Complete(left);
  }

  class LogWriter {
    const buffer: LogBuffer
    var pending: string

    constructor (buffer: LogBuffer)
      ensures this.buffer == buffer && pending == ""
    {
      this.buffer := buffer;
      pending := "";
    }

    /** What the buffer was given and what this writer holds back. */
    ghost function State(): Written
      reads this, buffer
    {
      Written(buffer.pushed, pending)
    }

    method DrainCompleteLines()
      requires buffer.Valid()
      modifies this, buffer
      ensures buffer.Valid() && State() == Drained(old(State()))
    {
      ghost var w := State();
      while '\n' in pending
        invariant buffer.Valid() && Drained(State()) == Drained(w)
        decreases |pending|
      {
        var pos := FindNewline(pending);
        DrainOne(State(), pos);
        var line := pending[..pos + 1];
        buffer.Push(Chomp(line));
        pending := pending[pos + 1..];
      }
      DrainNothing(State());
    }

    /** `write`: what is pushed and held back is what the cutting of lines says. */
    method Put(buf: string)
      requires buffer.Valid()
      modifies this, buffer
      ensures buffer.Valid() && State() == Write(old(State()), buf)
    {
      pending := pending + buf;
      DrainCompleteLines();
      if |pending| > MAX_PENDING {
        buffer.Push(pending);
        pending := "";
      }
    }

    method FlushAll()
      requires buffer.Valid()
      modifies this, buffer
      ensures buffer.Valid() && State() == Flush(old(State()))
    {
      DrainCompleteLines();
      if pending != "" {
        buffer.Push(pending);
        pending := "";
      }
    }
  }

  method FindNewline(s: string) returns (pos: nat)
    requires '\n' in s
    ensures pos < |s| && s[pos] == '\n' && '\n' !in s[..pos]
  {
    pos := 0;
    while s[pos] != '\n'
      invariant pos < |s| && '\n' !in s[..pos]
      decreases |s| - pos
    {
      pos := pos + 1;
    }
  }

  lemma OneLine(text: string, pos: nat)
    requires pos < |text| && text[pos] == '\n' && '\n' !in text[..pos]
    ensures Complete(text) == [Chomp(text[..pos + 1])] + Complete(text[pos + 1..])
    ensures Rest(text) == Rest(text[pos + 1..])
  {
    assert text == text[..pos] + ['\n'] + text[pos + 1..];
    SplitOfPiece(text[..pos], text[pos + 1..], '\n');
    assert text[..pos + 1] == text[..pos] + "\n";
    ChompNewline(text[..pos]);
    var parts, rest := Split(text, '\n'), Split(text[pos + 1..], '\n');
    assert parts[..|parts| - 1] == [text[..pos]] + rest[..|rest| - 1];
  }
}
