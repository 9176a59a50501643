/** Single byte ranges (server/src/paths.rs, sections 14.1.1 and 14.1.2 of RFC 9110) and the stream that
    serves them (server/src/handlers/download.rs). */
module ByteRanges {
  import opened Prelude
  import opened Text

  datatype ByteRange = ByteRange(start: nat, end: nat)

  const UNIT := "bytes="

  // ------------------------------------------------------------ numbers

  predicate IsDigit(c: char) {
    '0' <= c <= '9'
  }

  predicate AllDigits(s: string) {
    forall i :: 0 <= i < |s| ==> IsDigit(s[i])
  }

  function DigitsValue(s: string): nat
    requires AllDigits(s)
  {
    if s == "" then 0 else DigitsValue(s[..|s| - 1]) * 10 + (s[|s| - 1] - '0') as nat
  }

  /** `str::parse::<u64>`: an optional plus sign, at least one digit, and a value that fits. */
  function ParseU64(s: string): Option<nat> {
    var digits := if s != "" && s[0] == '+' then s[1..] else s;
    if digits == "" || !AllDigits(digits) || DigitsValue(digits) > U64_MAX then None
    else Some(DigitsValue(digits))
  }

  function Decimal(n: nat): (s: string)
    ensures s != "" && AllDigits(s)
  {
    var digit := ('0' as int + n % 10) as char;
    if n < 10 then [digit] else Decimal(n / 10) + [digit]
  }

  lemma {:induction false} DecimalValue(n: nat)
    ensures DigitsValue(Decimal(n)) == n
  {
    var s := Decimal(n);
    if n >= 10 {
      DecimalValue(n / 10);
      assert s[..|s| - 1] == Decimal(n / 10);
    } else {
      assert s[..|s| - 1] == "";
    }
  }

  lemma ParseDecimal(n: nat)
    ensures ParseU64(Decimal(n)) == if n <= U64_MAX then Some(n) else None
  {
    DecimalValue(n);
  }

  // ------------------------------------------------------------ the header

  predicate HasPrefix(s: string, prefix: string) {
    |prefix| <= |s| && s[..|prefix|] == prefix
  }

  /** `str::split_once` at a character. */
  function SplitOnce(s: string, c: char): Option<(string, string)> {
    if s == "" then None
    else if s[0] == c then Some(("", s[1..]))
    else
      var rest := SplitOnce(s[1..], c);
      if rest.None? then None else Some(([s[0]] + rest.value.0, rest.value.1))
  }

  function ParseSuffix(suffix: string, size: nat): Result<Option<ByteRange>, ()> {
    var n := ParseU64(suffix);
    if n.None? || n.value == 0 || size == 0 then Err(())
    else
      var last := Min(n.value, size);
      Ok(Some(ByteRange(size - last, size - 1)))
  }

  function ParseFirstLast(startRaw: string, endRaw: string, size: nat): Result<Option<ByteRange>, ()> {
    var start := ParseU64(Trim(startRaw));
    var lastByte := if size == 0 then 0 else size - 1;
    var end := if Trim(endRaw) == "" then Some(lastByte) else ParseU64(Trim(endRaw));
    if start.None? || end.None? then Err(())
    else if start.value > end.value || start.value >= size then Err(())
    else Ok(Some(ByteRange(start.value, Min(end.value, lastByte))))
  }

  /** `parse_byte_range`. */
  function ParseByteRange(header: Option<string>, size: nat): Result<Option<ByteRange>, ()> {
    if header.None? then Ok(None)
    else
      var spec := Trim(header.value);
      if !HasPrefix(spec, UNIT) then Err(())
      else
        var unitAndSet := spec[|UNIT|..];
        if ',' in unitAndSet then Err(())
        else ParseSet(Trim(unitAndSet), size)
  }

  function ParseSet(first: string, size: nat): Result<Option<ByteRange>, ()> {
    if HasPrefix(first, "-") then ParseSuffix(first[1..], size)
    else
      var parts := SplitOnce(first, '-');
      if parts.None? then Err(()) else ParseFirstLast(parts.value.0, parts.value.1, size)
  }

  /** Every accepted range lies inside the file. */
  lemma AcceptedRangeIsInside(header: Option<string>, size: nat)
    ensures var r := ParseByteRange(header, size);
            r.Ok? && r.value.Some? ==> r.value.value.start <= r.value.value.end < size
    ensures ParseByteRange(header, size) == Ok(None) <==> header.None?
  {
  }

  lemma {:induction false} SplitOnceNone(s: string, c: char)
    ensures SplitOnce(s, c).None? <==> c !in s
  {
    if s != "" {
      SplitOnceNone(s[1..], c);
      assert c in s <==> s[0] == c || c in s[1..];
    }
  }

  lemma BehindUnit(spec: string, rest: string)
    requires HasPrefix(spec, UNIT) && rest == spec[|UNIT|..]
    ensures (',' in spec <==> ',' in rest) && ('-' in spec <==> '-' in rest)
  {
    assert spec == UNIT + rest;
    assert forall i :: 0 <= i < |UNIT| ==> UNIT[i] != ',' && UNIT[i] != '-';
  }

  /** Another unit, more than one range, and a set without a dash are refused, whatever else they hold. */
  lemma RefusedHeaders(header: string, size: nat)
    ensures !HasPrefix(Trim(header), UNIT) ==> ParseByteRange(Some(header), size).Err?
    ensures HasPrefix(Trim(header), UNIT) && (',' in Trim(header) || '-' !in Trim(header)) ==> ParseByteRange(Some(header), size).Err?
  {
    var spec := Trim(header);
    if HasPrefix(spec, UNIT) {
      var unitAndSet := spec[|UNIT|..];
      BehindUnit(spec, unitAndSet);
      TrimFixedPoint(unitAndSet);
      SplitOnceNone(Trim(unitAndSet), '-');
    }
  }

  lemma {:induction false} SplitOnceAt(left: string, c: char, right: string)
    requires c !in left
    ensures SplitOnce(left + [c] + right, c) == Some((left, right))
  {
    var s := left + [c] + right;
    if left == "" {
      assert s == [c] + right;
    } else {
      SplitOnceAt(left[1..], c, right);
      assert s[1..] == left[1..] + [c] + right;
      assert [s[0]] + left[1..] == left;
    }
  }

  /** Text without whitespace or commas reaches the parser as it was printed. */
  lemma PrintedHeader(set_: string, size: nat)
    requires set_ != "" && forall i :: 0 <= i < |set_| ==> IsDigit(set_[i]) || set_[i] == '-'
    ensures ParseByteRange(Some(UNIT + set_), size) == ParseSet(set_, size)
  {
    var header := UNIT + set_;
    assert header[0] == 'b' && header[|header| - 1] == set_[|set_| - 1];
    TrimFixedPoint(header);
    TrimFixedPoint(set_);
    assert header[..|UNIT|] == UNIT && header[|UNIT|..] == set_;
  }

  lemma TrimDigits(s: string)
    requires AllDigits(s)
    ensures Trim(s) == s
  {
    TrimFixedPoint(s);
  }

  lemma ParsedFirstLast(a: nat, b: nat, size: nat)
    ensures ParseFirstLast(Decimal(a), Decimal(b), size)
         == if a <= b <= U64_MAX && a < size then Ok(Some(ByteRange(a, Min(b, size - 1)))) else Err(())
  {
    TrimDigits(Decimal(a));
    TrimDigits(Decimal(b));
    ParseDecimal(a);
    ParseDecimal(b);
  }

  lemma ParsedSet(left: string, right: string, size: nat)
    requires left != "" && AllDigits(left)
    ensures ParseSet(left + "-" + right, size) == ParseFirstLast(left, right, size)
  {
    SplitOnceAt(left, '-', right);
    assert left + ['-'] + right == left + "-" + right;
    assert (left + "-" + right)[0] == left[0];
  }

  /** Printing then parsing "bytes=a-b" gives the bytes from a to b that the file has, or an error when it
      has none of them. */
  lemma FirstLastRoundTrip(a: nat, b: nat, size: nat)
    ensures ParseByteRange(Some(UNIT + Decimal(a) + "-" + Decimal(b)), size)
         == if a <= b <= U64_MAX && a < size then Ok(Some(ByteRange(a, Min(b, size - 1)))) else Err(())
  {
    var text := Decimal(a) + "-" + Decimal(b);
    assert UNIT + Decimal(a) + "-" + Decimal(b) == UNIT + text;
    PrintedHeader(text, size);
    ParsedSet(Decimal(a), Decimal(b), size);
    ParsedFirstLast(a, b, size);
  }

  lemma PaddedNumber(n: nat, pre: string, post: string)
    requires Blank(pre) && Blank(post)
    ensures Trim(Decimal(n) + post) == Trim(pre + Decimal(n)) == Trim(Decimal(n))
  {
    TrimDigits(Decimal(n));
    TrimPads("", Decimal(n), post);
    TrimPads(pre, Decimal(n), "");
    assert "" + Decimal(n) + post == Decimal(n) + post && pre + Decimal(n) + "" == pre + Decimal(n);
  }

  lemma SameTrims(left: string, right: string, left': string, right': string, size: nat)
    requires Trim(left) == Trim(left') && Trim(right) == Trim(right')
    ensures ParseFirstLast(left, right, size) == ParseFirstLast(left', right', size)
  {
  }

  lemma NoDashInBlanks(s: string)
    requires Blank(s)
    ensures '-' !in s && ',' !in s
  {
    assert !IsWhitespace('-') && !IsWhitespace(',');
  }

  /** Blanks around a range and around its first byte and last byte. */
  lemma PaddedSet(left: string, right: string, size: nat)
    requires left != "" && left[0] != '-' && '-' !in left
    ensures ParseSet(left + "-" + right, size) == ParseFirstLast(left, right, size)
  {
    SplitOnceAt(left, '-', right);
    assert left + ['-'] + right == left + "-" + right;
    assert (left + "-" + right)[0] == left[0];
  }

  lemma PaddedHeader(p0: string, p1: string, set_: string, p4: string, size: nat)
    requires Blank(p0) && Blank(p1) && Blank(p4) && set_ != "" && Trimmed(set_) && ',' !in set_
    ensures ParseByteRange(Some(p0 + (UNIT + p1 + set_) + p4), size) == ParseSet(set_, size)
  {
    var spec := UNIT + p1 + set_;
    assert spec[0] == 'b' && spec[|spec| - 1] == set_[|set_| - 1];
    TrimPads(p0, spec, p4);
    assert spec[..|UNIT|] == UNIT && spec[|UNIT|..] == p1 + set_;
    NoDashInBlanks(p1);
    TrimPads(p1, set_, "");
    assert p1 + set_ + "" == p1 + set_;
  }

  /** Blanks around the range and around its numbers change nothing. */
  lemma BlanksAreIgnored(p0: string, p1: string, a: nat, p2: string, p3: string, b: nat, p4: string, set_: string, size: nat)
    requires Blank(p0) && Blank(p1) && Blank(p2) && Blank(p3) && Blank(p4)
    requires set_ == (Decimal(a) + p2) + "-" + (p3 + Decimal(b))
    ensures ParseByteRange(Some(p0 + (UNIT + p1 + set_) + p4), size)
         == if a <= b <= U64_MAX && a < size then Ok(Some(ByteRange(a, Min(b, size - 1)))) else Err(())
  {
    SetEnds(a, p2, p3, b);
    PaddedHeader(p0, p1, set_, p4, size);
    PaddedSet(Decimal(a) + p2, p3 + Decimal(b), size);
    PaddedNumber(a, "", p2);
    PaddedNumber(b, p3, "");
    SameTrims(Decimal(a) + p2, p3 + Decimal(b), Decimal(a), Decimal(b), size);
    ParsedFirstLast(a, b, size);
  }

  lemma SetEnds(a: nat, p2: string, p3: string, b: nat)
    requires Blank(p2) && Blank(p3)
    ensures var set_ := (Decimal(a) + p2) + "-" + (p3 + Decimal(b)); set_ != "" && Trimmed(set_) && ',' !in set_
    ensures Decimal(a) + p2 != "" && (Decimal(a) + p2)[0] != '-' && '-' !in Decimal(a) + p2
  {
    var set_ := (Decimal(a) + p2) + "-" + (p3 + Decimal(b));
    NoDashInBlanks(p2);
    NoDashInBlanks(p3);
    assert set_[0] == Decimal(a)[0] && set_[|set_| - 1] == Decimal(b)[|Decimal(b)| - 1];
  }

  /** Printing then parsing "bytes=a-" gives everything from a on. */
  lemma OpenEndRoundTrip(a: nat, size: nat)
    requires size <= U64_MAX
    ensures ParseByteRange(Some(UNIT + Decimal(a) + "-"), size)
         == if a < size then Ok(Some(ByteRange(a, size - 1))) else Err(())
  {
    var text := Decimal(a) + "-" + "";
    assert UNIT + Decimal(a) + "-" == UNIT + text;
    PrintedHeader(text, size);
    ParsedSet(Decimal(a), "", size);
    TrimDigits(Decimal(a));
    ParseDecimal(a);
  }

  /** Printing then parsing "bytes=-n" gives the last n bytes, or the whole file when it is shorter. */
  lemma SuffixRoundTrip(n: nat, size: nat)
    ensures ParseByteRange(Some(UNIT + "-" + Decimal(n)), size)
         == if 0 < n <= U64_MAX && size > 0 then Ok(Some(ByteRange(size - Min(n, size), size - 1))) else Err(())
  {
    var text := "-" + Decimal(n);
    assert UNIT + "-" + Decimal(n) == UNIT + text;
    PrintedHeader(text, size);
    assert text[..1] == "-" && text[1..] == Decimal(n);
    ParseDecimal(n);
  }

  // ------------------------------------------------------------ the stream

  const CHUNK: nat := 256 * 1024

  /** What a stream yields: chunks, and at most one error at the end. */
  datatype Item = Data(bytes: Bytes) | Broken

  function Concat(items: seq<Item>): Bytes {
    if items == [] then []
    else (if items[0].Data? then items[0].bytes else []) + Concat(items[1..])
  }

  lemma {:induction false} ConcatPush(items: seq<Item>, item: Item)
    ensures Concat(items + [item]) == Concat(items) + (if item.Data? then item.bytes else [])
  {
    if items == [] {
      assert items + [item] == [item];
      assert Concat([item][1..]) == [];
    } else {
      ConcatPush(items[1..], item);
      assert (items + [item])[1..] == items[1..] + [item];
      var first := if items[0].Data? then items[0].bytes else [];
      var last := if item.Data? then item.bytes else [];
      assert first + (Concat(items[1..]) + last) == first + Concat(items[1..]) + last;
    }
  }

  /** `async_stream_range`: an open file with its cursor, and how much is left to send. */
  class RangeStream {
    const file: Bytes
    var cursor: nat
    var pos: nat
    var remaining: nat

    constructor (file: Bytes, start: nat, length: nat)
      ensures this.file == file && cursor == pos == start && remaining == length
    {
      this.file := file;
      cursor, pos, remaining := start, start, length;
    }

    ghost predicate Valid()
      reads this
    {
      remaining > 0 ==> cursor == pos
    }

    /** One turn: `read_exact` fills the whole buffer or fails, and a failure ends the stream. */
    method Next() returns (item: Option<Item>)
      requires Valid()
      modifies this
      ensures Valid() && remaining <= old(remaining)
      ensures old(remaining) == 0 ==> item == None && pos == old(pos) && remaining == 0
      ensures old(remaining) > 0 ==>
                var want := Min(old(remaining), CHUNK);
                if old(pos) + want <= |file| then
                  && item == Some(Data(file[old(pos)..old(pos) + want]))
                  && pos == old(pos) + want && remaining == old(remaining) - want
                else item == Some(Broken) && pos == old(pos) && remaining == 0
    {
      if remaining == 0 {
        return None;
      }
      var want := Min(remaining, CHUNK);
      if cursor + want <= |file| {
        var buf := file[cursor..cursor + want];
        cursor, pos, remaining := cursor + want, pos + |buf|, remaining - |buf|;
        return Some(Data(buf));
      }
      remaining := 0;
      return Some(Broken);
    }

    /** Everything the stream yields: chunks of at most 256 KiB that add up to the requested slice. If the file
        turned out shorter, the chunks are a prefix of what is left of it and the stream ends with an error. */
    method Drain() returns (items: seq<Item>)
      requires Valid()
      modifies this
      ensures remaining == 0
      ensures forall i :: 0 <= i < |items| && items[i].Data? ==> 0 < |items[i].bytes| <= CHUNK
      ensures old(pos) + old(remaining) <= |file| || old(remaining) == 0 ==>
                Broken !in items && Concat(items) == Slice(file, old(pos), old(pos) + old(remaining))
      ensures old(pos) + old(remaining) > |file| && old(remaining) > 0 ==>
                items != [] && items[|items| - 1] == Broken && Concat(items) <= Slice(file, old(pos), |file|)
    {
      items := [];
      ghost var start, total := pos, remaining;
      while remaining > 0
        invariant Valid()
        invariant forall i :: 0 <= i < |items| && items[i].Data? ==> 0 < |items[i].bytes| <= CHUNK
        invariant Sent(file, start, total, items, pos, remaining)
        decreases remaining
      {
        ghost var before, left := pos, remaining;
        var item := Next();
        if item.value.Data? {
          SentChunk(file, start, total, items, item.value.bytes, before, left);
        } else {
          SentBroken(file, start, total, items, before, left);
        }
        items := items + [item.value];
      }
    }
  }

  function Slice(file: Bytes, from: nat, to: nat): Bytes {
    if from <= to <= |file| then file[from..to] else []
  }

  /** What a stream has sent while `remaining` bytes are still to come. */
  ghost predicate Sent(file: Bytes, start: nat, total: nat, items: seq<Item>, pos: nat, remaining: nat) {
    if Broken in items then
      && remaining == 0 && total > 0 && start + total > |file|
      && items[|items| - 1] == Broken && Concat(items) <= Slice(file, start, |file|)
    else
      && start <= pos && pos + remaining == start + total && (start < pos ==> pos <= |file|)
      && Concat(items) == Slice(file, start, pos)
  }

  lemma SentChunk(file: Bytes, start: nat, total: nat, items: seq<Item>, bytes: Bytes, pos: nat, remaining: nat)
    requires Broken !in items && |bytes| <= remaining && pos + |bytes| <= |file|
    requires Sent(file, start, total, items, pos, remaining) && bytes == file[pos..pos + |bytes|]
    ensures Sent(file, start, total, items + [Data(bytes)], pos + |bytes|, remaining - |bytes|)
  {
    ConcatPush(items, Data(bytes));
    assert forall i :: i in items + [Data(bytes)] <==> i in items || i == Data(bytes);
    assert file[start..pos] + bytes == file[start..pos + |bytes|];
  }

  lemma SentBroken(file: Bytes, start: nat, total: nat, items: seq<Item>, pos: nat, remaining: nat)
    requires Broken !in items && total > 0 && start + total > |file|
    requires Sent(file, start, total, items, pos, remaining)
    ensures Sent(file, start, total, items + [Broken], pos, 0)
  {
    ConcatPush(items, Broken);
    assert Broken in items + [Broken];
    if start < pos {
      assert file[start..pos] == file[start..][..pos - start];
    }
  }

  datatype Response =
    | Whole(contentLength: nat, body: Bytes)
    | Partial(range: ByteRange, size: nat, contentLength: nat, items: seq<Item>)
    | NotSatisfiable(size: nat)
    | SeekFailed

  /** `file_response`: an accepted range is streamed as exactly the bytes it names, as many as the declared
      Content-Length; a refused one is answered with the size, and no range means the whole file. */
  method FileResponse(file: Bytes, header: Option<string>, seekOk: bool) returns (r: Response)
    ensures r.Whole? <==> header.None?
    ensures r.Whole? ==> r.body == file && r.contentLength == |file|
    ensures r == NotSatisfiable(|file|) <==> ParseByteRange(header, |file|).Err?
    ensures r.Partial? <==> header.Some? && ParseByteRange(header, |file|).Ok? && seekOk
    ensures r.Partial? ==>
              && ParseByteRange(header, |file|) == Ok(Some(r.range)) && r.size == |file|
              && Broken !in r.items && Concat(r.items) == file[r.range.start..r.range.end + 1]
              && r.contentLength == |Concat(r.items)|
  {
    AcceptedRangeIsInside(header, |file|);
    match ParseByteRange(header, |file|)
    case Err(_) =>
      r := NotSatisfiable(|file|);
    case Ok(None) =>
      r := Whole(|file|, file);
    case Ok(Some(range)) =>
      if !seekOk {
        return SeekFailed;
      }
      var length := range.end - range.start + 1;
      var stream := new RangeStream(file, range.start, length);
      var items := stream.Drain();
      r := Partial(range, |file|, length, items);
  }
}
