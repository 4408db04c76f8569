/** The binary plot response and the decoder its clients use. */
module PlotEncoding {
  import opened Options

  newtype byte = n: int | 0 <= n < 256

  type Bytes = seq<byte>

  /** The bit pattern of a float32. */
  type Word = n: nat | n < 0x1_0000_0000

  /** One curve; ids are the UTF-8 bytes of their text. */
  datatype Series = Series(eventId: Bytes, plotKey: Bytes, x: seq<Word>, y: seq<Word>)

  // ----- parsers, and lists of encoded items

  /** A parser's value and the bytes behind it; None when it reads past the end. */
  type Parsed<+T> = Option<(T, Bytes)>

  function EncodedEach<T>(encode: T -> Bytes, items: seq<T>): Bytes {
    if items == [] then [] else encode(items[0]) + EncodedEach(encode, items[1..])
  }

  function ReadEach<T>(read: Bytes -> Parsed<T>, bytes: Bytes, n: nat): Parsed<seq<T>>
    decreases n
  {
    if n == 0 then Some(([], bytes))
    else
      var first := read(bytes);
      if first.None? then None
      else
        var rest := ReadEach(read, first.value.1, n - 1);
        if rest.None? then None else Some(([first.value.0] + rest.value.0, rest.value.1))
  }

  /** What was encoded is read back, whatever follows it. */
  ghost predicate ReadsBack<T(!new)>(encode: T -> Bytes, read: Bytes -> Parsed<T>, good: T -> bool) {
    forall t: T, rest: Bytes :: good(t) ==> read(encode(t) + rest) == Some((t, rest))
  }

  /** What can be read is an encoding. */
  ghost predicate ReadsOnlyEncodings<T(!new)>(encode: T -> Bytes, read: Bytes -> Parsed<T>, good: T -> bool) {
    forall bytes: Bytes :: read(bytes).Some? ==>
      var (t, rest) := read(bytes).value; good(t) && bytes == encode(t) + rest
  }

  predicate Each<T(!new)>(good: T -> bool, items: seq<T>) {
    forall i :: 0 <= i < |items| ==> good(items[i])
  }

  lemma Associate(a: Bytes, b: Bytes, c: Bytes)
    ensures a + b + c == a + (b + c)
  {}

  lemma {:induction false} EncodedEachNext<T>(encode: T -> Bytes, items: seq<T>, n: nat)
    requires n < |items|
    ensures EncodedEach(encode, items[..n + 1]) == EncodedEach(encode, items[..n]) + encode(items[n])
    decreases n
  {
    if n > 0 {
      EncodedEachNext(encode, items[1..], n - 1);
      assert items[1..][..n] == items[..n + 1][1..] && items[1..][..n - 1] == items[..n][1..];
      Associate(encode(items[0]), EncodedEach(encode, items[..n][1..]), encode(items[n]));
    } else {
      assert items[..1][1..] == [];
    }
  }

  lemma {:induction false} EachReadsBack<T(!new)>(encode: T -> Bytes, read: Bytes -> Parsed<T>, good: T -> bool,
                                                  items: seq<T>, rest: Bytes)
    requires ReadsBack(encode, read, good) && Each(good, items)
    ensures ReadEach(read, EncodedEach(encode, items) + rest, |items|) == Some((items, rest))
  {
    if items == [] {
      assert EncodedEach(encode, items) + rest == rest;
    } else {
      var more := EncodedEach(encode, items[1..]);
      Associate(encode(items[0]), more, rest);
      assert read(encode(items[0]) + (more + rest)) == Some((items[0], more + rest));
      EachReadsBack(encode, read, good, items[1..], rest);
      assert [items[0]] + items[1..] == items;
    }
  }

  lemma {:induction false} EachReadIsEncoded<T(!new)>(encode: T -> Bytes, read: Bytes -> Parsed<T>, good: T -> bool,
                                                      bytes: Bytes, n: nat, items: seq<T>, rest: Bytes)
    requires ReadsOnlyEncodings(encode, read, good) && ReadEach(read, bytes, n) == Some((items, rest))
    ensures |items| == n && Each(good, items) && bytes == EncodedEach(encode, items) + rest
    decreases n
  {
    if n > 0 {
      var (first, more) := read(bytes).value;
      var (others, _) := ReadEach(read, more, n - 1).value;
      EachReadIsEncoded(encode, read, good, more, n - 1, others, rest);
      assert items[1..] == others;
      Associate(encode(first), EncodedEach(encode, others), rest);
    } else {
      assert EncodedEach(encode, items) + rest == rest;
    }
  }

  // ----- unsigned numbers, little-endian

  function Power256(width: nat): nat {
    if width == 0 then 1 else 256 * Power256(width - 1)
  }

  function Packed(n: nat, width: nat): (r: Bytes)
    ensures |r| == width
  {
    if width == 0 then [] else [(n % 256) as byte] + Packed(n / 256, width - 1)
  }

  function Unpacked(bytes: Bytes): (n: nat)
    ensures n < Power256(|bytes|)
  {
    if bytes == [] then 0 else bytes[0] as nat + 256 * Unpacked(bytes[1..])
  }

  lemma {:induction false} UnpackPacked(n: nat, width: nat)
    requires n < Power256(width)
    ensures Unpacked(Packed(n, width)) == n
  {
    if width > 0 {
      UnpackPacked(n / 256, width - 1);
      assert Packed(n, width)[1..] == Packed(n / 256, width - 1);
    }
  }

  lemma DivideTwice(n: nat, p: nat)
    requires p > 0
    ensures n / 256 / p == n / (256 * p)
  {
    var q, r := n / 256 / p, n / 256 % p;
    assert n / 256 == q * p + r;
    var rest := 256 * r + n % 256;
    assert n == q * (256 * p) + rest;
    assert 256 * r + 256 <= 256 * p;
    QuotientIs(n, 256 * p, q, rest);
  }

  lemma QuotientIs(n: nat, d: nat, q: nat, rest: nat)
    requires d > 0 && n == q * d + rest && rest < d
    ensures n / d == q
  {
    var x := n / d;
    assert x * d <= n < (x + 1) * d;
    Scales(x + 1, q, d);
    Scales(q + 1, x, d);
  }

  lemma Scales(a: nat, b: nat, d: nat)
    ensures a <= b ==> a * d <= b * d
  {}

  /** Byte i of a packed number is its digit of weight 256 to the i: the lowest comes first. */
  lemma {:induction false} LowestByteFirst(n: nat, width: nat, i: nat)
    requires i < width
    ensures Power256(i) > 0 && Packed(n, width)[i] as nat == n / Power256(i) % 256
  {
    if i > 0 {
      LowestByteFirst(n / 256, width - 1, i - 1);
      DivideTwice(n, Power256(i - 1));
    }
  }

  lemma LowByte(low: nat, high: nat)
    requires low < 256
    ensures (low + 256 * high) % 256 == low && (low + 256 * high) / 256 == high
  {}

  lemma {:induction false} PackUnpacked(bytes: Bytes)
    ensures Packed(Unpacked(bytes), |bytes|) == bytes
  {
    if bytes != [] {
      PackUnpacked(bytes[1..]);
      LowByte(bytes[0] as nat, Unpacked(bytes[1..]));
      assert bytes == [bytes[0]] + bytes[1..];
    }
  }

  const MAX_LENGTH := 0x1_0000
  const MAX_COUNT := 0x1_0000_0000

  lemma Widths()
    ensures Power256(2) == MAX_LENGTH && Power256(4) == MAX_COUNT
  {
    assert Power256(1) == 256 && Power256(2) == 65536 && Power256(3) == 16777216;
  }

  function ReadUint(bytes: Bytes, width: nat): Parsed<nat> {
    if |bytes| < width then None else Some((Unpacked(bytes[..width]), bytes[width..]))
  }

  lemma PackedReadsBack(n: nat, width: nat, rest: Bytes)
    requires n < Power256(width)
    ensures ReadUint(Packed(n, width) + rest, width) == Some((n, rest))
  {
    UnpackPacked(n, width);
    assert (Packed(n, width) + rest)[..width] == Packed(n, width);
  }

  lemma ReadUintIsPacked(bytes: Bytes, width: nat, n: nat, rest: Bytes)
    requires ReadUint(bytes, width) == Some((n, rest))
    ensures bytes == Packed(n, width) + rest && n < Power256(width)
  {
    PackUnpacked(bytes[..width]);
    assert bytes == bytes[..width] + rest;
  }

  // ----- what the response holds

  function EncodedText(text: Bytes): Bytes {
    Packed(|text|, 2) + text
  }

  function EncodedWord(word: Word): Bytes {
    Packed(word, 4)
  }

  function EncodedSeries(s: Series): Bytes {
    EncodedText(s.eventId) + EncodedText(s.plotKey) + Packed(|s.x|, 4)
    + EncodedEach(EncodedWord, s.x) + EncodedEach(EncodedWord, s.y)
  }

  function Encoded(list: seq<Series>): Bytes {
    Packed(|list|, 4) + EncodedEach(EncodedSeries, list)
  }

  /** Lengths fit 16 bits and counts 32; otherwise packing raises an error. */
  predicate Fits(s: Series) {
    |s.eventId| < MAX_LENGTH && |s.plotKey| < MAX_LENGTH && |s.x| < MAX_COUNT
  }

  predicate AllFit(list: seq<Series>) {
    |list| < MAX_COUNT && Each(Fits, list)
  }

  /** As many x as y values. */
  predicate Paired(s: Series) {
    |s.x| == |s.y|
  }

  predicate Regular(s: Series) {
    Fits(s) && Paired(s)
  }

  /** Appends one series to the buffer; None where packing a length or count raises. */
  method AppendSeries(start: Bytes, s: Series) returns (r: Option<Bytes>)
    ensures r == if Fits(s) then Some(start + EncodedSeries(s)) else None
  {
    var buffer := start;
    if |s.eventId| >= MAX_LENGTH { return None; }
    buffer := buffer + Packed(|s.eventId|, 2);
    buffer := buffer + s.eventId;
    assert buffer == start + EncodedText(s.eventId);
    if |s.plotKey| >= MAX_LENGTH { return None; }
    buffer := buffer + Packed(|s.plotKey|, 2);
    buffer := buffer + s.plotKey;
    assert buffer == start + (EncodedText(s.eventId) + EncodedText(s.plotKey));
    if |s.x| >= MAX_COUNT { return None; }
    buffer := buffer + Packed(|s.x|, 4);
    buffer := buffer + EncodedEach(EncodedWord, s.x);
    buffer := buffer + EncodedEach(EncodedWord, s.y);
    assert buffer == start + EncodedSeries(s);
    return Some(buffer);
  }

  /** Builds the whole response in one buffer. */
  method BuildBinaryPlotData(list: seq<Series>) returns (r: Option<Bytes>)
    ensures r == if AllFit(list) then Some(Encoded(list)) else None
  {
    if |list| >= MAX_COUNT { return None; }
    var head := Packed(|list|, 4);
    var buffer := head;
    for n := 0 to |list|
      invariant forall i :: 0 <= i < n ==> Fits(list[i])
      invariant buffer == head + EncodedEach(EncodedSeries, list[..n])
    {
      var next := AppendSeries(buffer, list[n]);
      if next.None? { return None; }
      EncodedEachNext(EncodedSeries, list, n);
      Associate(head, EncodedEach(EncodedSeries, list[..n]), EncodedSeries(list[n]));
      buffer := next.value;
    }
    assert list[..|list|] == list;
    return Some(buffer);
  }

  lemma {:induction false} WordAt(words: seq<Word>, i: nat)
    requires i < |words|
    ensures |EncodedEach(EncodedWord, words)| == 4 * |words|
    ensures EncodedEach(EncodedWord, words)[4 * i..4 * i + 4] == Packed(words[i], 4)
    decreases i
  {
    var head, rest := EncodedWord(words[0]), EncodedEach(EncodedWord, words[1..]);
    WordsSize(words);
    WordsSize(words[1..]);
    assert EncodedEach(EncodedWord, words) == head + rest;
    if i > 0 {
      WordAt(words[1..], i - 1);
      assert words[1..][i - 1] == words[i];
      LaterWord(head, rest, 4 * (i - 1));
    } else {
      assert (head + rest)[0..4] == head;
    }
  }

  lemma LaterWord(head: Bytes, rest: Bytes, at: nat)
    requires |head| == 4 && at + 4 <= |rest|
    ensures (head + rest)[at + 4..at + 8] == rest[at..at + 4]
  {
    var a, b := (head + rest)[at + 4..at + 8], rest[at..at + 4];
    forall k | 0 <= k < 4 ensures a[k] == b[k] { assert a[k] == (head + rest)[4 + at + k] == rest[at + k]; }
  }

  lemma {:induction false} WordsSize(words: seq<Word>)
    ensures |EncodedEach(EncodedWord, words)| == 4 * |words|
  {
    if words != [] { WordsSize(words[1..]); }
  }

  /** Where everything of a series is: the two texts behind their lengths, the number of x values, the x values
      and then the y values. */
  lemma SeriesLayout(s: Series)
    ensures var bytes, m, n, k := EncodedSeries(s), |s.eventId|, |s.plotKey|, |s.x|;
            && |bytes| == 8 + m + n + 4 * k + 4 * |s.y|
            && bytes[..2] == Packed(m, 2) && bytes[2..2 + m] == s.eventId
            && bytes[2 + m..4 + m] == Packed(n, 2) && bytes[4 + m..4 + m + n] == s.plotKey
            && bytes[4 + m + n..8 + m + n] == Packed(k, 4)
            && bytes[8 + m + n..8 + m + n + 4 * k] == EncodedEach(EncodedWord, s.x)
            && bytes[8 + m + n + 4 * k..] == EncodedEach(EncodedWord, s.y)
  {
    WordsSize(s.x);
    WordsSize(s.y);
    SevenParts(Packed(|s.eventId|, 2), s.eventId, Packed(|s.plotKey|, 2), s.plotKey, Packed(|s.x|, 4),
               EncodedEach(EncodedWord, s.x), EncodedEach(EncodedWord, s.y));
  }

  lemma SevenParts(a: Bytes, b: Bytes, c: Bytes, d: Bytes, e: Bytes, f: Bytes, g: Bytes)
    requires |a| == |c| == 2 && |e| == 4
    ensures var all, m, n, k := a + b + (c + d) + e + f + g, |b|, |d|, |f|;
            && |all| == 8 + m + n + k + |g| && all[..2] == a && all[2..2 + m] == b && all[2 + m..4 + m] == c
            && all[4 + m..4 + m + n] == d && all[4 + m + n..8 + m + n] == e
            && all[8 + m + n..8 + m + n + k] == f && all[8 + m + n + k..] == g
  {
    var all := a + b + (c + d) + e + f + g;
    assert all == a + (b + (c + d) + e + f + g);
    PartAt(a, b, c + d + e + f + g, all);
    PartAt(a + b, c, d + e + f + g, all);
    PartAt(a + b + c, d, e + f + g, all);
    PartAt(a + b + (c + d), e, f + g, all);
    PartAt(a + b + (c + d) + e, f, g, all);
  }

  lemma PartAt(before: Bytes, part: Bytes, behind: Bytes, all: Bytes)
    requires all == before + part + behind
    ensures all[|before|..|before| + |part|] == part
  {}

  /** The response starts with the number of series. */
  lemma ResponseLayout(list: seq<Series>)
    ensures Encoded(list)[..4] == Packed(|list|, 4) && Encoded(list)[4..] == EncodedEach(EncodedSeries, list)
  {}

  // ----- the decoder

  function ReadText(bytes: Bytes): Parsed<Bytes> {
    var n := ReadUint(bytes, 2);
    if n.None? || |n.value.1| < n.value.0 then None
    else Some((n.value.1[..n.value.0], n.value.1[n.value.0..]))
  }

  function ReadWord(bytes: Bytes): Parsed<Word> {
    Widths();
    if |bytes| < 4 then None else Some((Unpacked(bytes[..4]), bytes[4..]))
  }

  datatype Header = Header(eventId: Bytes, plotKey: Bytes, count: nat)

  function ReadHeader(bytes: Bytes): Parsed<Header> {
    var eventId := ReadText(bytes);
    if eventId.None? then None
    else
      var plotKey := ReadText(eventId.value.1);
      if plotKey.None? then None
      else
        var n := ReadUint(plotKey.value.1, 4);
        if n.None? then None else Some((Header(eventId.value.0, plotKey.value.0, n.value.0), n.value.1))
  }

  function ReadPoints(h: Header, bytes: Bytes): Parsed<Series> {
    var x := ReadEach(ReadWord, bytes, h.count);
    if x.None? then None
    else
      var y := ReadEach(ReadWord, x.value.1, h.count);
      if y.None? then None else Some((Series(h.eventId, h.plotKey, x.value.0, y.value.0), y.value.1))
  }

  function ReadSeries(bytes: Bytes): Parsed<Series> {
    var header := ReadHeader(bytes);
    if header.None? then None else ReadPoints(header.value.0, header.value.1)
  }

  /** The curves of a response and the bytes behind the last one, which a client ignores. */
  function Read(bytes: Bytes): Parsed<seq<Series>> {
    var n := ReadUint(bytes, 4);
    if n.None? then None else ReadEach(ReadSeries, n.value.1, n.value.0)
  }

  // ----- words

  lemma WordsReadBack()
    ensures ReadsBack(EncodedWord, ReadWord, w => true)
  {
    Widths();
    forall w: Word, rest: Bytes ensures ReadWord(EncodedWord(w) + rest) == Some((w, rest)) {
      PackedReadsBack(w, 4, rest);
    }
  }

  lemma WordsAreEncodings()
    ensures ReadsOnlyEncodings(EncodedWord, ReadWord, w => true)
  {
    forall bytes: Bytes | ReadWord(bytes).Some?
      ensures bytes == EncodedWord(ReadWord(bytes).value.0) + ReadWord(bytes).value.1
    {
      var (w, rest) := ReadWord(bytes).value;
      ReadUintIsPacked(bytes, 4, w, rest);
    }
  }

  // ----- series

  lemma TextReadsBack(text: Bytes, rest: Bytes)
    requires |text| < MAX_LENGTH
    ensures ReadText(EncodedText(text) + rest) == Some((text, rest))
  {
    Widths();
    PackedReadsBack(|text|, 2, text + rest);
    Associate(Packed(|text|, 2), text, rest);
    assert (text + rest)[..|text|] == text && (text + rest)[|text|..] == rest;
  }

  lemma ReadTextIsEncoded(bytes: Bytes, text: Bytes, rest: Bytes)
    requires ReadText(bytes) == Some((text, rest))
    ensures |text| < MAX_LENGTH && bytes == EncodedText(text) + rest
  {
    Widths();
    var (n, more) := ReadUint(bytes, 2).value;
    ReadUintIsPacked(bytes, 2, n, more);
    assert more == text + rest;
    Associate(Packed(n, 2), text, rest);
  }

  /** The bytes of a header, then anything. */
  function HeaderThen(h: Header, rest: Bytes): Bytes {
    EncodedText(h.eventId) + (EncodedText(h.plotKey) + (Packed(h.count, 4) + rest))
  }

  lemma HeaderReadsBack(h: Header, rest: Bytes)
    requires |h.eventId| < MAX_LENGTH && |h.plotKey| < MAX_LENGTH && h.count < MAX_COUNT
    ensures ReadHeader(HeaderThen(h, rest)) == Some((h, rest))
  {
    Widths();
    TextReadsBack(h.eventId, EncodedText(h.plotKey) + (Packed(h.count, 4) + rest));
    TextReadsBack(h.plotKey, Packed(h.count, 4) + rest);
    PackedReadsBack(h.count, 4, rest);
  }

  lemma ReadHeaderIsEncoded(bytes: Bytes, h: Header, rest: Bytes)
    requires ReadHeader(bytes) == Some((h, rest))
    ensures |h.eventId| < MAX_LENGTH && |h.plotKey| < MAX_LENGTH && h.count < MAX_COUNT && bytes == HeaderThen(h, rest)
  {
    Widths();
    var (id, more) := ReadText(bytes).value;
    ReadTextIsEncoded(bytes, id, more);
    var (key, points) := ReadText(more).value;
    ReadTextIsEncoded(more, key, points);
    ReadUintIsPacked(points, 4, h.count, rest);
  }

  /** Header and points together are the encoded series. */
  lemma SeriesIsHeaderThenPoints(s: Series, rest: Bytes)
    ensures EncodedSeries(s) + rest
         == HeaderThen(Header(s.eventId, s.plotKey, |s.x|),
                       EncodedEach(EncodedWord, s.x) + (EncodedEach(EncodedWord, s.y) + rest))
  {
    Regroup(EncodedText(s.eventId), EncodedText(s.plotKey), Packed(|s.x|, 4), EncodedEach(EncodedWord, s.x),
            EncodedEach(EncodedWord, s.y), rest);
  }

  lemma Regroup(a: Bytes, b: Bytes, c: Bytes, x: Bytes, y: Bytes, rest: Bytes)
    ensures a + b + c + x + y + rest == a + (b + (c + (x + (y + rest))))
  {}

  lemma SeriesReadsBack(s: Series, rest: Bytes)
    requires Regular(s)
    ensures ReadSeries(EncodedSeries(s) + rest) == Some((s, rest))
  {
    var ys := EncodedEach(EncodedWord, s.y) + rest;
    SeriesIsHeaderThenPoints(s, rest);
    HeaderReadsBack(Header(s.eventId, s.plotKey, |s.x|), EncodedEach(EncodedWord, s.x) + ys);
    WordsReadBack();
    EachReadsBack(EncodedWord, ReadWord, w => true, s.x, ys);
    EachReadsBack(EncodedWord, ReadWord, w => true, s.y, rest);
  }

  lemma ReadPointsIsEncoded(h: Header, bytes: Bytes, s: Series, rest: Bytes)
    requires ReadPoints(h, bytes) == Some((s, rest))
    ensures s.eventId == h.eventId && s.plotKey == h.plotKey && |s.x| == h.count && |s.y| == h.count
    ensures bytes == EncodedEach(EncodedWord, s.x) + (EncodedEach(EncodedWord, s.y) + rest)
  {
    var (x, more) := ReadEach(ReadWord, bytes, h.count).value;
    WordsAreEncodings();
    EachReadIsEncoded(EncodedWord, ReadWord, w => true, bytes, h.count, x, more);
    EachReadIsEncoded(EncodedWord, ReadWord, w => true, more, h.count, s.y, rest);
  }

  lemma ReadSeriesIsEncoded(bytes: Bytes, s: Series, rest: Bytes)
    requires ReadSeries(bytes) == Some((s, rest))
    ensures Regular(s) && bytes == EncodedSeries(s) + rest
  {
    var (h, points) := ReadHeader(bytes).value;
    ReadHeaderIsEncoded(bytes, h, points);
    ReadPointsIsEncoded(h, points, s, rest);
    SeriesIsHeaderThenPoints(s, rest);
  }

  // ----- the whole response

  /** The decoder reads back every regular list, and leaves what follows the encoding untouched. */
  lemma EncodedReadsBack(list: seq<Series>, rest: Bytes)
    requires AllFit(list) && Each(Regular, list)
    ensures Read(Encoded(list) + rest) == Some((list, rest))
  {
    Widths();
    Associate(Packed(|list|, 4), EncodedEach(EncodedSeries, list), rest);
    PackedReadsBack(|list|, 4, EncodedEach(EncodedSeries, list) + rest);
    forall s: Series, more: Bytes | Regular(s) ensures ReadSeries(EncodedSeries(s) + more) == Some((s, more)) {
      SeriesReadsBack(s, more);
    }
    EachReadsBack(EncodedSeries, ReadSeries, Regular, list, rest);
  }

  /** Whatever the decoder accepts is the encoding of what it returns, followed by ignored bytes; so every
      list it returns is regular. */
  lemma ReadIsEncoded(bytes: Bytes, list: seq<Series>, rest: Bytes)
    requires Read(bytes) == Some((list, rest))
    ensures AllFit(list) && Each(Regular, list) && bytes == Encoded(list) + rest
  {
    Widths();
    var (n, more) := ReadUint(bytes, 4).value;
    ReadUintIsPacked(bytes, 4, n, more);
    forall b: Bytes | ReadSeries(b).Some?
      ensures Regular(ReadSeries(b).value.0) && b == EncodedSeries(ReadSeries(b).value.0) + ReadSeries(b).value.1
    {
      ReadSeriesIsEncoded(b, ReadSeries(b).value.0, ReadSeries(b).value.1);
    }
    EachReadIsEncoded(EncodedSeries, ReadSeries, Regular, more, n, list, rest);
    Associate(Packed(n, 4), EncodedEach(EncodedSeries, list), rest);
  }

  /** The round trip holds exactly for lists whose series have as many x as y values. */
  lemma RoundTripIff(list: seq<Series>)
    requires AllFit(list)
    ensures Read(Encoded(list)) == Some((list, [])) <==> Each(Paired, list)
  {
    if Each(Paired, list) {
      EncodedReadsBack(list, []);
      assert Encoded(list) + [] == Encoded(list);
    }
    if Read(Encoded(list)) == Some((list, [])) {
      ReadIsEncoded(Encoded(list), list, []);
      assert forall i :: 0 <= i < |list| ==> Regular(list[i]);
    }
  }

  /** No encoding is the beginning of another: bytes split into response and rest in one way only. */
  lemma EncodingsArePrefixFree(a: seq<Series>, b: seq<Series>, r: Bytes, t: Bytes)
    requires AllFit(a) && Each(Regular, a) && AllFit(b) && Each(Regular, b) && Encoded(a) + r == Encoded(b) + t
    ensures a == b && r == t
  {
    EncodedReadsBack(a, r);
    EncodedReadsBack(b, t);
  }
}
