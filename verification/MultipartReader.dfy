/**
 A reader of `multipart/byteranges` bodies, and that it reads back what the
 gateway writes: for each part which bytes it holds, and these bytes.
 */
module MultipartReader {
  import opened Base
  import opened Ranges
  import opened Body

  /** A part as it is read: first and last position, size of the whole, and the bytes. */
  datatype ReadPart = ReadPart(first: U64, last: U64, size: U64, data: Bytes)

  const CR: Byte := 13

  function Past(prefix: Bytes, data: Bytes): Option<Bytes> {
    if prefix <= data then Some(data[|prefix|..]) else None
  }

  /** How many bytes come before the first carriage return. */
  function LineLength(data: Bytes): (n: nat)
    ensures n <= |data| && CR !in data[..n] && (n < |data| ==> data[n] == CR)
  {
    if data == [] || data[0] == CR then 0 else
      var n := 1 + LineLength(data[1..]);
      assert data[..n] == [data[0]] + data[1..][..n - 1];
      n
  }

  function Text(b: Bytes): string {
    seq(|b|, i requires 0 <= i < |b| => b[i] as char)
  }

  /**
   What a reader goes by: the fixed bytes before the media type, before and after
   the range, and at the end, and how a range is read.
   */
  datatype Marks = Marks(
    opening: Bytes, field: Bytes, blank: Bytes, closing: Bytes, range: string -> Option<(U64, U64, U64)>)

  function MarksOf(boundary: string): Marks {
    Marks(Ascii("--" + boundary + "\r\nContent-Type: "), Ascii("\r\nContent-Range: "), Ascii("\r\n\r\n"),
          Ascii(Closing(boundary)), ReadContentRange)
  }

  /** Reads the lines of a part header: what its range field says, and what follows the header. */
  function ReadHeader(marks: Marks, body: Bytes): Option<(Bytes, Bytes)> {
    var mime :- Past(marks.opening, body);
    var range :- Past(marks.field, mime[LineLength(mime)..]);
    var n := LineLength(range);
    var data :- Past(marks.blank, range[n..]);
    Some((range[..n], data))
  }

  /** Takes the bytes of a part and the line end after them. */
  function ReadData(length: int, data: Bytes): Option<(Bytes, Bytes)> {
    if length < 0 || |data| < length then None else
      var rest :- Past(CRLF, data[length..]);
      Some((data[..length], rest))
  }

  /** Reads one part and returns what follows it; its range field says how long it is. */
  function ReadOne(marks: Marks, body: Bytes): Option<(ReadPart, Bytes)> {
    var (range, data) :- ReadHeader(marks, body);
    var (first, last, size) :- marks.range(Text(range));
    var (part, rest) :- ReadData(last - first + 1, data);
    Some((ReadPart(first, last, size, part), rest))
  }

  function ReadAll(marks: Marks, body: Bytes): Option<seq<ReadPart>>
    decreases |body|
  {
    if body == marks.closing then Some([]) else
      var (part, rest) :- ReadOne(marks, body);
      if |rest| >= |body| then None else
        var parts :- ReadAll(marks, rest);
        Some([part] + parts)
  }

  // ----- It inverts what is written -----

  lemma AsciiJoins(a: string, b: string)
    ensures Ascii(a + b) == Ascii(a) + Ascii(b)
  {
  }

  lemma PastInverts(prefix: Bytes, rest: Bytes)
    ensures Past(prefix, prefix + rest) == Some(rest)
  {
  }

  lemma {:induction false} LineEnds(line: Bytes, rest: Bytes)
    requires CR !in line && rest != [] && rest[0] == CR
    ensures LineLength(line + rest) == |line|
    ensures (line + rest)[..|line|] == line && (line + rest)[|line|..] == rest
  {
    var n := LineLength(line + rest);
    assert (line + rest)[|line|] == CR;
    assert forall k :: 0 <= k < |line| ==> (line + rest)[k] == line[k];
    assert (line + rest)[..n] <= line + rest;
  }

  /** Text that a header line can hold and that comes back as it was. */
  predicate Plain(s: string) {
    forall i :: 0 <= i < |s| ==> s[i] as int < 0x80 && s[i] != '\r'
  }

  lemma PlainReadsBack(s: string)
    requires Plain(s)
    ensures Text(Ascii(s)) == s && CR !in Ascii(s)
  {
  }

  lemma ContentRangeIsPlain(range: Range, size: nat)
    requires range.start < range.end
    ensures Plain(ContentRange(range, size))
  {
    var (first, last, total) := (ToDecimal(range.start), ToDecimal(range.end - 1), ToDecimal(size));
    assert Plain(first) && Plain(last) && Plain(total);
    assert Plain("bytes ") && Plain("-") && Plain("/");
  }

  // Everything about the reader is shown for any marks of this kind.
  predicate GoodMarks(marks: Marks) {
    && marks.field != [] && marks.field[0] == CR && marks.blank != [] && marks.blank[0] == CR
    && !(marks.opening <= marks.closing)
  }

  lemma ReadHeaderInverts(marks: Marks, mime: Bytes, text: Bytes, tail: Bytes)
    requires GoodMarks(marks) && CR !in mime && CR !in text
    ensures ReadHeader(marks, marks.opening + (mime + (marks.field + (text + (marks.blank + tail))))) ==
            Some((text, tail))
  {
    PastInverts(marks.opening, mime + (marks.field + (text + (marks.blank + tail))));
    LineEnds(mime, marks.field + (text + (marks.blank + tail)));
    PastInverts(marks.field, text + (marks.blank + tail));
    LineEnds(text, marks.blank + tail);
    PastInverts(marks.blank, tail);
  }

  lemma ReadDataInverts(data: Bytes, rest: Bytes)
    ensures ReadData(|data|, data + (CRLF + rest)) == Some((data, rest))
  {
    PastInverts(CRLF, rest);
    assert (data + (CRLF + rest))[|data|..] == CRLF + rest;
  }

  function Header(marks: Marks, mime: Bytes, text: Bytes): Bytes {
    marks.opening + (mime + (marks.field + (text + marks.blank)))
  }

  lemma JoinLines(marks: Marks, mime: Bytes, text: Bytes, data: Bytes, rest: Bytes)
    ensures Header(marks, mime, text) + data + CRLF + rest ==
            marks.opening + (mime + (marks.field + (text + (marks.blank + (data + (CRLF + rest))))))
  {
  }

  lemma ReadOneSteps(marks: Marks, body: Bytes, text: Bytes, tail: Bytes, part: ReadPart, rest: Bytes)
    requires ReadHeader(marks, body) == Some((text, tail))
    requires marks.range(Text(text)) == Some((part.first, part.last, part.size))
    requires ReadData(part.last - part.first + 1, tail) == Some((part.data, rest))
    ensures ReadOne(marks, body) == Some((part, rest))
  {
  }

  lemma ReadOneInverts(marks: Marks, mime: Bytes, text: Bytes, part: ReadPart, rest: Bytes)
    requires GoodMarks(marks) && CR !in mime && CR !in text
    requires marks.range(Text(text)) == Some((part.first, part.last, part.size))
    requires |part.data| == part.last - part.first + 1
    ensures ReadOne(marks, Header(marks, mime, text) + part.data + CRLF + rest) == Some((part, rest))
  {
    JoinLines(marks, mime, text, part.data, rest);
    ReadHeaderInverts(marks, mime, text, part.data + (CRLF + rest));
    ReadDataInverts(part.data, rest);
    ReadOneSteps(
      marks, Header(marks, mime, text) + part.data + CRLF + rest, text, part.data + (CRLF + rest), part, rest);
  }

  /** A body that goes on with a part does not look like the end of one. */
  lemma FrontPart(marks: Marks, mime: Bytes, text: Bytes, part: ReadPart, rest: Bytes, parts: seq<ReadPart>)
    requires GoodMarks(marks) && CR !in mime && CR !in text
    requires marks.range(Text(text)) == Some((part.first, part.last, part.size))
    requires |part.data| == part.last - part.first + 1
    requires ReadAll(marks, rest) == Some(parts)
    ensures ReadAll(marks, Header(marks, mime, text) + part.data + CRLF + rest) == Some([part] + parts)
  {
    var body := Header(marks, mime, text) + part.data + CRLF + rest;
    ReadOneInverts(marks, mime, text, part, rest);
    JoinLines(marks, mime, text, part.data, rest);
    assert marks.opening <= body;
  }

  lemma Reassociate(a: Bytes, b: Bytes, c: Bytes)
    ensures (a + b) + c == a + (b + c)
  {
  }

  lemma {:induction false} PartsFront(frame: Framing, ranges: seq<Range>, blob: Bytes)
    requires Within(ranges, |blob|) && ranges != []
    ensures Within(ranges[1..], |blob|)
    ensures Body.Parts(frame, ranges, blob) ==
            Part(frame, ranges[0], blob[ranges[0].start..ranges[0].end]) + Body.Parts(frame, ranges[1..], blob)
  {
    var (front, last) := (ranges[..|ranges| - 1], ranges[|ranges| - 1]);
    if |ranges| > 1 {
      PartsFront(frame, front, blob);
      assert ranges[1..][..|ranges[1..]| - 1] == front[1..] && ranges[1..][|ranges[1..]| - 1] == last;
      Reassociate(Part(frame, front[0], blob[front[0].start..front[0].end]), Body.Parts(frame, front[1..], blob),
                  Part(frame, last, blob[last.start..last.end]));
    } else {
      assert front == [] && ranges[1..] == [];
    }
  }

  /** What each part of the body is of the blob. */
  function Described(ranges: seq<Range>, blob: Bytes): (parts: seq<ReadPart>)
    requires Within(ranges, |blob|) && |blob| <= U64_MAX
  {
    seq(|ranges|, i requires 0 <= i < |ranges| => PartOf(ranges[i], blob))
  }

  function PartOf(range: Range, blob: Bytes): ReadPart
    requires range.start < range.end <= |blob| <= U64_MAX
  {
    ReadPart(range.start, range.end - 1, |blob|, blob[range.start..range.end])
  }

  /** The header of the range is a header the reader understands. */
  ghost predicate Readable(frame: Framing, text: Framing, marks: Marks, mime: Bytes, range: Range, size: nat) {
    && frame(range) == Header(marks, mime, text(range)) && CR !in text(range)
    && marks.range(Text(text(range))) == Some((range.start, range.end - 1, size))
  }

  lemma MultipartFront(frame: Framing, closing: Bytes, ranges: seq<Range>, blob: Bytes)
    requires Within(ranges, |blob|) && ranges != []
    ensures Within(ranges[1..], |blob|)
    ensures Multipart(frame, closing, ranges, blob) ==
            frame(ranges[0]) + blob[ranges[0].start..ranges[0].end] + CRLF +
            Multipart(frame, closing, ranges[1..], blob)
  {
    PartsFront(frame, ranges, blob);
    Reassociate(Part(frame, ranges[0], blob[ranges[0].start..ranges[0].end]), Body.Parts(frame, ranges[1..], blob),
                closing);
  }

  lemma DescribedFront(ranges: seq<Range>, blob: Bytes)
    requires Within(ranges, |blob|) && |blob| <= U64_MAX && ranges != []
    ensures Within(ranges[1..], |blob|)
    ensures Described(ranges, blob) == [PartOf(ranges[0], blob)] + Described(ranges[1..], blob)
  {
  }

  lemma {:induction false} PartsRead(
      frame: Framing, text: Framing, marks: Marks, mime: Bytes, ranges: seq<Range>, blob: Bytes)
    requires Within(ranges, |blob|) && |blob| <= U64_MAX && GoodMarks(marks) && CR !in mime
    requires forall i :: 0 <= i < |ranges| ==> Readable(frame, text, marks, mime, ranges[i], |blob|)
    ensures ReadAll(marks, Multipart(frame, marks.closing, ranges, blob)) == Some(Described(ranges, blob))
    decreases |ranges|
  {
    if ranges == [] {
      assert Multipart(frame, marks.closing, ranges, blob) == marks.closing;
      assert Described(ranges, blob) == [];
    } else {
      var (range, others) := (ranges[0], ranges[1..]);
      MultipartFront(frame, marks.closing, ranges, blob);
      DescribedFront(ranges, blob);
      PartsRead(frame, text, marks, mime, others, blob);
      assert Readable(frame, text, marks, mime, range, |blob|);
      FrontPart(marks, mime, text(range), PartOf(range, blob), Multipart(frame, marks.closing, others, blob),
                Described(others, blob));
    }
  }

  // ----- The gateway's marks and headers -----

  lemma MarksAreGood(boundary: string)
    ensures GoodMarks(MarksOf(boundary))
  {
    var (marks, at) := (MarksOf(boundary), |"--" + boundary|);
    assert marks.opening[at] == 13 && marks.closing[at] == 45;
  }

  lemma HeaderInLines(source: Source, range: Range, boundary: string)
    requires range.start < range.end
    ensures FramingOf(source, boundary)(range) ==
            Header(MarksOf(boundary), Ascii(source.mime), Ascii(ContentRange(range, source.size)))
  {
    var (open, field, blank) := ("--" + boundary + "\r\nContent-Type: ", "\r\nContent-Range: ", "\r\n\r\n");
    var content := ContentRange(range, source.size);
    AsciiJoins(content, blank);
    AsciiJoins(field, content + blank);
    AsciiJoins(source.mime, field + (content + blank));
    AsciiJoins(open, source.mime + (field + (content + blank)));
    assert PartHeader(source, range, boundary) == open + (source.mime + (field + (content + blank)));
  }

  function RangeText(size: nat): Framing {
    (range: Range) => if range.start < range.end then Ascii(ContentRange(range, size)) else []
  }

  lemma HeaderIsReadable(source: Source, range: Range, boundary: string)
    requires range.start < range.end && source.size <= U64_MAX
    ensures Readable(FramingOf(source, boundary), RangeText(source.size), MarksOf(boundary), Ascii(source.mime),
                     range, source.size)
  {
    HeaderInLines(source, range, boundary);
    ContentRangeIsPlain(range, source.size);
    PlainReadsBack(ContentRange(range, source.size));
    ContentRangeInverts(range, source.size);
  }

  /** A multipart body reads back as the list of its ranges and their bytes. */
  lemma MultipartInverts(source: Source, boundary: string, ranges: seq<Range>, blob: Bytes)
    requires Within(ranges, |blob|) && source.size == |blob| <= U64_MAX && CR !in Ascii(source.mime)
    ensures ReadAll(MarksOf(boundary),
                    Multipart(FramingOf(source, boundary), Ascii(Closing(boundary)), ranges, blob)) ==
            Some(Described(ranges, blob))
  {
    MarksAreGood(boundary);
    forall i | 0 <= i < |ranges|
      ensures Readable(FramingOf(source, boundary), RangeText(|blob|), MarksOf(boundary), Ascii(source.mime),
                       ranges[i], |blob|)
    {
      HeaderIsReadable(source, ranges[i], boundary);
    }
    PartsRead(FramingOf(source, boundary), RangeText(|blob|), MarksOf(boundary), Ascii(source.mime), ranges, blob);
  }
}
