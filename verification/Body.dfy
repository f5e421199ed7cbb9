/**
 Response bodies of the gateway: verified leaves trimmed to a byte range, and
 several ranges as one `multipart/byteranges` body, with their exact lengths.

 The provider's response is a sequence of items. A leaf carries verified bytes
 at an offset; the other items carry none.
 */
module Body {
  import opened Base
  import opened Ranges

  const CHUNK: int := 1024

  datatype Leaf = Leaf(offset: nat, data: Bytes)
  datatype Item = LeafItem(leaf: Leaf) | ParentItem | BrokenItem

  /** How the response ends after its last item. */
  datatype Ending = Closed | ChildFollows | CloseFailed

  datatype StreamError = Upstream | Noncontiguous | Incomplete | UnexpectedChild | SizeChanged

  /** One request to the provider: the size it reports and what it sends, or that it could not begin. */
  datatype Fetch = Fetch(size: nat, items: seq<Item>, ending: Ending) | TimedOut | Unavailable

  /** What the provider answers when asked, for a range, for the chunks from one number to another. */
  type Provider = (Range, int, int) -> Fetch

  // ----- One range -----

  /** A body under way, or ended by an error; `out` is what was emitted. */
  datatype Progress =
    | Going(offset: int, out: Bytes)
    | Stopped(error: StreamError, out: Bytes)

  function Take(p: Progress, item: Item, range: Range): Progress {
    if p.Stopped? then p else
      match item
      case ParentItem => p
      case BrokenItem => Stopped(Upstream, p.out)
      case LeafItem(leaf) =>
        var (start, end) := (Max(leaf.offset, range.start), Min(leaf.offset + |leaf.data|, range.end));
        if start >= end then p
        else if start != p.offset then Stopped(Noncontiguous, p.out)
        else Going(end, p.out + leaf.data[start - leaf.offset..end - leaf.offset])
  }

  function After(items: seq<Item>, range: Range): Progress {
    if items == [] then Going(range.start, []) else Take(After(items[..|items| - 1], range), items[|items| - 1], range)
  }

  function Ended(p: Progress, ending: Ending, range: Range): (Bytes, Option<StreamError>) {
    match p
    case Stopped(error, out) => (out, Some(error))
    case Going(offset, out) =>
      if offset != range.end then (out, Some(Incomplete))
      else match ending
        case Closed => (out, None)
        case ChildFollows => (out, Some(UnexpectedChild))
        case CloseFailed => (out, Some(Upstream))
  }

  /** `stream_content`: emits the part of each leaf inside the range, in order and without gaps. */
  method StreamContent(items: seq<Item>, ending: Ending, range: Range)
    returns (out: Bytes, error: Option<StreamError>)
    ensures (out, error) == Ended(After(items, range), ending, range)
  {
    out := [];
    var offset: int := range.start;
    for i := 0 to |items|
      invariant After(items[..i], range) == Going(offset, out)
    {
      assert items[..i + 1][..i] == items[..i];
      match items[i] {
        case ParentItem =>
        case BrokenItem =>
          StoppedStays(items, i + 1, range);
          return out, Some(Upstream);
        case LeafItem(leaf) =>
          var start := Max(leaf.offset, range.start);
          var end := Min(leaf.offset + |leaf.data|, range.end);
          if start < end {
            if start != offset {
              StoppedStays(items, i + 1, range);
              return out, Some(Noncontiguous);
            }
            offset := end;
            out := out + leaf.data[start - leaf.offset..end - leaf.offset];
          }
      }
    }
    assert items[..|items|] == items;
    if offset != range.end {
      return out, Some(Incomplete);
    }
    match ending {
      case Closed => error := None;
      case ChildFollows => error := Some(UnexpectedChild);
      case CloseFailed => error := Some(Upstream);
    }
  }

  lemma {:induction false} StoppedStays(items: seq<Item>, i: nat, range: Range)
    requires i <= |items| && After(items[..i], range).Stopped?
    ensures After(items, range) == After(items[..i], range)
    decreases |items|
  {
    if i < |items| {
      var shorter := items[..|items| - 1];
      assert shorter[..i] == items[..i];
      StoppedStays(shorter, i, range);
    } else {
      assert items[..i] == items;
    }
  }

  /** The leaf holds the blob's bytes at its offset. */
  predicate Genuine(leaf: Leaf, blob: Bytes) {
    leaf.offset + |leaf.data| <= |blob| && leaf.data == blob[leaf.offset..leaf.offset + |leaf.data|]
  }

  ghost predicate AllGenuine(items: seq<Item>, blob: Bytes) {
    forall i :: 0 <= i < |items| && items[i].LeafItem? ==> Genuine(items[i].leaf, blob)
  }

  /** Whatever order genuine leaves come in, what is emitted is the blob from the start of the range on. */
  lemma {:induction false} EmitsTheBlob(items: seq<Item>, range: Range, blob: Bytes)
    requires AllGenuine(items, blob) && range.start <= range.end <= |blob|
    ensures var p := After(items, range);
            && range.start + |p.out| <= range.end
            && p.out == blob[range.start..range.start + |p.out|]
            && (p.Going? ==> p.offset == range.start + |p.out|)
  {
    if items != [] {
      var before := items[..|items| - 1];
      var (p, item) := (After(before, range), items[|items| - 1]);
      EmitsTheBlob(before, range, blob);
      if item.LeafItem? {
        TakeEmitsTheBlob(p, item.leaf, range, blob);
      } else {
        assert Take(p, item, range).out == p.out;
      }
    }
  }

  lemma SliceOfSlice(blob: Bytes, offset: nat, n: nat, start: int, end: int)
    requires offset <= start <= end <= offset + n <= |blob|
    ensures blob[offset..offset + n][start - offset..end - offset] == blob[start..end]
  {
    var (slice, direct) := (blob[offset..offset + n][start - offset..end - offset], blob[start..end]);
    forall k | 0 <= k < end - start ensures slice[k] == direct[k] {
      assert slice[k] == blob[offset..offset + n][start - offset + k];
    }
  }

  lemma JoinSlices(out: Bytes, piece: Bytes, blob: Bytes, a: int, b: int, c: int)
    requires 0 <= a <= b <= c <= |blob| && out == blob[a..b] && piece == blob[b..c]
    ensures |out + piece| == c - a && out + piece == blob[a..c]
  {
  }

  lemma TakeEmitsTheBlob(p: Progress, leaf: Leaf, range: Range, blob: Bytes)
    requires Genuine(leaf, blob) && range.start <= range.end <= |blob|
    requires range.start + |p.out| <= range.end && p.out == blob[range.start..range.start + |p.out|]
    requires p.Going? ==> p.offset == range.start + |p.out|
    ensures var q := Take(p, LeafItem(leaf), range);
            && range.start + |q.out| <= range.end && q.out == blob[range.start..range.start + |q.out|]
            && (q.Going? ==> q.offset == range.start + |q.out|)
  {
    var (start, end) := (Max(leaf.offset, range.start), Min(leaf.offset + |leaf.data|, range.end));
    if p.Going? && start < end && start == p.offset {
      var piece := leaf.data[start - leaf.offset..end - leaf.offset];
      SliceOfSlice(blob, leaf.offset, |leaf.data|, start, end);
      JoinSlices(p.out, piece, blob, range.start, start, end);
      assert Take(p, LeafItem(leaf), range) == Going(end, p.out + piece);
    } else {
      assert Take(p, LeafItem(leaf), range).out == p.out;
    }
  }

  /** A body that ends without error is exactly the range; one that fails is a prefix of it. */
  lemma CompleteBodyIsTheRange(items: seq<Item>, ending: Ending, range: Range, blob: Bytes)
    requires AllGenuine(items, blob) && range.start <= range.end <= |blob|
    ensures var (out, error) := Ended(After(items, range), ending, range);
            && out <= blob[range.start..range.end]
            && (error.None? ==> out == blob[range.start..range.end])
  {
    EmitsTheBlob(items, range, blob);
  }

  // ----- Which responses are enough -----

  /** The position after leaves that follow each other without gap or overlap from `from` on. */
  function Reaches(items: seq<Item>, from: int): Option<int> {
    if items == [] then Some(from) else
      var at :- Reaches(items[..|items| - 1], from);
      match items[|items| - 1]
      case ParentItem => Some(at)
      case BrokenItem => None
      case LeafItem(leaf) => if leaf.offset == at then Some(at + |leaf.data|) else None
  }

  lemma {:induction false} ContiguousAdvances(items: seq<Item>, range: Range, from: int)
    requires range.start <= range.end && from <= range.start && Reaches(items, from).Some?
    ensures After(items, range).Going?
    ensures from <= Reaches(items, from).value
    ensures After(items, range).offset == Max(range.start, Min(Reaches(items, from).value, range.end))
  {
    if items != [] {
      ContiguousAdvances(items[..|items| - 1], range, from);
    }
  }

  function FullChunks(n: int): int {
    n / CHUNK
  }

  function Chunks(n: int): int {
    (n + CHUNK - 1) / CHUNK
  }

  /** The chunks requested for a range: from the one it starts in to the one it ends in. */
  function ChunksFor(range: Range): (int, int) {
    (FullChunks(range.start), Chunks(range.end))
  }

  /** They cover the range, and no smaller run of chunks does. */
  lemma ChunksCover(range: Range, first: int, past: int)
    requires range.start < range.end
    ensures var (from, to) := ChunksFor(range); from * CHUNK <= range.start && range.end <= to * CHUNK
    ensures first * CHUNK <= range.start && range.end <= past * CHUNK ==>
              first <= ChunksFor(range).0 && ChunksFor(range).1 <= past
  {
  }

  /** The leaves follow each other from at or before `first` to at or past `past`. */
  ghost predicate Contiguous(items: seq<Item>, first: int, past: int) {
    exists from :: from <= first && Reaches(items, from).Some? && past <= Reaches(items, from).value
  }

  /**
   Genuine contiguous leaves that cover the range cause no contiguity or
   completeness error, wherever they start and end: the body is the range.
   */
  lemma ContiguousLeavesSuffice(items: seq<Item>, ending: Ending, range: Range, blob: Bytes)
    requires AllGenuine(items, blob) && range.start <= range.end <= |blob|
    requires Contiguous(items, range.start, range.end)
    ensures var (out, error) := Ended(After(items, range), ending, range);
            && out == blob[range.start..range.end]
            && error != Some(Noncontiguous) && error != Some(Incomplete)
            && (ending.Closed? ==> error.None?)
  {
    var from :| from <= range.start && Reaches(items, from).Some? && range.end <= Reaches(items, from).value;
    ContiguousAdvances(items, range, from);
    EmitsTheBlob(items, range, blob);
  }

  /** So the chunks that are asked for are enough, with or without more around them. */
  lemma RequestedChunksSuffice(items: seq<Item>, ending: Ending, range: Range, blob: Bytes)
    requires AllGenuine(items, blob) && range.start < range.end <= |blob|
    requires var (from, to) := ChunksFor(range); Contiguous(items, from * CHUNK, Min(to * CHUNK, |blob|))
    ensures var (out, error) := Ended(After(items, range), ending, range);
            && out == blob[range.start..range.end]
            && error != Some(Noncontiguous) && error != Some(Incomplete)
            && (ending.Closed? ==> error.None?)
  {
    var (from, to) := ChunksFor(range);
    ChunksCover(range, from, to);
    ContiguousLeavesSuffice(items, ending, range, blob);
  }

  function Ask(fetch: Provider, range: Range): Fetch {
    fetch(range, ChunksFor(range).0, ChunksFor(range).1)
  }

  /** Bao verification: no leaf but a genuine one gets through. */
  ghost predicate Verified(fetch: Provider, blob: Bytes) {
    forall range, from, to :: fetch(range, from, to).Fetch? ==> AllGenuine(fetch(range, from, to).items, blob)
  }

  /** The provider sends at least what it is asked for, the chunks from `from` up to `to`, in order, and closes. */
  ghost predicate Cooperates(fetch: Provider, blob: Bytes) {
    forall range, from, to :: 0 <= from < to && from * CHUNK <= |blob| ==>
      var response := fetch(range, from, to);
      && response.Fetch? && response.size == |blob| && response.ending.Closed?
      && Contiguous(response.items, from * CHUNK, Min(to * CHUNK, |blob|))
  }

  /** The response to the request for a range can be used to the end. */
  predicate Complete(response: Fetch, size: nat, range: Range) {
    && response.Fetch? && response.size == size
    && Ended(After(response.items, range), response.ending, range).1.None?
  }

  lemma CooperationCompletes(fetch: Provider, range: Range, blob: Bytes)
    requires Verified(fetch, blob) && Cooperates(fetch, blob) && 0 <= range.start < range.end <= |blob|
    ensures Complete(Ask(fetch, range), |blob|, range)
  {
    var (from, to) := ChunksFor(range);
    ChunksCover(range, from, to);
    assert Ask(fetch, range) == fetch(range, from, to);
    RequestedChunksSuffice(Ask(fetch, range).items, Ask(fetch, range).ending, range, blob);
  }

  // ----- Several ranges -----

  datatype Source = Source(size: nat, mime: string)

  function Ascii(s: string): (b: Bytes)
    ensures |b| == |s|
  {
    seq(|s|, i requires 0 <= i < |s| => (s[i] as int) % 0x100)
  }

  function ContentRange(range: Range, size: nat): string
    requires range.start < range.end
  {
    "bytes " + ToDecimal(range.start) + "-" + ToDecimal(range.end - 1) + "/" + ToDecimal(size)
  }

  /** What a reader makes of a Content-Range: first and last position, and the size. */
  function ReadContentRange(value: string): Option<(U64, U64, U64)> {
    if !("bytes " <= value) then None else
      var range := value[6..];
      var dash := Find(range, '-');
      if dash == |range| then None else
        var rest := range[dash + 1..];
        var slash := Find(rest, '/');
        if slash == |rest| then None else
          var first :- Number(range[..dash]);
          var last :- Number(rest[..slash]);
          var size :- Number(rest[slash + 1..]);
          Some((first, last, size))
  }

  /** The Content-Range of a part says exactly which bytes follow. */
  lemma ContentRangeInverts(range: Range, size: U64)
    requires range.start < range.end
    ensures ReadContentRange(ContentRange(range, size)) == Some((range.start, range.end - 1, size))
  {
    var (first, last, total) := (ToDecimal(range.start), ToDecimal(range.end - 1), ToDecimal(size));
    var rest := last + "/" + total;
    assert ContentRange(range, size)[6..] == first + "-" + rest;
    FindAfterDigits(first, '-', rest);
    FindAfterDigits(last, '/', total);
    DecimalInverts(range.start);
    DecimalInverts(range.end - 1);
    DecimalInverts(size);
  }

  function PartHeader(source: Source, range: Range, boundary: string): string
    requires range.start < range.end
  {
    "--" + boundary + "\r\nContent-Type: " + source.mime +
    "\r\nContent-Range: " + ContentRange(range, source.size) + "\r\n\r\n"
  }

  function Closing(boundary: string): string {
    "--" + boundary + "--\r\n"
  }

  /** The header of each part as it is sent. */
  type Framing = Range -> Bytes

  function FramingOf(source: Source, boundary: string): Framing {
    (range: Range) => if range.start < range.end then Ascii(PartHeader(source, range, boundary)) else []
  }

  const CRLF: Bytes := [13, 10]

  function Part(frame: Framing, range: Range, data: Bytes): Bytes {
    frame(range) + data + CRLF
  }

  function Parts(frame: Framing, ranges: seq<Range>, blob: Bytes): Bytes
    requires Within(ranges, |blob|)
  {
    if ranges == [] then [] else
      var last := ranges[|ranges| - 1];
      Parts(frame, ranges[..|ranges| - 1], blob) + Part(frame, last, blob[last.start..last.end])
  }

  /** A complete multipart body over a blob. */
  function Multipart(frame: Framing, closing: Bytes, ranges: seq<Range>, blob: Bytes): Bytes
    requires Within(ranges, |blob|)
  {
    Parts(frame, ranges, blob) + closing
  }

  lemma PartsGrow(frame: Framing, ranges: seq<Range>, i: nat, blob: Bytes)
    requires Within(ranges, |blob|) && i < |ranges|
    ensures var (before, after) := (Parts(frame, ranges[..i], blob), Parts(frame, ranges[..i + 1], blob));
            var range := ranges[i];
            && after == before + Part(frame, range, blob[range.start..range.end])
            && |after| == |before| + |frame(range)| + (range.end - range.start) + 2
  {
    var prefix := ranges[..i + 1];
    assert prefix[..|prefix| - 1] == ranges[..i];
    assert prefix[|prefix| - 1] == ranges[i];
    assert |Part(frame, ranges[i], blob[ranges[i].start..ranges[i].end])| ==
           |frame(ranges[i])| + (ranges[i].end - ranges[i].start) + 2;
  }

  function CheckedAdd(a: Option<U64>, b: nat): Option<U64> {
    var x :- a;
    if x + b <= U64_MAX then Some(x + b) else None
  }

  /** `multipart_length`: the fold with checked additions gives the exact length, or nothing past 64 bits. */
  method MultipartLength(frame: Framing, closing: Bytes, ranges: seq<Range>, ghost blob: Bytes)
    returns (length: Option<U64>)
    requires Within(ranges, |blob|) && |closing| <= U64_MAX
    ensures var exact := |Multipart(frame, closing, ranges, blob)|;
            length == if exact <= U64_MAX then Some(exact) else None
  {
    var total: Option<U64> := Some(|closing|);
    for i := 0 to |ranges|
      invariant var exact := |Parts(frame, ranges[..i], blob)| + |closing|;
                total == if exact <= U64_MAX then Some(exact) else None
    {
      var range := ranges[i];
      PartsGrow(frame, ranges, i, blob);
      total := CheckedAdd(total, |frame(range)|);
      total := CheckedAdd(total, range.end - range.start);
      total := CheckedAdd(total, 2);
    }
    assert ranges[..|ranges|] == ranges;
    length := total;
  }

  /**
   `multipart_content`: one request per range, each part framed; the first
   failure ends the body, which is then a prefix of the whole.
   */
  method MultipartContent(
      size: nat, frame: Framing, closing: Bytes, ranges: seq<Range>, fetch: Provider, ghost blob: Bytes)
    returns (out: Bytes, error: Option<StreamError>)
    requires Within(ranges, |blob|) && Verified(fetch, blob)
    ensures out <= Multipart(frame, closing, ranges, blob)
    ensures error.None? ==> out == Multipart(frame, closing, ranges, blob)
    ensures error.None? <==> forall i :: 0 <= i < |ranges| ==> Complete(Ask(fetch, ranges[i]), size, ranges[i])
  {
    out := [];
    for i := 0 to |ranges|
      invariant out == Parts(frame, ranges[..i], blob)
      invariant forall j :: 0 <= j < i ==> Complete(Ask(fetch, ranges[j]), size, ranges[j])
    {
      var part, failure := PartContent(size, frame, ranges[i], fetch, blob);
      PartsPrefix(frame, closing, ranges, i, blob);
      if failure.Some? {
        PrefixGrows(out, part, Part(frame, ranges[i], blob[ranges[i].start..ranges[i].end]));
        return out + part, failure;
      }
      out := out + part;
    }
    assert ranges[..|ranges|] == ranges;
    out := out + closing;
    error := None;
  }

  /** One turn of its loop. */
  method PartContent(size: nat, frame: Framing, range: Range, fetch: Provider, ghost blob: Bytes)
    returns (out: Bytes, error: Option<StreamError>)
    requires 0 <= range.start <= range.end <= |blob| && Verified(fetch, blob)
    ensures out <= Part(frame, range, blob[range.start..range.end])
    ensures error.None? ==> out == Part(frame, range, blob[range.start..range.end])
    ensures error.None? <==> Complete(Ask(fetch, range), size, range)
  {
    var (from, to) := ChunksFor(range);
    var response := fetch(range, from, to);
    assert response == Ask(fetch, range);
    if !response.Fetch? {
      return [], Some(Upstream);
    }
    if response.size != size {
      return [], Some(SizeChanged);
    }
    out := frame(range);
    var data, failure := StreamContent(response.items, response.ending, range);
    CompleteBodyIsTheRange(response.items, response.ending, range, blob);
    PrefixGrows(out, data, blob[range.start..range.end]);
    out := out + data;
    if failure.Some? {
      return out, failure;
    }
    out := out + CRLF;
    error := None;
  }

  lemma PrefixGrows(before: Bytes, part: Bytes, full: Bytes)
    requires part <= full
    ensures before + part <= before + full
  {
    assert full == part + full[|part|..];
    assert before + full == before + part + full[|part|..];
  }

  /** The parts up to and including one of the ranges begin the body. */
  lemma {:induction false} PartsPrefix(frame: Framing, closing: Bytes, ranges: seq<Range>, i: nat, blob: Bytes)
    requires Within(ranges, |blob|) && i < |ranges|
    ensures var part := Part(frame, ranges[i], blob[ranges[i].start..ranges[i].end]);
            && Parts(frame, ranges[..i + 1], blob) == Parts(frame, ranges[..i], blob) + part
            && Parts(frame, ranges[..i + 1], blob) <= Multipart(frame, closing, ranges, blob)
    decreases |ranges| - i
  {
    PartsGrow(frame, ranges, i, blob);
    if i + 1 < |ranges| {
      PartsPrefix(frame, closing, ranges, i + 1, blob);
    } else {
      assert ranges[..i + 1] == ranges;
    }
  }

  // ----- The response -----

  /** What `serve_blob` answers: the status line, the length and range headers, and the body it streams. */
  datatype Reply =
    | Reply(status: int, contentLength: int, contentRange: Option<string>, body: Bytes, error: Option<StreamError>)
    | Refused(status: int, contentRange: Option<string>)

  /** What the gateway answers when the only request it needs cannot begin, or finds another size. */
  function Refusal(response: Fetch, size: nat): Option<int> {
    match response
    case TimedOut => Some(504)
    case Unavailable => Some(502)
    case Fetch(reported, _, _) => if reported != size then Some(502) else None
  }

  /** A reply with one range of the blob as its body, which is never asked for when there is nothing to send. */
  ghost predicate IsOneRange(
      reply: Reply, status: int, contentRange: Option<string>, head: bool, size: nat, range: Range, fetch: Provider,
      blob: Bytes)
    requires 0 <= range.start <= range.end <= |blob|
  {
    var response := Ask(fetch, range);
    var silent := head || range.start == range.end;
    && (reply.Refused? <==> !silent && Refusal(response, size).Some?)
    && (reply.Refused? ==> Some(reply.status) == Refusal(response, size))
    && (reply.Reply? ==>
          && reply.status == status && reply.contentRange == contentRange
          && reply.contentLength == range.end - range.start
          && (reply.error.None? <==> silent || Complete(response, size, range))
          && (reply.error.None? ==> reply.body == if head then [] else blob[range.start..range.end])
          && reply.body <= blob[range.start..range.end])
  }

  /** One range, or the whole blob, with its exact length. */
  method ServeRange(
      status: int, contentRange: Option<string>, head: bool, source: Source, range: Range, fetch: Provider,
      ghost blob: Bytes)
    returns (reply: Reply)
    requires 0 <= range.start <= range.end <= source.size == |blob| && Verified(fetch, blob)
    ensures IsOneRange(reply, status, contentRange, head, source.size, range, fetch, blob)
  {
    if head || range.start == range.end {
      return Reply(status, range.end - range.start, contentRange, [], None);
    }
    var (from, to) := ChunksFor(range);
    var response := fetch(range, from, to);
    assert response == Ask(fetch, range);
    match response {
      case TimedOut =>
        return Refused(504, None);
      case Unavailable =>
        return Refused(502, None);
      case Fetch(size, items, ending) =>
        if size != source.size {
          return Refused(502, None);
        }
        var body, error := StreamContent(items, ending, range);
        CompleteBodyIsTheRange(items, ending, range, blob);
        return Reply(status, range.end - range.start, contentRange, body, error);
    }
  }

  /** The reply carries the selected bytes and no others, with the status and length that go with them. */
  ghost predicate IsReplyTo(
      sel: Selection, head: bool, source: Source, boundary: string, fetch: Provider, blob: Bytes, reply: Reply)
    requires |blob| <= U64_MAX
    requires sel.Partial? ==> sel.ranges != [] && Within(sel.ranges, |blob|)
  {
    match sel
    case Unsatisfiable => reply == Refused(416, Some("bytes */" + ToDecimal(|blob|)))
    case Full => IsOneRange(reply, 200, None, head, |blob|, Range(0, |blob|), fetch, blob)
    case Partial(ranges) =>
      if |ranges| == 1 then
        IsOneRange(reply, 206, Some(ContentRange(ranges[0], |blob|)), head, |blob|, ranges[0], fetch, blob)
      else
        var whole := Multipart(FramingOf(source, boundary), Ascii(Closing(boundary)), ranges, blob);
        if |whole| > U64_MAX then
          reply == Refused(400, None)
        else
          && reply.Reply? && reply.status == 206 && reply.contentRange == None && reply.contentLength == |whole|
          && (reply.error.None? <==>
                forall i :: 0 <= i < |ranges| ==> Complete(Ask(fetch, ranges[i]), |blob|, ranges[i]))
          && (reply.error.None? ==> reply.body == whole)
          && reply.body <= whole
  }

  /** A provider that cooperates is enough: every body that is announced is also sent, to its end. */
  lemma CooperationServes(
      sel: Selection, head: bool, source: Source, boundary: string, fetch: Provider, blob: Bytes, reply: Reply)
    requires |blob| <= U64_MAX
    requires sel.Partial? ==> sel.ranges != [] && Within(sel.ranges, |blob|)
    requires Verified(fetch, blob) && Cooperates(fetch, blob)
    requires IsReplyTo(sel, head, source, boundary, fetch, blob, reply)
    ensures match reply
            case Refused(status, _) => status == 416 || status == 400
            case Reply(_, length, _, body, error) => error.None? && (head || |body| == length)
  {
    match sel {
      case Unsatisfiable =>
      case Full =>
        if blob != [] {
          CooperationCompletes(fetch, Range(0, |blob|), blob);
        }
      case Partial(ranges) =>
        forall i | 0 <= i < |ranges| ensures Complete(Ask(fetch, ranges[i]), |blob|, ranges[i]) {
          CooperationCompletes(fetch, ranges[i], blob);
        }
    }
  }

  lemma ApartWithin(ranges: seq<Range>, size: int)
    requires ranges != [] && Apart(ranges) && ranges[|ranges| - 1].end <= size
    ensures Within(ranges, size)
  {
    forall i | 0 <= i < |ranges| ensures ranges[i].start < ranges[i].end <= size {
      if i < |ranges| - 1 {
        assert ranges[i].end < ranges[|ranges| - 1].start;
      }
    }
  }

  /**
   The range branch of `serve_blob`, from header to body. `header` is the only
   `Range` header that can be read as text, if there is exactly one; `stale`
   says that an `If-Range` names another version. A body that completes has
   exactly the announced length and exactly the selected bytes.
   */
  method ServeBlob(
      head: bool, stale: bool, header: Option<string>, source: Source, boundary: string, fetch: Provider,
      ghost blob: Bytes)
    returns (sel: Selection, reply: Reply)
    requires |blob| == source.size <= U64_MAX && |Closing(boundary)| <= U64_MAX
    requires Verified(fetch, blob)
    ensures head || stale ==> sel == Full
    ensures !head && !stale ==>
              && (sel.Full? <==> !Understood(header))
              && (sel.Unsatisfiable? <==>
                    Understood(header) && forall pos :: !Requested(Ranges.Parts(header).value, |blob|, pos))
              && (sel.Partial? ==> Understood(header) && Serves(sel.ranges, Ranges.Parts(header).value, |blob|))
    ensures sel.Partial? ==>
              sel.ranges != [] && Apart(sel.ranges) && Within(sel.ranges, |blob|) && Total(sel.ranges) <= |blob|
    ensures IsReplyTo(sel, head, source, boundary, fetch, blob, reply)
  {
    sel := Full;
    if !head && !stale {
      sel := Select(header, source.size);
    }
    match sel {
      case Unsatisfiable =>
        reply := Refused(416, Some("bytes */" + ToDecimal(source.size)));
      case Full =>
        reply := ServeRange(200, None, head, source, Range(0, source.size), fetch, blob);
        assert blob[0..|blob|] == blob;
      case Partial(ranges) =>
        ApartWithin(ranges, |blob|);
        if |ranges| > 1 {
          var (frame, closing) := (FramingOf(source, boundary), Ascii(Closing(boundary)));
          var length := MultipartLength(frame, closing, ranges, blob);
          if length.None? {
            return sel, Refused(400, None);
          }
          var body, error := MultipartContent(source.size, frame, closing, ranges, fetch, blob);
          reply := Reply(206, length.value, None, body, error);
        } else {
          reply := ServeRange(
            206, Some(ContentRange(ranges[0], source.size)), head, source, ranges[0], fetch, blob);
        }
    }
  }
}
