/**
 Byte ranges of an HTTP `Range` header, as section 14.1.2 of RFC 9110 defines
 them, and their selection, merging and normalization to exclusive ends.
 */
module Ranges {
  import opened Base

  const MAX_PARTS: nat := 16

  /** Positions `start` up to but not including `end`. */
  datatype Range = Range(start: U64, end: U64)

  datatype Selection = Full | Partial(ranges: seq<Range>) | Unsatisfiable

  // ----- Text -----

  predicate IsDigits(s: string) {
    s != "" && forall i :: 0 <= i < |s| ==> '0' <= s[i] <= '9'
  }

  function Decimal(s: string): nat
    requires forall i :: 0 <= i < |s| ==> '0' <= s[i] <= '9'
  {
    if s == "" then 0 else Decimal(s[..|s| - 1]) * 10 + (s[|s| - 1] - '0') as nat
  }

  /** Digits only, and a value that fits 64 bits. */
  function Number(s: string): Option<U64> {
    if IsDigits(s) && Decimal(s) <= U64_MAX then Some(Decimal(s)) else None
  }

  /** The white space that `str::trim` removes. */
  predicate IsSpace(c: char) {
    var n := c as int;
    || 0x9 <= n <= 0xD || n == 0x20 || n == 0x85 || n == 0xA0 || n == 0x1680
    || 0x2000 <= n <= 0x200A || n == 0x2028 || n == 0x2029 || n == 0x202F || n == 0x205F || n == 0x3000
  }

  function TrimStart(s: string): string {
    if s != "" && IsSpace(s[0]) then TrimStart(s[1..]) else s
  }

  function TrimEnd(s: string): string {
    if s != "" && IsSpace(s[|s| - 1]) then TrimEnd(s[..|s| - 1]) else s
  }

  function Trim(s: string): string {
    TrimEnd(TrimStart(s))
  }

  lemma {:induction false} TrimStartExact(s: string) returns (i: nat)
    ensures i <= |s| && TrimStart(s) == s[i..] && (i < |s| ==> !IsSpace(s[i]))
    ensures forall k :: 0 <= k < i ==> IsSpace(s[k])
  {
    i := 0;
    if s != "" && IsSpace(s[0]) {
      var j := TrimStartExact(s[1..]);
      i := j + 1;
      forall k | 1 <= k < i ensures IsSpace(s[k]) {
        assert s[k] == s[1..][k - 1];
      }
    }
  }

  lemma {:induction false} TrimEndExact(s: string) returns (j: nat)
    ensures j <= |s| && TrimEnd(s) == s[..j] && (j > 0 ==> !IsSpace(s[j - 1]))
    ensures forall k :: j <= k < |s| ==> IsSpace(s[k])
  {
    j := |s|;
    if s != "" && IsSpace(s[|s| - 1]) {
      j := TrimEndExact(s[..|s| - 1]);
    }
  }

  /** Trimming removes exactly the white space at both ends. */
  lemma TrimExact(s: string) returns (i: nat, j: nat)
    ensures i <= j <= |s| && Trim(s) == s[i..j]
    ensures forall k :: 0 <= k < i || j <= k < |s| ==> IsSpace(s[k])
    ensures i < j ==> !IsSpace(s[i]) && !IsSpace(s[j - 1])
  {
    i := TrimStartExact(s);
    var n := TrimEndExact(s[i..]);
    j := i + n;
    forall k | j <= k < |s| ensures IsSpace(s[k]) {
      assert s[k] == s[i..][k - i];
    }
    assert i < j ==> s[i..][n - 1] == s[j - 1];
  }

  /** Position of the first `c`, or the length. */
  function Find(s: string, c: char): (n: nat)
    ensures n <= |s|
    ensures n < |s| ==> s[n] == c
    ensures c !in s[..n]
  {
    if s == "" || s[0] == c then 0 else 1 + Find(s[1..], c)
  }

  function Split(s: string, c: char): (parts: seq<string>)
    ensures parts != []
    decreases |s|
  {
    var n := Find(s, c);
    if n == |s| then [s] else [s[..n]] + Split(s[n + 1..], c)
  }

  function Join(parts: seq<string>, c: char): string
    requires parts != []
  {
    if |parts| == 1 then parts[0] else parts[0] + [c] + Join(parts[1..], c)
  }

  /** Splitting loses nothing and leaves no separator in a part. */
  lemma {:induction false} SplitInverts(s: string, c: char)
    ensures Join(Split(s, c), c) == s
    ensures forall i :: 0 <= i < |Split(s, c)| ==> c !in Split(s, c)[i]
    decreases |s|
  {
    var n := Find(s, c);
    if n < |s| {
      SplitInverts(s[n + 1..], c);
      assert s == s[..n] + [c] + s[n + 1..];
      assert Split(s, c)[1..] == Split(s[n + 1..], c);
    } else {
      assert s[..n] == s;
    }
  }

  function ToDecimal(n: nat): (s: string)
    ensures IsDigits(s)
  {
    var digit := ('0' as int + n % 10) as char;
    if n < 10 then [digit] else ToDecimal(n / 10) + [digit]
  }

  /** A number written out reads back as itself. */
  lemma {:induction false} DecimalInverts(n: nat)
    ensures Decimal(ToDecimal(n)) == n
    ensures n <= U64_MAX ==> Number(ToDecimal(n)) == Some(n)
  {
    var s := ToDecimal(n);
    if n >= 10 {
      DecimalInverts(n / 10);
      assert s[..|s| - 1] == ToDecimal(n / 10);
    } else {
      assert s[..0] == "";
    }
  }

  lemma FindAfterDigits(digits: string, c: char, rest: string)
    requires IsDigits(digits) && !('0' <= c <= '9')
    ensures var s := digits + [c] + rest;
            Find(s, c) == |digits| && s[..|digits|] == digits && s[|digits| + 1..] == rest
  {
    var s := digits + [c] + rest;
    assert s[|digits|] == c && forall k :: 0 <= k < |digits| ==> s[k] == digits[k];
    assert s[..Find(s, c)] <= s;
  }

  // ----- What a header asks for -----

  /** One range of the header: the last `n` bytes, all from a position on, or a closed interval. */
  datatype Spec = Suffix(n: U64) | From(first: U64) | Closed(first: U64, last: U64)

  function ParseSpec(part: string): Option<Spec> {
    var dash := Find(part, '-');
    if dash == |part| then None else
      var (start, end) := (part[..dash], part[dash + 1..]);
      if start == "" then
        var n :- Number(end);
        Some(Suffix(n))
      else
        var first :- Number(start);
        if end == "" then Some(From(first)) else
          var last :- Number(end);
          if last < first then None else Some(Closed(first, last))
  }

  /** A range written by its first and last position is understood as just these. */
  lemma SpecInverts(first: U64, last: U64)
    requires first <= last
    ensures ParseSpec(ToDecimal(first) + "-" + ToDecimal(last)) == Some(Closed(first, last))
  {
    FindAfterDigits(ToDecimal(first), '-', ToDecimal(last));
    DecimalInverts(first);
    DecimalInverts(last);
  }

  /** The positions of a blob of `size` bytes that a range covers. */
  predicate Wants(spec: Spec, size: U64, pos: int) {
    && 0 <= pos < size
    && match spec
       case Suffix(n) => pos >= size - n
       case From(first) => pos >= first
       case Closed(first, last) => first <= pos <= last
  }

  /** The parts of a header in the unit `bytes`. */
  function Parts(header: Option<string>): Option<seq<string>> {
    var value :- header;
    if "bytes=" <= value then Some(Split(value[6..], ',')) else None
  }

  function SpecOf(part: string): Option<Spec> {
    ParseSpec(Trim(part))
  }

  /** A header that is understood: at most sixteen parts, all well formed. */
  ghost predicate Understood(header: Option<string>) {
    && Parts(header).Some? && |Parts(header).value| <= MAX_PARTS
    && forall i :: 0 <= i < |Parts(header).value| ==> SpecOf(Parts(header).value[i]).Some?
  }

  /** Some part of the list asks for the position. */
  ghost predicate Requested(parts: seq<string>, size: U64, pos: int) {
    exists i :: 0 <= i < |parts| && SpecOf(parts[i]).Some? && Wants(SpecOf(parts[i]).value, size, pos)
  }

  // ----- Ranges -----

  predicate In(r: Range, pos: int) {
    r.start <= pos < r.end
  }

  ghost predicate Covers(ranges: seq<Range>, pos: int) {
    exists i :: 0 <= i < |ranges| && In(ranges[i], pos)
  }

  ghost predicate Within(ranges: seq<Range>, size: int) {
    forall i :: 0 <= i < |ranges| ==> ranges[i].start < ranges[i].end <= size
  }

  /** Nonempty, ascending, and apart: no two touch. */
  ghost predicate Apart(ranges: seq<Range>) {
    && Nonempty(ranges)
    && (forall i, j :: 0 <= i < j < |ranges| ==> ranges[i].end < ranges[j].start)
  }

  function Total(ranges: seq<Range>): int {
    if ranges == [] then 0
    else Total(ranges[..|ranges| - 1]) + ranges[|ranges| - 1].end - ranges[|ranges| - 1].start
  }

  /** Ranges that are apart add up to no more than where the last one ends. */
  lemma {:induction false} ApartFits(ranges: seq<Range>)
    requires Apart(ranges)
    ensures ranges != [] ==> Total(ranges) <= ranges[|ranges| - 1].end
    ensures ranges == [] ==> Total(ranges) == 0
  {
    if ranges != [] {
      ApartFits(ranges[..|ranges| - 1]);
    }
  }

  /** `single` on a trimmed part. */
  function Single(part: string, size: U64): (sel: Selection)
    ensures sel.Full? <==> ParseSpec(part).None?
    ensures sel.Unsatisfiable? ==> ParseSpec(part).Some? && forall pos :: !Wants(ParseSpec(part).value, size, pos)
    ensures sel.Partial? ==>
              && |sel.ranges| == 1 && sel.ranges[0].start < sel.ranges[0].end <= size
              && ParseSpec(part).Some?
              && forall pos :: In(sel.ranges[0], pos) <==> Wants(ParseSpec(part).value, size, pos)
  {
    var dash := Find(part, '-');
    if dash == |part| then Full else
      var (start, end) := (part[..dash], part[dash + 1..]);
      if start == "" then
        if Number(end).None? then Full else
          var suffix := Number(end).value;
          if suffix == 0 || size == 0 then Unsatisfiable
          else Partial([Range(if suffix <= size then size - suffix else 0, size)])
      else if Number(start).None? then Full else
        var first := Number(start).value;
        if end != "" && (Number(end).None? || Number(end).value < first) then Full else
          var stop: U64 := if end == "" then size else Min(SaturatingAdd(Number(end).value, 1), size);
          if first >= size then Unsatisfiable else Partial([Range(first, stop)])
  }

  // ----- Merging -----

  predicate RangeLe(a: Range, b: Range) {
    a.start < b.start || (a.start == b.start && a.end <= b.end)
  }

  ghost predicate Sorted(ranges: seq<Range>) {
    forall i, j :: 0 <= i < j < |ranges| ==> RangeLe(ranges[i], ranges[j])
  }

  function Insert(r: Range, sorted: seq<Range>): seq<Range> {
    if sorted == [] || RangeLe(r, sorted[0]) then [r] + sorted
    else [sorted[0]] + Insert(r, sorted[1..])
  }

  /** `sort_by_key` on start and end. */
  function Sort(ranges: seq<Range>): seq<Range> {
    if ranges == [] then [] else Insert(ranges[0], Sort(ranges[1..]))
  }

  lemma {:induction false} InsertSorts(r: Range, sorted: seq<Range>)
    requires Sorted(sorted)
    ensures Sorted(Insert(r, sorted)) && |Insert(r, sorted)| == |sorted| + 1
    ensures forall x :: x in Insert(r, sorted) <==> x == r || x in sorted
  {
    if sorted != [] && !RangeLe(r, sorted[0]) {
      var rest := Insert(r, sorted[1..]);
      InsertSorts(r, sorted[1..]);
      assert forall x :: x in sorted <==> x == sorted[0] || x in sorted[1..];
      forall i | 0 <= i < |rest| ensures RangeLe(sorted[0], rest[i]) {
        assert rest[i] in rest;
        if rest[i] != r {
          assert rest[i] in sorted[1..];
        }
      }
    }
  }

  lemma {:induction false} SortSorts(ranges: seq<Range>)
    ensures Sorted(Sort(ranges)) && |Sort(ranges)| == |ranges|
    ensures forall x :: x in Sort(ranges) <==> x in ranges
  {
    if ranges != [] {
      SortSorts(ranges[1..]);
      InsertSorts(ranges[0], Sort(ranges[1..]));
      assert forall x :: x in ranges <==> x == ranges[0] || x in ranges[1..];
    }
  }

  ghost predicate SamePositions(a: seq<Range>, b: seq<Range>) {
    forall pos {:trigger Covers(a, pos)} {:trigger Covers(b, pos)} :: Covers(a, pos) <==> Covers(b, pos)
  }

  /** `after` covers what `before` does and the positions of `r`. */
  ghost predicate Adds(before: seq<Range>, r: Range, after: seq<Range>) {
    forall pos {:trigger Covers(after, pos)} {:trigger Covers(before, pos)} ::
      Covers(after, pos) <==> Covers(before, pos) || In(r, pos)
  }

  ghost predicate Nonempty(ranges: seq<Range>) {
    forall i :: 0 <= i < |ranges| ==> ranges[i].start < ranges[i].end
  }

  /** What merging needs of the sorted ranges. */
  lemma SortCovers(ranges: seq<Range>)
    requires Nonempty(ranges)
    ensures Sorted(Sort(ranges)) && |Sort(ranges)| == |ranges| && Nonempty(Sort(ranges))
    ensures SamePositions(Sort(ranges), ranges)
  {
    SortSorts(ranges);
    assert forall i :: 0 <= i < |ranges| ==> Sort(ranges)[i] in ranges;
    forall pos ensures Covers(Sort(ranges), pos) <==> Covers(ranges, pos) {
      if Covers(Sort(ranges), pos) {
        var i :| 0 <= i < |ranges| && In(Sort(ranges)[i], pos);
        assert Sort(ranges)[i] in ranges;
      }
      if Covers(ranges, pos) {
        var i :| 0 <= i < |ranges| && In(ranges[i], pos);
        assert ranges[i] in Sort(ranges);
      }
    }
  }

  lemma BothAdd(a: seq<Range>, b: seq<Range>, r: Range, x: seq<Range>, y: seq<Range>)
    requires SamePositions(a, b) && Adds(a, r, x) && Adds(b, r, y)
    ensures SamePositions(x, y)
  {
    forall pos ensures Covers(x, pos) <==> Covers(y, pos) {
      assert Covers(a, pos) <==> Covers(b, pos);
    }
  }

  lemma CoversAppend(a: seq<Range>, r: Range, pos: int)
    ensures Covers(a + [r], pos) <==> Covers(a, pos) || In(r, pos)
  {
    if Covers(a, pos) {
      var i :| 0 <= i < |a| && In(a[i], pos);
      assert (a + [r])[i] == a[i];
    }
    if In(r, pos) {
      assert (a + [r])[|a|] == r;
    }
  }

  lemma AppendAdds(before: seq<Range>, r: Range)
    ensures Adds(before, r, before + [r])
  {
    forall pos ensures Covers(before + [r], pos) <==> Covers(before, pos) || In(r, pos) {
      CoversAppend(before, r, pos);
    }
  }

  lemma AppendApart(merged: seq<Range>, r: Range)
    requires Apart(merged) && r.start < r.end && (merged != [] ==> merged[|merged| - 1].end < r.start)
    ensures Apart(merged + [r])
  {
  }

  function Extended(merged: seq<Range>, r: Range): seq<Range>
    requires merged != []
  {
    var last := merged[|merged| - 1];
    merged[|merged| - 1 := Range(last.start, Max(last.end, r.end))]
  }

  /** Extending the last range, which it reaches, adds exactly a range's positions. */
  lemma ExtendLast(merged: seq<Range>, r: Range)
    requires merged != [] && Apart(merged) && r.start < r.end
    requires merged[|merged| - 1].start <= r.start <= merged[|merged| - 1].end
    ensures Apart(Extended(merged, r)) && Adds(merged, r, Extended(merged, r))
  {
    var last := merged[|merged| - 1];
    var longer := Range(last.start, Max(last.end, r.end));
    var front := merged[..|merged| - 1];
    assert merged == front + [last] && Extended(merged, r) == front + [longer];
    forall pos ensures Covers(Extended(merged, r), pos) <==> Covers(merged, pos) || In(r, pos) {
      CoversAppend(front, last, pos);
      CoversAppend(front, longer, pos);
    }
  }

  /** What is merged of the first ranges of a sorted sequence. */
  ghost predicate MergedTo(merged: seq<Range>, sorted: seq<Range>, i: nat)
    requires i <= |sorted|
  {
    && Apart(merged) && |merged| <= i && (i > 0 ==> merged != [])
    && (merged != [] && i < |sorted| ==> merged[|merged| - 1].start <= sorted[i].start)
    && SamePositions(merged, sorted[..i])
  }

  lemma ExtendMerges(merged: seq<Range>, sorted: seq<Range>, i: nat)
    requires i < |sorted| && Sorted(sorted) && Nonempty(sorted) && MergedTo(merged, sorted, i)
    requires merged != [] && sorted[i].start <= merged[|merged| - 1].end
    ensures MergedTo(Extended(merged, sorted[i]), sorted, i + 1)
  {
    ExtendLast(merged, sorted[i]);
    AppendAdds(sorted[..i], sorted[i]);
    assert sorted[..i + 1] == sorted[..i] + [sorted[i]];
    BothAdd(merged, sorted[..i], sorted[i], Extended(merged, sorted[i]), sorted[..i + 1]);
    assert i + 1 < |sorted| ==> RangeLe(sorted[i], sorted[i + 1]);
  }

  lemma AppendMerges(merged: seq<Range>, sorted: seq<Range>, i: nat)
    requires i < |sorted| && Sorted(sorted) && Nonempty(sorted) && MergedTo(merged, sorted, i)
    requires merged == [] || sorted[i].start > merged[|merged| - 1].end
    ensures MergedTo(merged + [sorted[i]], sorted, i + 1)
  {
    AppendApart(merged, sorted[i]);
    AppendAdds(merged, sorted[i]);
    AppendAdds(sorted[..i], sorted[i]);
    assert sorted[..i + 1] == sorted[..i] + [sorted[i]];
    BothAdd(merged, sorted[..i], sorted[i], merged + [sorted[i]], sorted[..i + 1]);
    assert i + 1 < |sorted| ==> RangeLe(sorted[i], sorted[i + 1]);
  }

  lemma MergedAll(merged: seq<Range>, sorted: seq<Range>, ranges: seq<Range>)
    requires MergedTo(merged, sorted, |sorted|) && |sorted| == |ranges| && SamePositions(sorted, ranges)
    ensures Apart(merged) && |merged| <= |ranges| && (ranges != [] ==> merged != [])
    ensures SamePositions(merged, ranges)
  {
    assert sorted[..|sorted|] == sorted;
  }

  /** Merges overlapping and adjacent ranges: the same positions, ascending and apart. */
  method Merge(ranges: seq<Range>) returns (merged: seq<Range>)
    requires Nonempty(ranges)
    ensures Apart(merged) && |merged| <= |ranges| && (ranges != [] ==> merged != [])
    ensures SamePositions(merged, ranges)
  {
    var sorted := Sort(ranges);
    SortCovers(ranges);
    merged := [];
    for i := 0 to |sorted|
      invariant MergedTo(merged, sorted, i)
    {
      var range := sorted[i];
      if merged != [] && range.start <= merged[|merged| - 1].end {
        ExtendMerges(merged, sorted, i);
        var last := merged[|merged| - 1];
        merged := merged[|merged| - 1 := Range(last.start, Max(last.end, range.end))];
      } else {
        AppendMerges(merged, sorted, i);
        merged := merged + [range];
      }
    }
    MergedAll(merged, sorted, ranges);
  }

  // ----- Selecting -----

  /** The ranges cover exactly the positions the parts ask for. */
  ghost predicate Serves(ranges: seq<Range>, parts: seq<string>, size: U64) {
    forall pos {:trigger Covers(ranges, pos)} {:trigger Requested(parts, size, pos)} ::
      Covers(ranges, pos) <==> Requested(parts, size, pos)
  }

  lemma ServesMore(ranges: seq<Range>, parts: seq<string>, i: nat, size: U64, r: Range)
    requires i < |parts| && SpecOf(parts[i]).Some? && Serves(ranges, parts[..i], size)
    requires forall pos :: In(r, pos) <==> Wants(SpecOf(parts[i]).value, size, pos)
    ensures Serves(ranges + [r], parts[..i + 1], size)
  {
    forall pos ensures Covers(ranges + [r], pos) <==> Requested(parts[..i + 1], size, pos) {
      RequestedAppend(parts, i, size, pos);
      CoversAppend(ranges, r, pos);
    }
  }

  lemma ServesNoMore(ranges: seq<Range>, parts: seq<string>, i: nat, size: U64)
    requires i < |parts| && SpecOf(parts[i]).Some? && Serves(ranges, parts[..i], size)
    requires forall pos :: !Wants(SpecOf(parts[i]).value, size, pos)
    ensures Serves(ranges, parts[..i + 1], size)
  {
    forall pos ensures Covers(ranges, pos) <==> Requested(parts[..i + 1], size, pos) {
      RequestedAppend(parts, i, size, pos);
    }
  }

  lemma MergedServes(ranges: seq<Range>, merged: seq<Range>, parts: seq<string>, size: U64)
    requires ranges != [] && merged != [] && Apart(merged) && SamePositions(merged, ranges)
    requires Serves(ranges, parts, size) && Within(ranges, size)
    ensures Serves(merged, parts, size) && (exists pos :: Requested(parts, size, pos))
    ensures merged[|merged| - 1].end <= size && Total(merged) <= size
  {
    forall pos ensures Covers(merged, pos) <==> Requested(parts, size, pos) {
      assert Covers(merged, pos) <==> Covers(ranges, pos);
    }
    assert In(ranges[0], ranges[0].start);
    assert Covers(ranges, ranges[0].start);
    var last := merged[|merged| - 1];
    assert In(last, last.end - 1);
    assert Covers(merged, last.end - 1);
    ApartFits(merged);
  }

  /**
   Serves `Partial` with exactly the union of the requested positions, as at
   most sixteen nonempty ascending ranges with gaps between them, so never more
   than the blob; `Unsatisfiable` exactly when the header is understood and asks
   for nothing there is; and the whole blob exactly when it is not understood.
   */
  method Select(header: Option<string>, size: U64) returns (sel: Selection)
    ensures sel.Full? <==> !Understood(header)
    ensures sel.Unsatisfiable? <==>
              Understood(header) && forall pos :: !Requested(Parts(header).value, size, pos)
    ensures sel.Partial? ==>
              && Understood(header)
              && 1 <= |sel.ranges| <= MAX_PARTS && Apart(sel.ranges)
              && Serves(sel.ranges, Parts(header).value, size)
              && sel.ranges[|sel.ranges| - 1].end <= size && Total(sel.ranges) <= size
  {
    if header.None? || !("bytes=" <= header.value) {
      return Full;
    }
    var parts := Split(header.value[6..], ',');
    var ranges: seq<Range> := [];
    for i := 0 to |parts|
      invariant i <= MAX_PARTS && |ranges| <= i && Within(ranges, size)
      invariant forall j :: 0 <= j < i ==> SpecOf(parts[j]).Some?
      invariant Serves(ranges, parts[..i], size)
    {
      if i >= MAX_PARTS {
        return Full;
      }
      var one := Single(Trim(parts[i]), size);
      if one.Full? {
        assert SpecOf(parts[i]).None?;
        return Full;
      }
      if one.Partial? {
        ServesMore(ranges, parts, i, size, one.ranges[0]);
        assert one.ranges == [one.ranges[0]];
        ranges := ranges + one.ranges;
      } else {
        ServesNoMore(ranges, parts, i, size);
      }
    }
    assert parts[..|parts|] == parts;
    if ranges == [] {
      return Unsatisfiable;
    }
    var merged := Merge(ranges);
    MergedServes(ranges, merged, parts, size);
    return Partial(merged);
  }

  lemma RequestedAppend(parts: seq<string>, i: nat, size: U64, pos: int)
    requires i < |parts| && SpecOf(parts[i]).Some?
    ensures Requested(parts[..i + 1], size, pos) <==>
            Requested(parts[..i], size, pos) || Wants(SpecOf(parts[i]).value, size, pos)
  {
    if Requested(parts[..i], size, pos) {
      var j :| 0 <= j < i && SpecOf(parts[..i][j]).Some? && Wants(SpecOf(parts[..i][j]).value, size, pos);
      assert parts[..i + 1][j] == parts[..i][j];
    }
    if Wants(SpecOf(parts[i]).value, size, pos) {
      assert parts[..i + 1][i] == parts[i];
    }
    if Requested(parts[..i + 1], size, pos) {
      var j :| 0 <= j < i + 1 && SpecOf(parts[..i + 1][j]).Some? && Wants(SpecOf(parts[..i + 1][j]).value, size, pos);
      if j < i {
        assert parts[..i][j] == parts[..i + 1][j];
      }
    }
  }
}
