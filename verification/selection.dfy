/** The `select-file` option: which files of a torrent to download, as ranges of 1-based indices. */
module FileSelection {
  import opened Prelude
  import opened Text

  datatype Range = Range(first: U32, last: U32)

  ghost predicate ValidSelection(indices: seq<U32>) {
    (forall i :: 0 <= i < |indices| ==> indices[i] >= 1) &&
    (forall i, j :: 0 <= i < j < |indices| ==> indices[i] < indices[j])
  }

  function Next(i: U32): U32 {
    Min(i + 1, U32_MAX)
  }

  function RangeText(r: Range): string {
    if r.first == r.last then Decimal(r.first) else Decimal(r.first) + "-" + Decimal(r.last)
  }

  function RangeTexts(ranges: seq<Range>): (r: seq<string>)
    ensures |r| == |ranges| && forall i :: 0 <= i < |r| ==> r[i] == RangeText(ranges[i])
  {
    seq(|ranges|, i requires 0 <= i < |ranges| => RangeText(ranges[i]))
  }

  /** Runs of consecutive indices, in list order. */
  function Ranges(indices: seq<U32>): seq<Range> {
    if indices == [] then []
    else
      var rest, index := Ranges(indices[..|indices| - 1]), indices[|indices| - 1];
      if rest != [] && index == Next(rest[|rest| - 1].last)
      then rest[..|rest| - 1] + [rest[|rest| - 1].(last := index)]
      else rest + [Range(index, index)]
  }

  function SelectionText(indices: seq<U32>): string {
    Join(RangeTexts(Ranges(indices)), ',')
  }

  // ----- The two validators

  method ValidateMetadataIndices(indices: seq<U32>) returns (ok: bool)
    ensures ok <==> indices != [] && ValidSelection(indices)
  {
    if indices == [] || indices[0] == 0 {
      return false;
    }
    for k := 1 to |indices|
      invariant forall i, j :: 0 <= i < j < k ==> indices[i] < indices[j]
      invariant forall i :: 0 <= i < k ==> indices[i] >= 1
    {
      if indices[k - 1] >= indices[k] {
        return false;
      }
    }
    ok := true;
  }

  method ValidateTaskIndices(indices: seq<U32>) returns (ok: bool)
    ensures ok <==> indices != [] && ValidSelection(indices)
  {
    if indices == [] {
      return false;
    }
    var previous: Option<U32> := None;
    for k := 0 to |indices|
      invariant previous == if k == 0 then None else Some(indices[k - 1])
      invariant forall i, j :: 0 <= i < j < k ==> indices[i] < indices[j]
      invariant forall i :: 0 <= i < k ==> indices[i] >= 1
    {
      if indices[k] == 0 || (previous.Some? && indices[k] <= previous.value) {
        return false;
      }
      previous := Some(indices[k]);
    }
    ok := true;
  }

  // ----- The two formatters

  lemma RangesTurn(indices: seq<U32>, k: nat, before: seq<Range>, start: U32, end: U32)
    requires k < |indices| && before == Ranges(indices[..k])
    requires before != [] ==> before[|before| - 1] == Range(start, end)
    ensures var after := Ranges(indices[..k + 1]);
            if before != [] && indices[k] == Next(end)
            then |after| == |before| && after[|after| - 1] == Range(start, indices[k])
                 && after[..|after| - 1] == before[..|before| - 1]
            else after != [] && after[|after| - 1] == Range(indices[k], indices[k])
                 && (before != [] ==> RangeTexts(after[..|after| - 1])
                                      == RangeTexts(before[..|before| - 1]) + [RangeText(Range(start, end))])
                 && (before == [] ==> after[..|after| - 1] == [])
  {
    assert indices[..k + 1][..k] == indices[..k];
    var after := Ranges(indices[..k + 1]);
    if before == [] || indices[k] != Next(end) {
      assert after[..|after| - 1] == before;
    }
  }

  lemma RangesDone(indices: seq<U32>, start: U32, end: U32, texts: seq<string>)
    requires var ranges := Ranges(indices[..|indices|]);
             ranges != [] && ranges[|ranges| - 1] == Range(start, end) && texts == RangeTexts(ranges[..|ranges| - 1])
    ensures RangeTexts(Ranges(indices)) == texts + [RangeText(Range(start, end))]
  {
    assert indices[..|indices|] == indices;
  }

  /** The application's copy. */
  method FormatSelectedFileIndices(indices: seq<U32>) returns (text: string)
    ensures text == SelectionText(indices)
  {
    if indices == [] {
      return "";
    }
    var ranges: seq<string> := [];
    var start, end := indices[0], indices[0];
    RangesTurn(indices, 0, [], start, end);
    for k := 1 to |indices|
      invariant Ranges(indices[..k]) != [] && Ranges(indices[..k])[|Ranges(indices[..k])| - 1] == Range(start, end)
      invariant ranges == RangeTexts(Ranges(indices[..k])[..|Ranges(indices[..k])| - 1])
    {
      RangesTurn(indices, k, Ranges(indices[..k]), start, end);
      if indices[k] == Next(end) {
        end := indices[k];
      } else {
        if start == end {
          ranges := ranges + [Decimal(start)];
        } else {
          ranges := ranges + [Decimal(start) + "-" + Decimal(end)];
        }
        start, end := indices[k], indices[k];
      }
    }
    RangesDone(indices, start, end, ranges);
    if start == end {
      ranges := ranges + [Decimal(start)];
    } else {
      ranges := ranges + [Decimal(start) + "-" + Decimal(end)];
    }
    text := Join(ranges, ',');
  }

  method PushFileIndexRange(ranges: seq<string>, start: U32, end: U32) returns (r: seq<string>)
    ensures r == ranges + [RangeText(Range(start, end))]
  {
    if start == end {
      r := ranges + [Decimal(start)];
    } else {
      r := ranges + [Decimal(start) + "-" + Decimal(end)];
    }
  }

  /** The RPC adapter's copy. */
  method FormatSelectedFileIndicesRpc(indices: seq<U32>) returns (text: string)
    ensures text == SelectionText(indices)
  {
    if indices == [] {
      return "";
    }
    var ranges: seq<string> := [];
    var start, end := indices[0], indices[0];
    RangesTurn(indices, 0, [], start, end);
    for k := 1 to |indices|
      invariant Ranges(indices[..k]) != [] && Ranges(indices[..k])[|Ranges(indices[..k])| - 1] == Range(start, end)
      invariant ranges == RangeTexts(Ranges(indices[..k])[..|Ranges(indices[..k])| - 1])
    {
      RangesTurn(indices, k, Ranges(indices[..k]), start, end);
      if indices[k] == Next(end) {
        end := indices[k];
      } else {
        ranges := PushFileIndexRange(ranges, start, end);
        start, end := indices[k], indices[k];
      }
    }
    RangesDone(indices, start, end, ranges);
    ranges := PushFileIndexRange(ranges, start, end);
    text := Join(ranges, ',');
  }

  // ----- Reading the text back

  function Expand(r: Range): seq<U32>
    decreases r.last - r.first
  {
    if r.first > r.last then [] else if r.first == r.last then [r.first]
    else Expand(Range(r.first, r.last - 1)) + [r.last]
  }

  function ExpandAll(ranges: seq<Range>): seq<U32> {
    if ranges == [] then [] else ExpandAll(ranges[..|ranges| - 1]) + Expand(ranges[|ranges| - 1])
  }

  function ParseRange(text: string): Option<Range> {
    var parts := Split(text, '-');
    if |parts| > 2 then None
    else
      match (ParseDecimal(parts[0]), ParseDecimal(parts[|parts| - 1]))
      case (Some(a), Some(b)) => if a <= b <= U32_MAX then Some(Range(a, b)) else None
      case _ => None
  }

  function ParseRanges(texts: seq<string>): Option<seq<Range>> {
    if texts == [] then Some([])
    else
      match (ParseRanges(texts[..|texts| - 1]), ParseRange(texts[|texts| - 1]))
      case (Some(rest), Some(r)) => Some(rest + [r])
      case _ => None
  }

  /** What the option text selects: a comma-separated list of numbers and ranges. */
  function ParseSelection(text: string): Option<seq<U32>> {
    if text == "" then Some([])
    else match ParseRanges(Split(text, ','))
      case Some(ranges) => Some(ExpandAll(ranges))
      case None => None
  }

  lemma RangeTextRoundTrip(r: Range)
    requires r.first <= r.last
    ensures ParseRange(RangeText(r)) == Some(r)
    ensures RangeText(r) != "" && ',' !in RangeText(r)
  {
    DecimalRoundTrip(r.first);
    DecimalRoundTrip(r.last);
    if r.first == r.last {
      SplitWhole(Decimal(r.first), '-');
    } else {
      SplitHead(Decimal(r.first), Decimal(r.last), '-');
      SplitWhole(Decimal(r.last), '-');
      assert Decimal(r.first) + "-" + Decimal(r.last) == Decimal(r.first) + ['-'] + Decimal(r.last);
    }
  }

  ghost predicate Proper(ranges: seq<Range>) {
    forall i :: 0 <= i < |ranges| ==> ranges[i].first <= ranges[i].last
  }

  /** No range touches the next one, so no two could be written as one. */
  ghost predicate Maximal(ranges: seq<Range>) {
    forall i :: 0 <= i < |ranges| - 1 ==> ranges[i].last + 1 < ranges[i + 1].first
  }

  lemma ParseRangesSnoc(texts: seq<string>, ranges: seq<Range>, text: string, r: Range)
    requires ParseRanges(texts) == Some(ranges) && ParseRange(text) == Some(r)
    ensures ParseRanges(texts + [text]) == Some(ranges + [r])
  {
    assert (texts + [text])[..|texts|] == texts;
  }

  lemma RangeTextsSnoc(ranges: seq<Range>, r: Range)
    ensures RangeTexts(ranges + [r]) == RangeTexts(ranges) + [RangeText(r)]
  {
  }

  lemma {:induction false} ParseRangesRoundTrip(ranges: seq<Range>)
    requires Proper(ranges)
    ensures ParseRanges(RangeTexts(ranges)) == Some(ranges)
  {
    if ranges != [] {
      var init, last := ranges[..|ranges| - 1], ranges[|ranges| - 1];
      assert ranges == init + [last];
      ParseRangesRoundTrip(init);
      RangeTextRoundTrip(last);
      RangeTextsSnoc(init, last);
      ParseRangesSnoc(RangeTexts(init), init, RangeText(last), last);
    }
  }

  lemma ExpandAllSnoc(ranges: seq<Range>, r: Range)
    ensures ExpandAll(ranges + [r]) == ExpandAll(ranges) + Expand(r)
  {
    assert (ranges + [r])[..|ranges|] == ranges;
  }

  /** The last range of a list reaches one index further. */
  lemma Stretched(ranges: seq<Range>, index: U32)
    requires Proper(ranges) && Maximal(ranges) && ranges != []
    requires index == ranges[|ranges| - 1].last + 1
    ensures var longer := ranges[..|ranges| - 1] + [ranges[|ranges| - 1].(last := index)];
            Proper(longer) && Maximal(longer) && ExpandAll(longer) == ExpandAll(ranges) + [index]
  {
    var init, r := ranges[..|ranges| - 1], ranges[|ranges| - 1];
    assert ranges == init + [r];
    ExpandAllSnoc(init, r);
    ExpandAllSnoc(init, r.(last := index));
    assert Expand(r.(last := index)) == Expand(r) + [index];
  }

  /** A new range starts beyond the gap. */
  lemma Started(ranges: seq<Range>, index: U32)
    requires Proper(ranges) && Maximal(ranges)
    requires ranges != [] ==> index > ranges[|ranges| - 1].last + 1
    ensures var longer := ranges + [Range(index, index)];
            Proper(longer) && Maximal(longer) && ExpandAll(longer) == ExpandAll(ranges) + [index]
  {
    ExpandAllSnoc(ranges, Range(index, index));
    assert Expand(Range(index, index)) == [index];
    var longer := ranges + [Range(index, index)];
    forall i | 0 <= i < |longer| - 1 ensures longer[i].last + 1 < longer[i + 1].first {
      if i + 1 < |ranges| {
        assert ranges[i].last + 1 < ranges[i + 1].first;
      }
    }
  }

  lemma LastBelow(init: seq<U32>, rest: seq<Range>, index: U32)
    requires rest != [] ==> init != [] && rest[|rest| - 1].last == init[|init| - 1] < index
    requires rest == [] || index != Next(rest[|rest| - 1].last)
    ensures rest != [] ==> index > rest[|rest| - 1].last + 1
  {
  }

  /** The ranges of a valid selection are proper, maximal, and expand to the selection. */
  lemma {:induction false} RangesFacts(indices: seq<U32>)
    requires ValidSelection(indices)
    ensures Proper(Ranges(indices)) && Maximal(Ranges(indices))
    ensures ExpandAll(Ranges(indices)) == indices
    ensures indices == [] <==> Ranges(indices) == []
    ensures indices != [] ==> Ranges(indices)[|Ranges(indices)| - 1].last == indices[|indices| - 1]
  {
    if indices != [] {
      var init, index := indices[..|indices| - 1], indices[|indices| - 1];
      RangesFacts(init);
      var rest := Ranges(init);
      assert indices == init + [index];
      if init != [] {
        assert init[|init| - 1] < index;
      }
      if rest != [] && index == Next(rest[|rest| - 1].last) {
        Stretched(rest, index);
        assert Ranges(indices) == rest[..|rest| - 1] + [rest[|rest| - 1].(last := index)];
      } else {
        LastBelow(init, rest, index);
        Started(rest, index);
        assert Ranges(indices) == rest + [Range(index, index)];
      }
    }
  }

  lemma JoinNonEmpty(parts: seq<string>, separator: char)
    requires parts != [] && parts[0] != ""
    ensures Join(parts, separator) != ""
  {
  }

  /** Reading the option back selects exactly the files that were chosen. */
  lemma SelectionRoundTrip(indices: seq<U32>)
    requires ValidSelection(indices)
    ensures ParseSelection(SelectionText(indices)) == Some(indices)
  {
    RangesFacts(indices);
    var texts := RangeTexts(Ranges(indices));
    if indices != [] {
      forall i | 0 <= i < |texts| ensures texts[i] != "" && ',' !in texts[i] {
        RangeTextRoundTrip(Ranges(indices)[i]);
      }
      SplitJoin(texts, ',');
      JoinNonEmpty(texts, ',');
      ParseRangesRoundTrip(Ranges(indices));
    }
  }
}
