/** BitTorrent tracker lists: parsing, de-duplication, and the two text forms. */
module TrackerList {
  import opened Prelude
  import opened Seqs
  import opened Text

  const MAX_ENTRIES: nat := 2_048
  const MAX_URI_LEN: nat := 2_048

  // ----- `str::lines`

  function StripReturn(line: string): string {
    if line != "" && line[|line| - 1] == '\r' then line[..|line| - 1] else line
  }

  function Terminated(parts: seq<string>): (r: seq<string>)
    ensures |r| == |parts| && forall i :: 0 <= i < |r| ==> r[i] == StripReturn(parts[i])
  {
    seq(|parts|, i requires 0 <= i < |parts| => StripReturn(parts[i]))
  }

  /** Lines end in `\n` or `\r\n`; a final line may lack its terminator. */
  function Lines(text: string): seq<string> {
    var parts := Split(text, '\n');
    var last := parts[|parts| - 1];
    Terminated(parts[..|parts| - 1]) + (if last == "" then [] else [last])
  }

  // ----- One line

  function Utf8Len(s: string): nat {
    if s == "" then 0
    else
      var c := s[|s| - 1] as int;
      Utf8Len(s[..|s| - 1]) + (if c < 0x80 then 1 else if c < 0x800 then 2 else if c < 0x1_0000 then 3 else 4)
  }

  predicate IsControl(c: char) {
    (c as int) < 0x20 || 0x7F <= (c as int) <= 0x9F
  }

  function AsciiLower(s: string): (r: string)
    ensures |r| == |s|
  {
    if s == "" then ""
    else
      var c := s[|s| - 1];
      AsciiLower(s[..|s| - 1]) + [if 'A' <= c <= 'Z' then ((c as int) + 32) as char else c]
  }

  predicate AllowedUri(uri: string) {
    var lower := AsciiLower(uri);
    ("http://" <= lower || "https://" <= lower || "udp://" <= lower) &&
    forall c | c in uri :: !IsControl(c) && c != ',' && c != ' '
  }

  /** The lines that name a tracker, after trimming. */
  predicate Accepted(line: string) {
    line != "" && line[0] != '#' && Utf8Len(line) <= MAX_URI_LEN && AllowedUri(line)
  }

  function AcceptedLines(lines: seq<string>): seq<string> {
    if lines == [] then []
    else
      var rest, line := AcceptedLines(lines[..|lines| - 1]), Trim(lines[|lines| - 1]);
      if Accepted(line) then rest + [line] else rest
  }

  /** What `lines` yields, before the cap. */
  function DistinctAccepted(lines: seq<string>): seq<string> {
    Dedup(AcceptedLines(lines))
  }

  /** The first entries, up to the cap, of the distinct accepted lines. */
  function Parsed(text: string): seq<string> {
    var all := DistinctAccepted(Lines(text));
    all[..Min(|all|, MAX_ENTRIES)]
  }

  /** The filters of the loop, in order. */
  method NamesTracker(trimmed: string) returns (accepted: bool)
    ensures accepted == Accepted(trimmed)
  {
    if trimmed == "" || trimmed[0] == '#' {
      return false;
    }
    if Utf8Len(trimmed) > MAX_URI_LEN {
      return false;
    }
    accepted := AllowedUri(trimmed);
  }

  lemma AcceptedTurn(lines: seq<string>, k: nat)
    requires k < |lines|
    ensures var (before, line) := (DistinctAccepted(lines[..k]), Trim(lines[k]));
            DistinctAccepted(lines[..k + 1])
            == if Accepted(line) && line !in Elems(before) then before + [line] else before
  {
    assert lines[..k + 1][..k] == lines[..k];
    var accepted := AcceptedLines(lines[..k]);
    DedupSnoc(accepted, Trim(lines[k]));
    assert Trim(lines[k]) in accepted <==> Trim(lines[k]) in Elems(accepted);
  }

  /** One turn of the loop. */
  method TakeLine(ghost lines: seq<string>, ghost k: nat, line: string, before: set<string>, sofar: seq<string>)
    returns (seen: set<string>, out: seq<string>)
    requires k < |lines| && line == lines[k]
    requires sofar == DistinctAccepted(lines[..k]) && before == Elems(sofar)
    ensures out == DistinctAccepted(lines[..k + 1]) && seen == Elems(out)
    ensures |out| <= |sofar| + 1
  {
    seen, out := before, sofar;
    AcceptedTurn(lines, k);
    var trimmed := Trim(line);
    var names := NamesTracker(trimmed);
    if names && trimmed !in seen {
      ElemsConcat(out, [trimmed]);
      seen := seen + {trimmed};
      out := out + [trimmed];
    }
  }

  lemma OneMoreLine(lines: seq<string>, k: nat)
    requires k < |lines|
    ensures DistinctAccepted(lines[..k]) <= DistinctAccepted(lines[..k + 1])
  {
    AcceptedTurn(lines, k);
  }

  /** Reading further lines only appends. */
  lemma {:induction false} DedupPrefix(lines: seq<string>, k: nat)
    requires k <= |lines|
    ensures DistinctAccepted(lines[..k]) <= DistinctAccepted(lines)
    decreases |lines| - k
  {
    if k == |lines| {
      assert lines[..k] == lines;
    } else {
      OneMoreLine(lines, k);
      DedupPrefix(lines, k + 1);
    }
  }

  lemma CappedPrefix(lines: seq<string>, k: nat, out: seq<string>)
    requires k <= |lines| && out == DistinctAccepted(lines[..k]) && |out| <= MAX_ENTRIES
    requires k == |lines| || |out| == MAX_ENTRIES
    ensures var all := DistinctAccepted(lines); out == all[..Min(|all|, MAX_ENTRIES)]
  {
    assert lines[..|lines|] == lines;
    DedupPrefix(lines, k);
  }

  method ParseTrackerList(text: string) returns (out: seq<string>)
    ensures out == Parsed(text)
  {
    var lines := Lines(text);
    var seen: set<string> := {};
    out := [];
    var k := 0;
    while k < |lines| && |out| < MAX_ENTRIES
      invariant k <= |lines| && |out| <= MAX_ENTRIES
      invariant out == DistinctAccepted(lines[..k])
      invariant seen == Elems(out)
    {
      seen, out := TakeLine(lines, k, lines[k], seen, out);
      k := k + 1;
    }
    CappedPrefix(lines, k, out);
  }

  // ----- The parsed entries

  /** A list the parser can produce. */
  ghost predicate Clean(trackers: seq<string>) {
    Distinct(trackers) && |trackers| <= MAX_ENTRIES &&
    forall t :: t in trackers ==> Accepted(t) && Trim(t) == t
  }

  lemma TrimEndPrefix(s: string)
    ensures TrimEnd(s) <= s
    ensures TrimEnd(s) != "" ==> !IsWhitespace(TrimEnd(s)[|TrimEnd(s)| - 1])
  {
  }

  lemma {:induction false} TrimStartClean(s: string)
    ensures TrimStart(s) != "" ==> !IsWhitespace(TrimStart(s)[0])
  {
    if s != "" && IsWhitespace(s[0]) {
      TrimStartClean(s[1..]);
    }
  }

  lemma TrimIdempotent(s: string)
    ensures Trim(Trim(s)) == Trim(s)
  {
    var front := TrimStart(s);
    TrimStartClean(s);
    TrimEndPrefix(front);
    var t := TrimEnd(front);
    if t != "" {
      assert t[0] == front[0];
    }
  }

  lemma {:induction false} AcceptedLinesClean(lines: seq<string>)
    ensures forall t :: t in AcceptedLines(lines) ==> Accepted(t) && Trim(t) == t
  {
    if lines != [] {
      AcceptedLinesClean(lines[..|lines| - 1]);
      TrimIdempotent(lines[|lines| - 1]);
    }
  }

  lemma ParsedClean(text: string)
    ensures Clean(Parsed(text))
  {
    var accepted := AcceptedLines(Lines(text));
    AcceptedLinesClean(Lines(text));
    DedupDistinct(accepted);
    forall t | t in Parsed(text) ensures t in accepted {
      assert t in Dedup(accepted) && t in Elems(Dedup(accepted));
    }
  }

  // ----- What the filters mean

  const SCHEMES: seq<string> := ["http://", "https://", "udp://"]

  /** The character is the given one, or its capital. */
  predicate SameLetter(c: char, small: char) {
    c == small || ('a' <= small <= 'z' && c as int + 32 == small as int)
  }

  predicate StartsWith(uri: string, scheme: string) {
    |scheme| <= |uri| && forall i | 0 <= i < |scheme| :: SameLetter(uri[i], scheme[i])
  }

  /** No control character, comma or blank. */
  predicate Plain(uri: string) {
    forall i | 0 <= i < |uri| :: 0x20 < uri[i] as int && uri[i] != ',' && !(0x7F <= uri[i] as int <= 0x9F)
  }

  lemma {:induction false} AsciiLowerAt(s: string, i: nat)
    requires i < |s|
    ensures AsciiLower(s)[i] == if 'A' <= s[i] <= 'Z' then (s[i] as int + 32) as char else s[i]
  {
    if i < |s| - 1 {
      AsciiLowerAt(s[..|s| - 1], i);
    }
  }

  lemma StartsWithIff(uri: string, scheme: string)
    requires forall i :: 0 <= i < |scheme| ==> !('A' <= scheme[i] <= 'Z')
    ensures scheme <= AsciiLower(uri) <==> StartsWith(uri, scheme)
  {
    forall i | 0 <= i < |uri| && i < |scheme|
      ensures AsciiLower(uri)[i] == scheme[i] <==> SameLetter(uri[i], scheme[i])
    {
      AsciiLowerAt(uri, i);
    }
    if scheme <= AsciiLower(uri) {
      assert forall i :: 0 <= i < |scheme| ==> AsciiLower(uri)[i] == scheme[i];
    }
    if StartsWith(uri, scheme) {
      assert forall i :: 0 <= i < |scheme| ==> SameLetter(uri[i], scheme[i]);
      assert AsciiLower(uri)[..|scheme|] == scheme;
    }
  }

  /** A tracker address starts with one of three schemes, in any capitalization, and has only plain characters. */
  lemma AllowedUriIff(uri: string)
    ensures AllowedUri(uri) <==> (exists k :: 0 <= k < |SCHEMES| && StartsWith(uri, SCHEMES[k])) && Plain(uri)
  {
    forall k | 0 <= k < |SCHEMES| ensures SCHEMES[k] <= AsciiLower(uri) <==> StartsWith(uri, SCHEMES[k]) {
      StartsWithIff(uri, SCHEMES[k]);
    }
    assert SCHEMES[0] == "http://" && SCHEMES[1] == "https://" && SCHEMES[2] == "udp://";
    if AllowedUri(uri) {
      assert forall i :: 0 <= i < |uri| ==> uri[i] in uri;
    }
    if Plain(uri) {
      assert forall i :: 0 <= i < |uri| ==> !IsControl(uri[i]) && uri[i] != ',' && uri[i] != ' ';
    }
  }

  /** A trimmed line is accepted if it is no comment, has at most 2048 bytes, and is such an address. */
  lemma AcceptedIff(line: string)
    ensures Accepted(line) <==>
            line != "" && line[0] != '#' && Utf8Len(line) <= 2048 &&
            (exists k :: 0 <= k < |SCHEMES| && StartsWith(line, SCHEMES[k])) && Plain(line)
  {
    AllowedUriIff(line);
  }

  /** The length counts the bytes of each character: one up to U+007F, two to U+07FF, three to U+FFFF, then four. */
  lemma {:induction false} Utf8LenAdds(a: string, b: string)
    ensures Utf8Len(a + b) == Utf8Len(a) + Utf8Len(b)
    ensures |a| <= Utf8Len(a) <= 4 * |a|
    decreases |a| + |b|
  {
    if b != "" {
      assert (a + b)[..|a + b| - 1] == a + b[..|b| - 1];
      Utf8LenAdds(a, b[..|b| - 1]);
    } else if a != "" {
      assert a + b == a;
      Utf8LenAdds(a[..|a| - 1], b);
      assert a[..|a| - 1] + b == a[..|a| - 1];
    }
  }

  lemma {:induction false} Utf8LenOfAscii(s: string)
    requires forall i :: 0 <= i < |s| ==> s[i] as int <= 0x7F
    ensures Utf8Len(s) == |s|
  {
    if s != "" {
      Utf8LenOfAscii(s[..|s| - 1]);
    }
  }

  lemma {:induction false} AcceptedIsKept(lines: seq<string>, k: nat)
    requires k < |lines| && Accepted(Trim(lines[k]))
    ensures Trim(lines[k]) in AcceptedLines(lines)
  {
    if k < |lines| - 1 {
      AcceptedIsKept(lines[..|lines| - 1], k);
    }
  }

  /** Below the cap of 2048 entries no accepted line is missing. */
  lemma ParsedIsComplete(text: string, k: nat)
    requires k < |Lines(text)| && Accepted(Trim(Lines(text)[k]))
    ensures |Parsed(text)| <= 2048
    ensures |Parsed(text)| < 2048 ==> Trim(Lines(text)[k]) in Parsed(text)
  {
    var accepted := AcceptedLines(Lines(text));
    AcceptedIsKept(Lines(text), k);
    assert Trim(Lines(text)[k]) in Elems(accepted) && Elems(accepted) == Elems(Dedup(accepted));
  }

  /** The lines of a text, one after the other: each ends at a line feed, and loses a carriage return before it. */
  lemma FirstLine(line: string, rest: string)
    requires '\n' !in line
    ensures Lines(line + "\n" + rest) == [StripReturn(line)] + Lines(rest)
  {
    SplitHead(line, rest, '\n');
    var parts := Split(rest, '\n');
    assert ([line] + parts)[..|parts|] == [line] + parts[..|parts| - 1];
    assert Terminated([line] + parts[..|parts| - 1]) == [StripReturn(line)] + Terminated(parts[..|parts| - 1]);
  }

  lemma LastLine(line: string)
    requires '\n' !in line
    ensures Lines(line) == if line == "" then [] else [line]
    ensures StripReturn(line + "\r") == line
  {
    SplitWhole(line, '\n');
    assert (line + "\r")[..|line|] == line;
  }

  // ----- Round trips

  function FormatText(trackers: seq<string>): string {
    Join(trackers, '\n')
  }

  function FormatOption(trackers: seq<string>): string {
    Join(trackers, ',')
  }

  lemma AcceptedChars(t: string)
    requires Accepted(t)
    ensures '\n' !in t && ',' !in t && t[|t| - 1] != '\r'
  {
    assert t[|t| - 1] in t;
  }

  ghost predicate AllClean(lines: seq<string>) {
    forall i :: 0 <= i < |lines| ==> Accepted(lines[i]) && Trim(lines[i]) == lines[i]
  }

  lemma AcceptedSnoc(lines: seq<string>, line: string)
    requires Accepted(line) && Trim(line) == line
    ensures AcceptedLines(lines + [line]) == AcceptedLines(lines) + [line]
  {
    assert (lines + [line])[..|lines|] == lines;
  }

  lemma {:induction false} AllAccepted(lines: seq<string>)
    requires AllClean(lines)
    ensures AcceptedLines(lines) == lines
  {
    if lines != [] {
      var init, last := lines[..|lines| - 1], lines[|lines| - 1];
      assert lines == init + [last];
      assert AllClean(init) by {
        assert forall i :: 0 <= i < |init| ==> init[i] == lines[i];
      }
      AllAccepted(init);
      AcceptedSnoc(init, last);
    }
  }

  /** Lines that splitting and stripping leave alone. */
  ghost predicate PlainLines(lines: seq<string>) {
    forall i :: 0 <= i < |lines| ==> '\n' !in lines[i] && lines[i] != "" && lines[i][|lines[i]| - 1] != '\r'
  }

  lemma CleanIsPlain(lines: seq<string>)
    requires AllClean(lines)
    ensures PlainLines(lines)
  {
    forall i | 0 <= i < |lines|
      ensures '\n' !in lines[i] && lines[i] != "" && lines[i][|lines[i]| - 1] != '\r'
    {
      AcceptedChars(lines[i]);
    }
  }

  lemma UnterminatedLast(text: string, init: seq<string>, last: string)
    requires Split(text, '\n') == init + [last] && last != "" && Terminated(init) == init
    ensures Lines(text) == init + [last]
  {
    assert (init + [last])[..|init|] == init;
  }

  lemma LinesOfText(lines: seq<string>)
    requires PlainLines(lines)
    ensures Lines(FormatText(lines)) == lines
  {
    if lines == [] {
      assert Split("", '\n') == [""];
    } else {
      SplitJoin(lines, '\n');
      var init, last := lines[..|lines| - 1], lines[|lines| - 1];
      assert lines == init + [last];
      UnterminatedLast(FormatText(lines), init, last);
    }
  }

  /** Saving a clean list as text and parsing it again gives the same list. */
  lemma TextRoundTrip(trackers: seq<string>)
    requires Clean(trackers)
    ensures Parsed(FormatText(trackers)) == trackers
  {
    CleanIsPlain(trackers);
    LinesOfText(trackers);
    AllAccepted(trackers);
    DedupOfDistinct(trackers);
    assert trackers[..|trackers|] == trackers;
  }

  /** Parsing settles a list once and for all, and the engine option carries exactly the parsed entries. */
  lemma ParseFormatParse(text: string)
    ensures Parsed(FormatText(Parsed(text))) == Parsed(text)
    ensures Parsed(text) != [] ==> Split(FormatOption(Parsed(text)), ',') == Parsed(text)
  {
    var trackers := Parsed(text);
    ParsedClean(text);
    TextRoundTrip(trackers);
    if trackers != [] {
      forall t | t in trackers ensures ',' !in t {
        AcceptedChars(t);
      }
      SplitJoin(trackers, ',');
    }
  }
}
