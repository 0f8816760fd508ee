/** Page attribution in text extracted from a PDF: offsets in the joined text against the pages they came from. */
module PdfPages {

  const SEPARATOR := '\U{000C}'

  /** The page texts joined by the separator. */
  function Joined(pages: seq<string>): string {
    if pages == [] then ""
    else if |pages| == 1 then pages[0]
    else Joined(pages[..|pages| - 1]) + [SEPARATOR] + pages[|pages| - 1]
  }

  function Start(pages: seq<string>, k: nat): nat
    requires k <= |pages|
  {
    if k == 0 then 0 else Start(pages, k - 1) + |pages[k - 1]| + 1
  }

  function Starts(pages: seq<string>): seq<nat> {
    seq(|pages|, k requires 0 <= k < |pages| => Start(pages, k))
  }

  /** The offset loop of `extract_pdf_text`. */
  method PageCharOffsets(pages: seq<string>) returns (offsets: seq<nat>)
    ensures offsets == Starts(pages)
  {
    offsets := [];
    var offset: nat := 0;
    for k := 0 to |pages|
      invariant offset == Start(pages, k)
      invariant offsets == Starts(pages)[..k]
    {
      offsets := offsets + [offset];
      offset := offset + |pages[k]| + 1;
    }
  }

  /** How many pages, from the first on, start no later than the offset. */
  function StartedBy(starts: seq<nat>, offset: nat): nat {
    if starts == [] || starts[0] > offset then 0 else 1 + StartedBy(starts[1..], offset)
  }

  /** The page an offset is attributed to, counted from 1. */
  function PageOf(starts: seq<nat>, offset: nat): nat {
    var started := StartedBy(starts, offset);
    if started == 0 then 1 else started
  }

  /** `page_for_offset`. */
  method PageForOffset(starts: seq<nat>, offset: nat) returns (page: nat)
    ensures page == PageOf(starts, offset)
  {
    var index: nat := 0;
    for k := 0 to |starts|
      invariant index == if k == 0 then 0 else k - 1
      invariant StartedBy(starts, offset) == k + StartedBy(starts[k..], offset)
    {
      assert starts[k..][1..] == starts[k + 1..];
      if starts[k] <= offset {
        index := k;
      } else {
        break;
      }
    }
    page := index + 1;
  }

  // Joining

  lemma {:induction false} StartPrefix(pages: seq<string>, n: nat, k: nat)
    requires k <= n <= |pages|
    ensures Start(pages[..n], k) == Start(pages, k)
  {
    if k > 0 {
      StartPrefix(pages, n, k - 1);
    }
  }

  lemma {:induction false} JoinedLength(pages: seq<string>)
    requires pages != []
    ensures |Joined(pages)| + 1 == Start(pages, |pages|)
  {
    var n := |pages|;
    if n > 1 {
      JoinedLength(pages[..n - 1]);
      StartPrefix(pages, n - 1, n - 1);
    } else {
      assert Start(pages, 1) == Start(pages, 0) + |pages[0]| + 1;
    }
  }

  lemma PrefixKeeps(x: string, y: string, a: nat, b: nat)
    requires x <= y && a <= b <= |x|
    ensures y[a..b] == x[a..b]
    ensures b < |x| ==> y[b] == x[b]
  {
  }

  lemma JoinedGrows(pages: seq<string>)
    requires |pages| > 1
    ensures var before := Joined(pages[..|pages| - 1]);
            && before <= Joined(pages)
            && |Joined(pages)| == |before| + 1 + |pages[|pages| - 1]|
            && Joined(pages)[|before|] == SEPARATOR
            && Joined(pages)[|before| + 1..] == pages[|pages| - 1]
  {
  }

  /** Where the text of page `k` stands in the joined text, and what follows it. */
  ghost predicate Stands(pages: seq<string>, k: nat)
    requires k < |pages|
  {
    var start, end, text := Start(pages, k), Start(pages, k) + |pages[k]|, Joined(pages);
    && end <= |text|
    && text[start..end] == pages[k]
    && if k + 1 < |pages| then end < |text| && text[end] == SEPARATOR else end == |text|
  }

  /** Each page's text stands at its start in the joined text, and a separator follows all but the last. */
  lemma {:induction false} PageStandsAtStart(pages: seq<string>, k: nat)
    requires k < |pages|
    ensures Stands(pages, k)
  {
    var n := |pages|;
    if n > 1 {
      var front := pages[..n - 1];
      JoinedGrows(pages);
      JoinedLength(front);
      StartPrefix(pages, n - 1, n - 1);
      StartPrefix(pages, n - 1, k);
      if k < n - 1 {
        PageStandsAtStart(front, k);
        PrefixKeeps(Joined(front), Joined(pages), Start(pages, k), Start(pages, k) + |pages[k]|);
      }
    }
  }

  lemma {:induction false} StartsIncrease(pages: seq<string>, j: nat, k: nat)
    requires j < k <= |pages|
    ensures Start(pages, j) + |pages[j]| < Start(pages, k)
  {
    if j < k - 1 {
      StartsIncrease(pages, j, k - 1);
    }
  }

  /** `n` pages have started when those below `n`, and no others, start by then. */
  lemma {:induction false} StartedByIs(starts: seq<nat>, offset: nat, n: nat)
    requires n <= |starts|
    requires forall k :: 0 <= k < |starts| ==> (starts[k] <= offset <==> k < n)
    ensures StartedBy(starts, offset) == n
  {
    if starts != [] && n > 0 {
      forall k | 0 <= k < |starts| - 1 ensures starts[1..][k] <= offset <==> k < n - 1 {
        assert starts[1..][k] == starts[k + 1];
      }
      StartedByIs(starts[1..], offset, n - 1);
    }
  }

  lemma StartedIff(pages: seq<string>, k: nat, offset: nat, j: nat)
    requires k < |pages| && j < |pages| && Start(pages, k) <= offset <= Start(pages, k) + |pages[k]|
    ensures Start(pages, j) <= offset <==> j <= k
  {
    if j < k {
      StartsIncrease(pages, j, k);
    } else if k < j {
      StartsIncrease(pages, k, j);
    }
  }

  /** An offset in a page's text, or on the separator after it, is attributed to that page. */
  lemma OffsetOnPage(pages: seq<string>, k: nat, offset: nat)
    requires k < |pages| && Start(pages, k) <= offset <= Start(pages, k) + |pages[k]|
    ensures PageOf(Starts(pages), offset) == k + 1
  {
    var starts := Starts(pages);
    forall j | 0 <= j < |starts| ensures starts[j] <= offset <==> j < k + 1 {
      StartedIff(pages, k, offset, j);
    }
    StartedByIs(starts, offset, k + 1);
  }

  /** Every offset up to the end of the joined text lies in some page, or on the separator after it. */
  lemma {:induction false} EveryOffsetHasPage(pages: seq<string>, offset: nat, n: nat) returns (k: nat)
    requires 0 < n <= |pages| && offset < Start(pages, n)
    ensures k < n && Start(pages, k) <= offset <= Start(pages, k) + |pages[k]|
  {
    k := n - 1;
    if offset < Start(pages, n - 1) {
      k := EveryOffsetHasPage(pages, offset, n - 1);
    }
  }

  /** Attribution inverts joining: the page named holds the character at the offset, at the place the offset says. */
  lemma AttributionInvertsJoining(pages: seq<string>, offset: nat)
    requires offset < |Joined(pages)|
    ensures 1 <= PageOf(Starts(pages), offset) <= |pages|
    ensures var k := PageOf(Starts(pages), offset) - 1;
            && Start(pages, k) <= offset <= Start(pages, k) + |pages[k]|
            && Joined(pages)[offset] == if offset - Start(pages, k) < |pages[k]| then pages[k][offset - Start(pages, k)]
               else SEPARATOR
  {
    JoinedLength(pages);
    var k := EveryOffsetHasPage(pages, offset, |pages|);
    OffsetOnPage(pages, k, offset);
    PageStandsAtStart(pages, k);
    var at := offset - Start(pages, k);
    if at < |pages[k]| {
      assert Joined(pages)[offset] == Joined(pages)[Start(pages, k)..Start(pages, k) + |pages[k]|][at];
    }
  }

  // Lines

  /** A line, and the line with the boundary that ends it. */
  datatype Line = Line(text: string, raw: string)

  /** Length of the line boundary at the start of `s`: a carriage return and line feed count as one. */
  function BoundaryAt(s: string, boundary: char -> bool): nat {
    if s == "" || !boundary(s[0]) then 0
    else if |s| > 1 && s[0] == '\r' && s[1] == '\n' then 2
    else 1
  }

  /** How many characters before the first boundary. */
  function LineLength(s: string, boundary: char -> bool): nat {
    if s == "" || boundary(s[0]) then 0 else 1 + LineLength(s[1..], boundary)
  }

  lemma {:induction false} LineLengthFits(s: string, boundary: char -> bool)
    ensures LineLength(s, boundary) <= |s|
    ensures forall i :: 0 <= i < LineLength(s, boundary) ==> !boundary(s[i])
    ensures LineLength(s, boundary) < |s| ==> boundary(s[LineLength(s, boundary)])
  {
    if s != "" && !boundary(s[0]) {
      LineLengthFits(s[1..], boundary);
      forall i | 0 <= i < LineLength(s, boundary) ensures !boundary(s[i]) {
        assert i > 0 ==> s[i] == s[1..][i - 1];
      }
    }
  }

  /** `str.splitlines`, for any set of boundary characters. */
  function SplitLines(s: string, boundary: char -> bool): seq<Line>
    decreases |s|
  {
    if s == "" then []
    else
      LineLengthFits(s, boundary);
      var n := LineLength(s, boundary);
      var m := n + BoundaryAt(s[n..], boundary);
      [Line(s[..n], s[..m])] + SplitLines(s[m..], boundary)
  }

  /** Where the i-th line starts: after all the raw lines before it. */
  function LineOffset(lines: seq<Line>, i: nat): nat
    requires i <= |lines|
  {
    if i == 0 then 0 else LineOffset(lines, i - 1) + |lines[i - 1].raw|
  }

  datatype Span = Span(line: nat, start: nat, end: nat, page: nat)

  /** The span of the i-th line, and the page its start is attributed to. */
  function SpanOf(lines: seq<Line>, starts: seq<nat>, i: nat): Span
    requires i < |lines|
  {
    var start := LineOffset(lines, i);
    Span(i + 1, start, start + |lines[i].text|, PageOf(starts, start))
  }

  /** The line loop of `_candidate_rows`. */
  method LineSpans(lines: seq<Line>, starts: seq<nat>) returns (spans: seq<Span>)
    ensures |spans| == |lines| && forall i :: 0 <= i < |lines| ==> spans[i] == SpanOf(lines, starts, i)
  {
    spans := [];
    var offset: nat := 0;
    for i := 0 to |lines|
      invariant offset == LineOffset(lines, i)
      invariant |spans| == i
      invariant forall k :: 0 <= k < i ==> spans[k] == SpanOf(lines, starts, k)
    {
      var page := PageForOffset(starts, offset);
      spans := spans + [Span(i + 1, offset, offset + |lines[i].text|, page)];
      offset := offset + |lines[i].raw|;
    }
  }

  lemma FirstLine(s: string, boundary: char -> bool)
    requires s != ""
    ensures var lines := SplitLines(s, boundary);
            && lines != []
            && |lines[0].text| <= |lines[0].raw| <= |s| && 0 < |lines[0].raw|
            && s[..|lines[0].text|] == lines[0].text
            && (forall i :: 0 <= i < |lines[0].text| ==> !boundary(lines[0].text[i]))
            && lines[1..] == SplitLines(s[|lines[0].raw|..], boundary)
  {
    LineLengthFits(s, boundary);
  }

  /** Each line stands at its offset and holds no boundary character. */
  lemma {:induction false} LineAt(s: string, boundary: char -> bool, i: nat)
    requires i < |SplitLines(s, boundary)|
    ensures var lines := SplitLines(s, boundary);
            && LineOffset(lines, i) + |lines[i].text| <= |s|
            && s[LineOffset(lines, i)..LineOffset(lines, i) + |lines[i].text|] == lines[i].text
            && forall k :: 0 <= k < |lines[i].text| ==> !boundary(lines[i].text[k])
    decreases i
  {
    FirstLine(s, boundary);
    if i > 0 {
      var lines := SplitLines(s, boundary);
      var rest := s[|lines[0].raw|..];
      LineAt(rest, boundary, i - 1);
      OffsetAfterFirst(lines, i);
      var a := LineOffset(lines[1..], i - 1);
      assert lines[i] == lines[1..][i - 1];
      DropShifts(s, |lines[0].raw|, a, a + |lines[i].text|);
    }
  }

  lemma DropShifts(s: string, m: nat, a: nat, b: nat)
    requires m <= |s| && a <= b <= |s| - m
    ensures s[m..][a..b] == s[m + a..m + b]
  {
  }

  lemma {:induction false} OffsetAfterFirst(lines: seq<Line>, i: nat)
    requires 0 < i <= |lines|
    ensures LineOffset(lines, i) == |lines[0].raw| + LineOffset(lines[1..], i - 1)
  {
    if i > 1 {
      OffsetAfterFirst(lines, i - 1);
    } else {
      assert LineOffset(lines, 1) == LineOffset(lines, 0) + |lines[0].raw|;
    }
  }

  /** A stretch of the joined text without separators lies on the page its start is attributed to. */
  lemma StretchOnPage(pages: seq<string>, start: nat, end: nat)
    requires start < end <= |Joined(pages)|
    requires forall k :: start <= k < end ==> Joined(pages)[k] != SEPARATOR
    ensures var page := PageOf(Starts(pages), start);
            && 1 <= page <= |pages|
            && Start(pages, page - 1) <= start && end <= Start(pages, page - 1) + |pages[page - 1]|
  {
    AttributionInvertsJoining(pages, start);
    PageStandsAtStart(pages, PageOf(Starts(pages), start) - 1);
  }

  /**
    Because the page separator ends a line, a line of the joined text that is not empty stands where its
    span says and lies wholly on the page it cites.
   */
  lemma LinesLieOnTheirPage(pages: seq<string>, text: string, lines: seq<Line>, boundary: char -> bool, i: nat)
    requires boundary(SEPARATOR) && text == Joined(pages) && lines == SplitLines(text, boundary)
    requires i < |lines| && lines[i].text != ""
    ensures var span := SpanOf(lines, Starts(pages), i);
            && span.start < span.end <= |text| && text[span.start..span.end] == lines[i].text
            && 1 <= span.page <= |pages|
            && Start(pages, span.page - 1) <= span.start
            && span.end <= Start(pages, span.page - 1) + |pages[span.page - 1]|
  {
    LineAt(text, boundary, i);
    var start := LineOffset(lines, i);
    var end := start + |lines[i].text|;
    forall k | start <= k < end ensures text[k] != SEPARATOR {
      assert text[start..end][k - start] == text[k];
    }
    StretchOnPage(pages, start, end);
  }

  /** Every line takes up some of the text. */
  lemma {:induction false} LineStartsWithin(s: string, boundary: char -> bool, i: nat)
    requires i < |SplitLines(s, boundary)|
    ensures LineOffset(SplitLines(s, boundary), i) < |s|
    decreases i
  {
    FirstLine(s, boundary);
    if i > 0 {
      var lines := SplitLines(s, boundary);
      LineStartsWithin(s[|lines[0].raw|..], boundary, i - 1);
      OffsetAfterFirst(lines, i);
    }
  }

  /**
    Lines are counted from 1; each stands at its span, also an empty one, and starts on the page it cites or
    on the separator after it.
   */
  lemma SpansStand(pages: seq<string>, lines: seq<Line>, boundary: char -> bool, i: nat)
    requires lines == SplitLines(Joined(pages), boundary) && i < |lines|
    ensures var span, text := SpanOf(lines, Starts(pages), i), Joined(pages);
            && span.line == i + 1
            && span.start <= span.end <= |text| && text[span.start..span.end] == lines[i].text
            && 1 <= span.page <= |pages|
            && Start(pages, span.page - 1) <= span.start <= Start(pages, span.page - 1) + |pages[span.page - 1]|
  {
    LineAt(Joined(pages), boundary, i);
    LineStartsWithin(Joined(pages), boundary, i);
    AttributionInvertsJoining(pages, LineOffset(lines, i));
  }
}
