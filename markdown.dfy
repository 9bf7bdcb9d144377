/** components/AIAnalysis.tsx: renderMarkdown and parseBold, the
    line-by-line classifier that turns the advice text into headers, list
    items, blank spacers and paragraphs, with **bold** runs inside. The
    React elements are represented by the Block and Span values. */
module Markdown {
  import opened Seqs
  import opened Text

  // ------------------------------------------------------------ parseBold

  /** A run of text: plain, or the content of a <strong> element. */
  datatype Span = Plain(text: string) | Bold(content: string)

  /** The characters the regular expression "." does not match. */
  predicate IsLineTerminator(c: char)
  {
    c == '\n' || c == '\r' || c as int == 0x2028 || c as int == 0x2029
  }

  /** A complete match of \*\*.*?\*\*: it opens and closes with "**", and
      the closing pair is the first one after the opening pair. */
  predicate IsBoldToken(t: string)
  {
    |t| >= 4 && StartsWith(t, "**") && EndsWith(t, "**")
    && forall j :: 2 <= j < |t| - 2 ==> !IsLineTerminator(t[j]) && !(t[j] == '*' && t[j + 1] == '*')
  }

  /** The lazy ".*?" followed by "\*\*", from index k: the first "**" at or
      after k, provided no line terminator comes before it. */
  function CloseAt(s: string, k: nat): (c: Option<nat>)
    requires k <= |s|
    ensures c.Some? ==> k <= c.value && c.value + 2 <= |s| && s[c.value] == '*' && s[c.value + 1] == '*'
    ensures c.Some? ==> forall j :: k <= j < c.value ==> !IsLineTerminator(s[j]) && !(s[j] == '*' && s[j + 1] == '*')
    decreases |s| - k
  {
    if k + 2 > |s| then None
    else if s[k] == '*' && s[k + 1] == '*' then Some(k)
    else if IsLineTerminator(s[k]) then None
    else CloseAt(s, k + 1)
  }

  /** The end of the match of \*\*.*?\*\* that starts at q, if there is one. */
  function BoldAt(s: string, q: nat): (e: Option<nat>)
    requires q <= |s|
    ensures e.Some? ==> q + 4 <= e.value <= |s| && IsBoldToken(s[q..e.value])
  {
    if q + 2 <= |s| && s[q] == '*' && s[q + 1] == '*' then
      match CloseAt(s, q + 2)
      case Some(k) =>
        Some(k + 2)
      case None => None
    else None
  }

  /** The split loop of String.prototype.split with the capturing pattern
      /(\*\*.*?\*\*)/g: p starts the pending piece and q is the next
      position tried. Matches alternate with the text between them. */
  function SplitPieces(s: string, p: nat, q: nat): (parts: seq<string>)
    requires p <= q <= |s|
    ensures |parts| % 2 == 1
    ensures forall i :: 0 <= i < |parts| && i % 2 == 1 ==> IsBoldToken(parts[i])
    decreases |s| - q
  {
    if q >= |s| then [s[p..]]
    else match BoldAt(s, q)
      case Some(e) =>
        var rest := SplitPieces(s, e, e);
        var parts := [s[p..q], s[q..e]] + rest;
        assert forall i :: 2 <= i < |parts| ==> parts[i] == rest[i - 2];
        parts
      case None => SplitPieces(s, p, q + 1)
  }

  /** text.split(/(\*\*.*?\*\*)/g). */
  function SplitBold(text: string): seq<string>
  {
    SplitPieces(text, 0, 0)
  }

  function Concat(parts: seq<string>): string
  {
    if parts == [] then "" else parts[0] + Concat(parts[1..])
  }

  lemma ConcatTwo(a: string, b: string, rest: seq<string>)
    ensures Concat([a, b] + rest) == a + (b + Concat(rest))
  {
    var parts := [a, b] + rest;
    assert parts[1..] == [b] + rest;
    assert parts[1..][1..] == rest;
  }

  lemma SliceThree(s: string, p: nat, q: nat, e: nat)
    requires p <= q <= e <= |s|
    ensures s[p..q] + (s[q..e] + s[e..]) == s[p..]
  {
  }

  /** The pieces of the split put back together are the text. */
  lemma {:induction false} SplitPiecesConcat(s: string, p: nat, q: nat)
    requires p <= q <= |s|
    ensures Concat(SplitPieces(s, p, q)) == s[p..]
    decreases |s| - q
  {
    if q >= |s| {
      assert SplitPieces(s, p, q) == [s[p..]];
      assert [s[p..]][1..] == [];
    } else if BoldAt(s, q).Some? {
      var e := BoldAt(s, q).value;
      var rest := SplitPieces(s, e, e);
      assert SplitPieces(s, p, q) == [s[p..q], s[q..e]] + rest;
      SplitPiecesConcat(s, e, e);
      ConcatTwo(s[p..q], s[q..e], rest);
      SliceThree(s, p, q, e);
    } else {
      assert SplitPieces(s, p, q) == SplitPieces(s, p, q + 1);
      SplitPiecesConcat(s, p, q + 1);
    }
  }

  /** String.prototype.slice(2, -2). */
  function Inner(t: string): (r: string)
    ensures |t| >= 4 ==> "**" + r + "**" == t || !(StartsWith(t, "**") && EndsWith(t, "**"))
  {
    if |t| >= 4 then t[2..|t| - 2] else ""
  }

  /** The callback of parseBold's map: a part that both starts and ends
      with "**" becomes bold with the stars sliced off. */
  function SpanOf(part: string): Span
  {
    if StartsWith(part, "**") && EndsWith(part, "**") then Bold(Inner(part)) else Plain(part)
  }

  /** parseBold. */
  function ParseBold(text: string): (spans: seq<Span>)
    ensures |spans| == |SplitBold(text)|
    ensures forall i :: 0 <= i < |spans| && i % 2 == 1 ==>
      spans[i].Bold? && "**" + spans[i].content + "**" == SplitBold(text)[i]
    ensures forall i :: 0 <= i < |spans| && i % 2 == 0 ==> SpanOf(SplitBold(text)[i]) == spans[i]
  {
    var parts := SplitBold(text);
    assert forall i :: 0 <= i < |parts| && i % 2 == 1 ==> IsBoldToken(parts[i]);
    Map(parts, SpanOf)
  }

  /** The markup a span came from. */
  function Source(sp: Span): string
  {
    match sp
    case Plain(t) => t
    case Bold(c) => "**" + c + "**"
  }

  /** A part shorter than four characters that starts and ends with "**"
      ("**" or "***", which can only sit between matches) is shown as an
      empty bold run. */
  predicate Degenerate(part: string)
  {
    |part| < 4 && StartsWith(part, "**") && EndsWith(part, "**")
  }

  /** Apart from degenerate parts, the spans reproduce the text: the
      plain runs and the bold runs with their stars put back. */
  lemma ParseBoldRoundTrip(text: string)
    requires forall i :: 0 <= i < |SplitBold(text)| ==> !Degenerate(SplitBold(text)[i])
    ensures Concat(Map(ParseBold(text), Source)) == text
  {
    var parts := SplitBold(text);
    var spans := ParseBold(text);
    forall i | 0 <= i < |parts| ensures Source(spans[i]) == parts[i] {
      if i % 2 == 0 {
        if StartsWith(parts[i], "**") && EndsWith(parts[i], "**") {
          assert |parts[i]| >= 4;
          assert "**" + parts[i][2..|parts[i]| - 2] + "**" == parts[i];
        }
      }
    }
    assert Map(spans, Source) == parts;
    SplitPiecesConcat(text, 0, 0);
  }

  /** The matches in "**a**b**": one at 0 ending at 5, none after it. */
  lemma ExampleMatches()
    ensures BoldAt("**a**b**", 0) == Some(5)
    ensures BoldAt("**a**b**", 5).None? && BoldAt("**a**b**", 6).None? && BoldAt("**a**b**", 7).None?
  {
    var s := "**a**b**";
    assert CloseAt(s, 3) == Some(3);
    assert CloseAt(s, 2) == Some(3);
    assert CloseAt(s, 8).None?;
  }

  lemma ExampleSplit()
    ensures SplitBold("**a**b**") == ["", "**a**", "b**"]
  {
    var s := "**a**b**";
    ExampleMatches();
    assert SplitPieces(s, 5, 8) == ["b**"];
    assert SplitPieces(s, 5, 7) == ["b**"];
    assert SplitPieces(s, 5, 6) == ["b**"];
    assert SplitPieces(s, 5, 5) == ["b**"];
    assert SplitPieces(s, 0, 0) == [s[0..0], s[0..5]] + ["b**"];
    assert s[0..0] == "" && s[0..5] == "**a**";
  }

  lemma ExampleSpans()
    ensures SpanOf("") == Plain("")
    ensures SpanOf("**a**") == Bold("a")
    ensures SpanOf("b**") == Plain("b**")
  {
    assert StartsWith("**a**", "**") && EndsWith("**a**", "**");
    assert "**a**"[2..3] == "a";
    assert "b**"[..2][0] == 'b';
    assert !StartsWith("b**", "**");
  }

  /** A bold run closes at the first "**" after it opens (the match is
      lazy), and stars left without a partner stay plain. */
  lemma BoldClosesEarly()
    ensures SplitBold("**a**b**") == ["", "**a**", "b**"]
    ensures ParseBold("**a**b**") == [Plain(""), Bold("a"), Plain("b**")]
  {
    var s := "**a**b**";
    ExampleSplit();
    ExampleSpans();
    var parts := SplitBold(s);
    var spans := ParseBold(s);
    assert spans == Map(parts, SpanOf);
    assert |spans| == 3 && spans[0] == Plain("") && spans[1] == Bold("a") && spans[2] == Plain("b**");
  }

  // ------------------------------------------------------- renderMarkdown

  /** The element one line becomes. */
  datatype Block = Header(content: string) | ListItem(spans: seq<Span>) | Blank | Paragraph(spans: seq<Span>)

  /** A header: "###…", or "**…**" shorter than 50 characters. */
  predicate IsHeaderLine(t: string)
  {
    StartsWith(t, "###") || (StartsWith(t, "**") && EndsWith(t, "**") && |t| < 50)
  }

  /** /^\d+\./ */
  predicate StartsWithNumber(t: string)
  {
    var e := DigitRunEnd(t, 0);
    0 < e < |t| && t[e] == '.'
  }

  /** A list item: "- …", "* …", or digits followed by a dot. */
  predicate IsListLine(t: string)
  {
    StartsWith(t, "- ") || StartsWith(t, "* ") || StartsWithNumber(t)
  }

  /** The end of a match of /^[-*]|\d+\./ at position p. */
  function MarkerAt(s: string, p: nat): (e: Option<nat>)
    requires p <= |s|
    ensures e.Some? ==> p < e.value <= |s|
  {
    if p == 0 && |s| > 0 && (s[0] == '-' || s[0] == '*') then Some(1)
    else
      var d := DigitRunEnd(s, p);
      if p < d < |s| && s[d] == '.' then Some(d + 1) else None
  }

  /** The leftmost match of /^[-*]|\d+\./ at or after p, as (start, end). */
  function FirstMarker(s: string, p: nat): (m: Option<(nat, nat)>)
    requires p <= |s|
    ensures m.Some? ==> p <= m.value.0 < m.value.1 <= |s|
    decreases |s| - p
  {
    match MarkerAt(s, p)
    case Some(e) => Some((p, e))
    case None => if p < |s| then FirstMarker(s, p + 1) else None
  }

  /** trimmed.replace(/^[-*]|\d+\./, ''): the first match removed. */
  function RemoveMarker(s: string): string
  {
    match FirstMarker(s, 0)
    case Some((a, b)) => s[..a] + s[b..]
    case None => s
  }

  /** A marker at 0 is the leftmost match. */
  lemma MarkerAtStart(s: string)
    requires MarkerAt(s, 0).Some?
    ensures RemoveMarker(s) == s[MarkerAt(s, 0).value..]
  {
    var e := MarkerAt(s, 0).value;
    assert FirstMarker(s, 0) == Some((0, e));
    assert s[..0] + s[e..] == s[e..];
  }

  /** On a list line the replacement removes exactly the marker in front:
      the dash or star, or the number and its dot. */
  lemma RemoveMarkerOfListLine(t: string)
    requires IsListLine(t)
    ensures t[0] == '-' || t[0] == '*' ==> RemoveMarker(t) == t[1..]
    ensures !(t[0] == '-' || t[0] == '*') ==> RemoveMarker(t) == t[DigitRunEnd(t, 0) + 1..]
  {
    assert |t| > 0;
    if t[0] == '-' || t[0] == '*' {
      assert MarkerAt(t, 0) == Some(1);
    } else {
      assert StartsWithNumber(t);
      assert MarkerAt(t, 0) == Some(DigitRunEnd(t, 0) + 1);
    }
    MarkerAtStart(t);
  }

  /** The content of a header line: every '#' and every "**" removed,
      every other character kept, as often as before and in its order. */
  function HeaderContent(t: string): (c: string)
    ensures '#' !in c
    ensures forall i :: 0 <= i < |c| - 1 ==> !(c[i] == '*' && c[i + 1] == '*')
    ensures forall ch :: ch != '#' && ch != '*' ==> multiset(c)[ch] == multiset(t)[ch]
    ensures IsSubsequence(c, t)
  {
    var r := RemoveChar(t, '#');
    RemoveStarPairsClean(r);
    RemoveCharKeeps(t, '#');
    RemoveStarPairsKeeps(r);
    SubsequenceTrans(RemoveStarPairs(r), r, t);
    RemoveStarPairs(r)
  }

  /** The callback of renderMarkdown's map, in its order of tests:
      header, list item, blank, paragraph. Headers and list items are
      built from the trimmed line, a paragraph from the line as it is. */
  function ClassifyLine(line: string): (b: Block)
    ensures b.Header? <==> IsHeaderLine(Trim(line))
    ensures b.ListItem? <==> !IsHeaderLine(Trim(line)) && IsListLine(Trim(line))
    ensures b.Blank? <==> !IsHeaderLine(Trim(line)) && !IsListLine(Trim(line)) && Trim(line) == ""
    ensures b.Header? ==> '#' !in b.content
    ensures b.Header? ==> forall i :: 0 <= i < |b.content| - 1 ==> !(b.content[i] == '*' && b.content[i + 1] == '*')
    ensures b.Header? ==> b.content == HeaderContent(Trim(line))
    ensures b.ListItem? ==> b.spans == ParseBold(Trim(RemoveMarker(Trim(line))))
    ensures b.Paragraph? ==> b.spans == ParseBold(line)
  {
    var trimmed := Trim(line);
    if IsHeaderLine(trimmed) then Header(HeaderContent(trimmed))
    else if IsListLine(trimmed) then ListItem(ParseBold(Trim(RemoveMarker(trimmed))))
    else if trimmed == "" then Blank
    else Paragraph(ParseBold(line))
  }

  /** A line is a blank spacer exactly when it is all whitespace. */
  lemma BlankIffWhitespace(line: string)
    ensures ClassifyLine(line).Blank? <==> forall i :: 0 <= i < |line| ==> IsJsSpace(line[i])
  {
    TrimEmpty(line);
    if Trim(line) == "" {
      assert !IsListLine(Trim(line)) by {
        assert DigitRunEnd("", 0) == 0;
      }
    }
  }

  /** A paragraph keeps the line's own spacing: its spans reproduce the
      untrimmed line. */
  lemma ParagraphKeepsLine(line: string)
    requires ClassifyLine(line).Paragraph?
    requires forall i :: 0 <= i < |SplitBold(line)| ==> !Degenerate(SplitBold(line)[i])
    ensures Concat(Map(ClassifyLine(line).spans, Source)) == line
  {
    ParseBoldRoundTrip(line);
  }

  /** renderMarkdown: null for an empty text, otherwise one block per
      line of text.split('\n'). */
  function RenderMarkdown(text: string): Option<seq<Block>>
  {
    if text == "" then None else Some(Map(Split(text, '\n'), ClassifyLine))
  }

  /** There is one block per line, in order, and the lines are the text's
      '\n'-separated parts. */
  lemma RenderMarkdownSpec(text: string)
    ensures RenderMarkdown(text).None? <==> text == ""
    ensures RenderMarkdown(text).Some? ==>
      |RenderMarkdown(text).value| == Occurrences(text, '\n') + 1
      && (forall i :: 0 <= i < |RenderMarkdown(text).value| ==>
            RenderMarkdown(text).value[i] == ClassifyLine(Split(text, '\n')[i]))
      && Join(Split(text, '\n'), '\n') == text
  {
    SplitCount(text, '\n');
    SplitJoin(text, '\n');
  }
}
