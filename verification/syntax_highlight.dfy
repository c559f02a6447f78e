/**
 * The route editor's highlighter: each pasted line that reads
 * `digits ":" blanks rest` is shown as three coloured spans, every other line
 * as one grey span.
 */
module SyntaxHighlight {
  import opened Text
  import opened Seqs
  import opened RouteParser

  const IdStyle := "color:#0066cc;font-weight:bold"
  const SeparatorStyle := "color:#666"
  const AddressStyle := "color:#333"
  const PlainStyle := "color:#999"

  datatype Span = Span(style: string, text: string)

  /** The text is inserted as it is, without escaping. */
  function RenderSpan(s: Span): string {
    "<span style=\"" + s.style + "\">" + s.text + "</span>"
  }

  predicate NoLineTerminator(s: string) {
    forall i :: 0 <= i < |s| ==> !IsLineTerminator(s[i])
  }

  /**
   * What `/^(\d+)(:\s*)(.*)$/` accepts: some split into one or more digits,
   * a colon, blanks, and a rest that `.` can cover.
   */
  ghost predicate RouteSyntax(line: string) {
    exists d: string, w: string, a: string ::
      && line == d + ":" + w + a
      && |d| > 0 && AllDigits(d) && IsBlank(w) && NoLineTerminator(a)
  }

  lemma Pieces(line: string, d: string, rest: string, blanks: string, t: string)
    requires line == d + [':'] + rest && rest == blanks + t
    ensures line == d + (":" + blanks) + t && (":" + blanks)[1..] == blanks
  {
  }

  /** A line that starts with digits and a colon is the digits, the colon with the blanks after it, and the rest. */
  lemma RouteLinePieces(line: string, d: string)
    requires d == LeadingDigits(line) && 0 < |d| < |line| && line[|d|] == ':'
    ensures var rest := line[|d| + 1..];
            var address := TrimStart(rest);
            var blanks := rest[..|rest| - |address|];
            line == d + (":" + blanks) + address && (":" + blanks)[1..] == blanks && IsBlank(blanks)
  {
    var rest := line[|d| + 1..];
    var address := TrimStart(rest);
    var blanks := rest[..|rest| - |address|];
    assert line == d + [':'] + rest;
    assert rest == blanks + address;
    Pieces(line, d, rest, blanks, address);
  }

  /** The regular expression's groups, taking the blanks greedily as it does. */
  function LineSpans(line: string): (spans: seq<Span>)
    ensures |spans| == 1 || |spans| == 3
    ensures |spans| == 1 ==> spans == [Span(PlainStyle, if line == "" then " " else line)]
    ensures |spans| == 3 ==>
      && spans[0].style == IdStyle && spans[1].style == SeparatorStyle && spans[2].style == AddressStyle
      && spans[0].text + spans[1].text + spans[2].text == line
      && |spans[0].text| > 0 && AllDigits(spans[0].text)
      && |spans[1].text| > 0 && spans[1].text[0] == ':' && IsBlank(spans[1].text[1..])
      && NoLineTerminator(spans[2].text)
      && (|spans[2].text| > 0 ==> !IsWhitespace(spans[2].text[0]))
  {
    var d := LeadingDigits(line);
    if |d| > 0 && |d| < |line| && line[|d|] == ':' then
      var rest := line[|d| + 1..];
      var address := TrimStart(rest);
      var blanks := rest[..|rest| - |address|];
      if NoLineTerminator(address) then
        RouteLinePieces(line, d);
        [Span(IdStyle, d), Span(SeparatorStyle, ":" + blanks), Span(AddressStyle, address)]
      else [Span(PlainStyle, line)]
    else [Span(PlainStyle, if line == "" then " " else line)]
  }

  /** A separator that starts with the colon splits off as the colon and the blanks after it. */
  lemma Reassociate(line: string, d: string, sep: string, a: string)
    requires line == d + sep + a && |sep| > 0 && sep[0] == ':'
    ensures line == d + ":" + sep[1..] + a
  {
    assert sep == ":" + sep[1..];
  }

  lemma {:induction false} SpansMatch(line: string)
    requires |LineSpans(line)| == 3
    ensures RouteSyntax(line)
  {
    var spans := LineSpans(line);
    var d, sep, a := spans[0].text, spans[1].text, spans[2].text;
    Reassociate(line, d, sep, a);
    assert |d| > 0 && AllDigits(d) && IsBlank(sep[1..]) && NoLineTerminator(a);
  }

  lemma {:induction false} SuffixNoLineTerminator(a: string)
    requires NoLineTerminator(a)
    ensures NoLineTerminator(TrimStart(a))
  {
    var r := TrimStart(a);
    forall i | 0 <= i < |r| ensures !IsLineTerminator(r[i]) {
      assert r[i] == a[|a| - |r| + i];
    }
  }

  /** Skipping blanks greedily never leaves a line terminator the split left out. */
  lemma {:induction false} TrimStartNoLineTerminator(w: string, a: string)
    requires IsBlank(w) && NoLineTerminator(a)
    ensures NoLineTerminator(TrimStart(w + a))
    decreases |w|
  {
    if |w| == 0 {
      assert w + a == a;
      SuffixNoLineTerminator(a);
    } else {
      assert (w + a)[1..] == w[1..] + a;
      TrimStartNoLineTerminator(w[1..], a);
    }
  }

  /** Whatever split the regular expression finds, the greedy reading finds one too. */
  lemma {:induction false} MatchSpans(line: string, d: string, w: string, a: string)
    requires line == d + ":" + w + a
    requires |d| > 0 && AllDigits(d) && IsBlank(w) && NoLineTerminator(a)
    ensures |LineSpans(line)| == 3
  {
    assert line == d + (":" + w + a);
    LeadingDigitsOfDigitsThen(d, ":" + w + a);
    assert line[|d| + 1..] == w + a;
    TrimStartNoLineTerminator(w, a);
  }

  /** A line is split into three spans exactly when the regular expression matches it. */
  lemma {:induction false} ThreeSpansIffMatch(line: string)
    ensures |LineSpans(line)| == 3 <==> RouteSyntax(line)
  {
    if |LineSpans(line)| == 3 {
      SpansMatch(line);
    }
    if RouteSyntax(line) {
      var d: string, w: string, a: string :|
        && line == d + ":" + w + a
        && |d| > 0 && AllDigits(d) && IsBlank(w) && NoLineTerminator(a);
      MatchSpans(line, d, w, a);
    }
  }

  /**
   * The groups the expression captures on `line`: the digits `d`, the colon
   * with the blanks `w` after it, and the rest `a`, with `\s*` taking every
   * blank, so `a` does not start with one.
   */
  ghost predicate Groups(line: string, d: string, w: string, a: string) {
    && line == d + ":" + w + a
    && |d| > 0 && AllDigits(d) && IsBlank(w) && NoLineTerminator(a)
    && (a == "" || !IsWhitespace(a[0]))
  }

  /** The markup of a matched line: the id, separator and address spans. */
  function Markup(d: string, w: string, a: string): string {
    RenderSpan(Span(IdStyle, d)) + RenderSpan(Span(SeparatorStyle, ":" + w)) + RenderSpan(Span(AddressStyle, a))
  }

  /** The three spans of a matched line are its groups. */
  lemma {:induction false} SpansAreGroups(line: string)
    requires |LineSpans(line)| == 3
    ensures var spans := LineSpans(line);
            Groups(line, spans[0].text, spans[1].text[1..], spans[2].text)
  {
    var spans := LineSpans(line);
    var d, sep, a := spans[0].text, spans[1].text, spans[2].text;
    Reassociate(line, d, sep, a);
    assert |d| > 0 && AllDigits(d) && IsBlank(sep[1..]) && NoLineTerminator(a);
    assert a == "" || !IsWhitespace(a[0]);
  }

  /** Blanks that end before a non-blank, or at the end, are the longest blank prefix. */
  lemma {:induction false} BlanksMaximal(rest: string, w1: string, a1: string, w2: string, a2: string)
    requires rest == w1 + a1 && rest == w2 + a2 && IsBlank(w2)
    requires a1 == "" || !IsWhitespace(a1[0])
    ensures |w2| <= |w1|
  {
    assert forall i :: 0 <= i < |w2| ==> IsWhitespace(rest[i]) by {
      forall i | 0 <= i < |w2| ensures IsWhitespace(rest[i]) {
        assert rest[i] == w2[i];
      }
    }
    if a1 != "" {
      assert rest[|w1|] == a1[0];
    }
  }

  /** The digit group is the line's leading digits, and the blanks and the rest follow the colon after them. */
  lemma {:induction false} GroupsDigits(line: string, d: string, w: string, a: string)
    requires Groups(line, d, w, a)
    ensures d == LeadingDigits(line) && |d| < |line| && line[|d| + 1..] == w + a
  {
    var tail := ":" + w + a;
    assert line == d + tail;
    LeadingDigitsOfDigitsThen(d, tail);
    assert line[|d| + 1..] == tail[1..];
  }

  /** A line has at most one reading into groups: the digits end at the colon, and the blanks run to the first non-blank. */
  lemma {:induction false} GroupsUnique(line: string, d1: string, w1: string, a1: string, d2: string, w2: string, a2: string)
    requires Groups(line, d1, w1, a1) && Groups(line, d2, w2, a2)
    ensures d1 == d2 && w1 == w2 && a1 == a2
  {
    GroupsDigits(line, d1, w1, a1);
    GroupsDigits(line, d2, w2, a2);
    var rest := line[|d1| + 1..];
    BlanksMaximal(rest, w1, a1, w2, a2);
    BlanksMaximal(rest, w2, a2, w1, a1);
    assert w1 == rest[..|w1|] && w2 == rest[..|w2|];
  }

  /**
   * `highlightCode`'s per-line template: the spans' markup, concatenated. A
   * line the expression rejects is one grey span of the whole line (a space
   * for an empty one), and the markup of a line never holds a line break.
   */
  function HighlightLine(line: string): (r: string)
    ensures !RouteSyntax(line) ==> r == RenderSpan(Span(PlainStyle, if line == "" then " " else line))
    ensures RouteSyntax(line) ==> exists d, w, a :: Groups(line, d, w, a) && r == Markup(d, w, a)
    ensures '\n' !in line ==> '\n' !in r
  {
    var spans := LineSpans(line);
    ThreeSpansIffMatch(line);
    if |spans| == 3 then
      SpansAreGroups(line);
      var w := spans[1].text[1..];
      assert spans[1] == Span(SeparatorStyle, ":" + w);
      var r := RenderSpan(spans[0]) + RenderSpan(spans[1]) + RenderSpan(spans[2]);
      assert r == Markup(spans[0].text, w, spans[2].text);
      if '\n' in line then r else SpansMarkupOneLine(line); r
    else if '\n' in line then RenderSpan(spans[0])
    else SpansMarkupOneLine(line); RenderSpan(spans[0])
  }

  /** A matched line is rendered from its groups, whichever way they are found. */
  lemma {:induction false} HighlightMatchedLine(line: string, d: string, w: string, a: string)
    requires Groups(line, d, w, a)
    ensures HighlightLine(line) == Markup(d, w, a)
  {
    assert RouteSyntax(line) by {
      assert line == d + ":" + w + a && |d| > 0 && AllDigits(d) && IsBlank(w) && NoLineTerminator(a);
    }
    var d', w', a' :| Groups(line, d', w', a') && HighlightLine(line) == Markup(d', w', a');
    GroupsUnique(line, d, w, a, d', w', a');
  }

  lemma RenderSpanOneLine(s: Span)
    requires '\n' !in s.style && '\n' !in s.text
    ensures '\n' !in RenderSpan(s)
  {
  }

  lemma StylesOneLine()
    ensures '\n' !in IdStyle && '\n' !in SeparatorStyle && '\n' !in AddressStyle && '\n' !in PlainStyle
  {
  }

  lemma {:induction false} SpansOneLine(line: string)
    requires '\n' !in line
    ensures forall k :: 0 <= k < |LineSpans(line)| ==> '\n' !in LineSpans(line)[k].text && '\n' !in LineSpans(line)[k].style
  {
    StylesOneLine();
    var spans := LineSpans(line);
    if |spans| == 3 {
      assert line == spans[0].text + spans[1].text + spans[2].text;
    }
  }

  /** The markup of each span of a line without a line break has none either. */
  lemma {:induction false} SpansMarkupOneLine(line: string)
    requires '\n' !in line
    ensures forall k :: 0 <= k < |LineSpans(line)| ==> '\n' !in RenderSpan(LineSpans(line)[k])
  {
    var spans := LineSpans(line);
    SpansOneLine(line);
    forall k | 0 <= k < |spans| ensures '\n' !in RenderSpan(spans[k]) {
      RenderSpanOneLine(spans[k]);
    }
  }

  /** Highlighting never merges or splits lines: line k of the output renders line k of the input. */
  lemma {:induction false} LinesCorrespond(text: string)
    ensures Split(Join(Map(HighlightLine, Split(text, '\n')), "\n"), '\n') == Map(HighlightLine, Split(text, '\n'))
  {
    var lines := Split(text, '\n');
    var out := Map(HighlightLine, lines);
    forall i | 0 <= i < |out| ensures '\n' !in out[i] {
      assert '\n' !in lines[i];
    }
    SplitJoin(out, '\n');
  }

  /**
   * `highlightCode`: empty text is returned as is; otherwise the lines are
   * highlighted one by one, and line k of the markup is the markup of line k.
   */
  function HighlightCode(text: string): (r: string)
    ensures text == "" ==> r == ""
    ensures text != "" ==> Split(r, '\n') == Map(HighlightLine, Split(text, '\n'))
  {
    if text == "" then text
    else
      LinesCorrespond(text);
      Join(Map(HighlightLine, Split(text, '\n')), "\n")
  }

  /** Every highlighted line is a route line for the parser. */
  lemma {:induction false} HighlightedIsRouteLine(line: string)
    requires |LineSpans(line)| == 3
    ensures IsRouteLine(line)
  {
  }

  /** A route line ending in a carriage return, as pasted Windows text has, is still a route line for the parser... */
  lemma {:induction false} CarriageReturnParsed(d: string, address: string)
    requires |d| > 0 && AllDigits(d)
    ensures IsRouteLine(d + ": " + address + "\r")
  {
    var line := d + ": " + address + "\r";
    assert line == d + (": " + address + "\r");
    LeadingDigitsOfDigitsThen(d, ": " + address + "\r");
  }

  lemma NotHighlightedWhen(line: string, d: string, t: string)
    requires LeadingDigits(line) == d && 0 < |d| < |line| && line[|d|] == ':'
    requires TrimStart(line[|d| + 1..]) == t && |t| > 0 && IsLineTerminator(t[|t| - 1])
    ensures |LineSpans(line)| == 1
  {
  }

  /** ...but the highlighter shows it as one grey span, since `.` does not cover the carriage return. */
  lemma {:induction false} CarriageReturnNotHighlighted(d: string, address: string)
    requires |d| > 0 && AllDigits(d)
    requires |address| > 0 && !IsWhitespace(address[0])
    ensures |LineSpans(d + ": " + address + "\r")| == 1
  {
    var line := d + ": " + address + "\r";
    var tail := address + "\r";
    assert LeadingDigits(line) == d && line[|d|] == ':' by {
      assert line == d + (": " + address + "\r");
      LeadingDigitsOfDigitsThen(d, ": " + address + "\r");
    }
    assert TrimStart(line[|d| + 1..]) == tail by {
      assert line[|d| + 1..] == [' '] + tail;
      assert TrimStart(tail) == tail;
    }
    NotHighlightedWhen(line, d, tail);
  }
}
