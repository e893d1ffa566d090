/** `markdownToHtml` of the browser client: eleven regular-expression
    replacements applied in a fixed order (static/cv_script.js:204-218).

    Lines are what a JavaScript regular expression means by them: `^` and `$`
    under the `m` flag, and `.` without the `s` flag, stop at any of the four
    line terminators. The rules that carry `g` and `m` and cannot cross a line
    end act on each line on its own (`MapLines`); the `<ul>` wrap and the two
    newline rules act on the whole string. */
module Markdown {
  import opened Wrappers
  import opened Text

  predicate IsLineTerminator(c: char)
  {
    c == '\n' || c == '\r' || c == '\U{2028}' || c == '\U{2029}'
  }

  predicate NoTerminator(s: string)
  {
    forall i :: 0 <= i < |s| ==> !IsLineTerminator(s[i])
  }

  /** The length of the first line of `s`. */
  function LineEnd(s: string): (i: nat)
    ensures i <= |s|
    ensures forall j :: 0 <= j < i ==> !IsLineTerminator(s[j])
    ensures i < |s| ==> IsLineTerminator(s[i])
  {
    if s == [] || IsLineTerminator(s[0]) then 0 else 1 + LineEnd(s[1..])
  }

  /** Applies `f` to every line of `s` and keeps the terminators between them. */
  function MapLines(f: string -> string, s: string): string
    decreases |s|
  {
    var i := LineEnd(s);
    if i == |s| then f(s) else f(s[..i]) + [s[i]] + MapLines(f, s[i + 1..])
  }

  // ---- the per-line rules -------------------------------------------------

  /** `/^M(.*$)/gim` replaced by `open$1close`, on one line. */
  function Prefixed(line: string, marker: string, open: string, close: string): string
  {
    if marker <= line then open + line[|marker|..] + close else line
  }

  function H1Line(line: string): string { Prefixed(line, "# ", "<h1>", "</h1>") }
  function H2Line(line: string): string { Prefixed(line, "## ", "<h2>", "</h2>") }
  function H3Line(line: string): string { Prefixed(line, "### ", "<h3>", "</h3>") }
  function ListItemLine(line: string): string { Prefixed(line, "- ", "<li>", "</li>") }

  /** `/D(.*)D/gim` replaced by `open$1close`, on one line. The match is the
      leftmost-greedy one; no `D` is left after it, so there is at most one
      replacement per line. */
  function Enclose(line: string, d: string, open: string, close: string): (r: string)
    ensures !HasPair(line, d, d) ==> r == line
    ensures HasPair(line, d, d) ==>
      exists p, q :: GreedyPair(line, d, d, p, q) &&
        r == line[..p] + open + line[p + |d|..q] + close + line[q + |d|..]
  {
    match FindPair(line, d, d)
    case None => line
    case Some((p, q)) => line[..p] + open + line[p + |d|..q] + close + line[q + |d|..]
  }

  function StrongLine(line: string): string { Enclose(line, "**", "<strong>", "</strong>") }
  function EmLine(line: string): string { Enclose(line, "*", "<em>", "</em>") }

  /** `/^(?!<[h|u|l])/gm` replaced by `<p>`: the character class holds `h`, `|`, `u` and `l`. */
  function OpenParagraph(line: string): string
  {
    if |line| >= 2 && line[0] == '<' && line[1] in "h|ul" then line else "<p>" + line
  }

  /** `/(?<!>)$/gm` replaced by `</p>`. */
  function CloseParagraph(line: string): string
  {
    if |line| > 0 && line[|line| - 1] == '>' then line else line + "</p>"
  }

  /** After the paragraph rules a line starts with `<` and ends with `>`; a
      second `</p>` rule would add nothing. */
  lemma ParagraphRulesTagEnds(line: string)
    ensures var o := OpenParagraph(line); |o| >= 2 && o[0] == '<'
    ensures var c := CloseParagraph(line); c != [] && c[|c| - 1] == '>'
    ensures CloseParagraph(CloseParagraph(line)) == CloseParagraph(line)
  {
  }

  /** The class `[h|u|l]` also spares a line that starts with `<|`, while a
      line that opens with `<strong>` or `<em>` still gets `<p>`. */
  lemma ParagraphClassQuirks(t: string)
    ensures OpenParagraph("<|" + t) == "<|" + t
    ensures OpenParagraph("<strong>" + t) == "<p><strong>" + t
    ensures OpenParagraph("<em>" + t) == "<p><em>" + t
  {
    assert ("<|" + t)[0] == '<' && ("<|" + t)[1] == '|';
    assert ("<strong>" + t)[1] == 's';
    assert ("<em>" + t)[1] == 'e';
    assert "<p>" + ("<strong>" + t) == "<p><strong>" + t;
    assert "<p>" + ("<em>" + t) == "<p><em>" + t;
  }

  // ---- the whole-string rules ---------------------------------------------

  /** `/(<li>.*<\/li>)/s` replaced by `<ul>$1</ul>`: one replacement only (no
      `g`), and `.` crosses line ends (`s`), so the wrap runs from the first
      `<li>` to the last `</li>` of the whole string. */
  function WrapList(s: string): (r: string)
    ensures !HasPair(s, "<li>", "</li>") ==> r == s
    ensures HasPair(s, "<li>", "</li>") ==>
      exists p, q :: GreedyPair(s, "<li>", "</li>", p, q) &&
        r == s[..p] + "<ul>" + s[p..q + 5] + "</ul>" + s[q + 5..]
  {
    match FindPair(s, "<li>", "</li>")
    case None => s
    case Some((p, q)) => s[..p] + "<ul>" + s[p..q + 5] + "</ul>" + s[q + 5..]
  }

  predicate NoBlankLine(s: string)
  {
    forall i :: 0 <= i < |s| - 1 ==> s[i] != '\n' || s[i + 1] != '\n'
  }

  /** `/\n\n/g` replaced by `</p><p>`, pairs taken left to right. */
  function BlankLinesToParagraphs(s: string): (r: string)
    ensures NoBlankLine(r)
    ensures |r| > 0 && r[0] == '\n' ==> |s| > 0 && s[0] == '\n'
    ensures '\n' !in s ==> r == s
    decreases |s|
  {
    if |s| >= 2 && s[0] == '\n' && s[1] == '\n' then "</p><p>" + BlankLinesToParagraphs(s[2..])
    else if s == [] then []
    else [s[0]] + BlankLinesToParagraphs(s[1..])
  }

  /** `/\n/g` replaced by `<br>`. */
  function NewlinesToBreaks(s: string): (r: string)
    ensures '\n' !in r
    ensures '\n' !in s ==> r == s
    decreases |s|
  {
    if s == [] then []
    else if s[0] == '\n' then "<br>" + NewlinesToBreaks(s[1..])
    else [s[0]] + NewlinesToBreaks(s[1..])
  }

  // ---- the chain ----------------------------------------------------------

  /** The heading, emphasis and list rules and the `<ul>` wrap, then the two
      newline rules: everything before the two paragraph rules
      (static/cv_script.js:207-215). */
  function Flattened(markdown: string): string
  {
    var headings := MapLines(H3Line, MapLines(H2Line, MapLines(H1Line, markdown)));
    var emphasis := MapLines(EmLine, MapLines(StrongLine, headings));
    var items := MapLines(ListItemLine, emphasis);
    NewlinesToBreaks(BlankLinesToParagraphs(WrapList(items)))
  }

  /** `markdownToHtml(markdown)`. */
  function MarkdownToHtml(markdown: string): string
  {
    MapLines(CloseParagraph, MapLines(OpenParagraph, Flattened(markdown)))
  }

  // ---- how the line-wise rules compose ------------------------------------

  /** A string without a terminator is a single line. */
  lemma MapLinesOfLine(f: string -> string, s: string)
    requires NoTerminator(s)
    ensures MapLines(f, s) == f(s)
  {
    assert LineEnd(s) == |s|;
  }

  /** The first line, its terminator, and the rest. */
  lemma MapLinesCons(f: string -> string, a: string, c: char, b: string)
    requires NoTerminator(a) && IsLineTerminator(c)
    ensures MapLines(f, a + [c] + b) == f(a) + [c] + MapLines(f, b)
  {
    var s := a + [c] + b;
    var i := LineEnd(s);
    assert s[|a|] == c;
    assert forall j :: 0 <= j < |a| ==> s[j] == a[j];
    assert i == |a|;
    assert s[..i] == a;
    assert s[i + 1..] == b;
  }

  /** A character that no line rule introduces stays absent. */
  lemma {:induction false} MapLinesKeepsOut(f: string -> string, s: string, x: char)
    requires x !in s
    requires forall t :: NoTerminator(t) && x !in t ==> x !in f(t)
    ensures x !in MapLines(f, s)
    decreases |s|
  {
    var i := LineEnd(s);
    assert NoTerminator(s[..i]);
    if i < |s| {
      assert x !in s[..i] && x != s[i] && x !in s[i + 1..] by {
        assert s == s[..i] + [s[i]] + s[i + 1..];
      }
      MapLinesKeepsOut(f, s[i + 1..], x);
    }
  }

  /** Two line-wise rules in a row are one line-wise rule, provided the first
      keeps each line a single line. */
  lemma {:induction false} MapLinesFusion(f: string -> string, g: string -> string, h: string -> string, s: string)
    requires forall t :: NoTerminator(t) ==> NoTerminator(f(t))
    requires forall t :: NoTerminator(t) ==> h(t) == g(f(t))
    ensures MapLines(g, MapLines(f, s)) == MapLines(h, s)
    decreases |s|
  {
    var i := LineEnd(s);
    var line := s[..i];
    assert NoTerminator(line);
    if i == |s| {
      MapLinesOfLine(g, f(s));
    } else {
      assert s == line + [s[i]] + s[i + 1..];
      MapLinesCons(f, line, s[i], s[i + 1..]);
      MapLinesCons(g, f(line), s[i], MapLines(f, s[i + 1..]));
      MapLinesFusion(f, g, h, s[i + 1..]);
    }
  }

  /** The image of a first line followed by a line end, or by nothing, appears
      at the head of `MapLines(f, …)`. */
  lemma MapLinesShowsFirstLine(f: string -> string, line: string, post: string) returns (y: string)
    requires NoTerminator(line)
    requires post == [] || IsLineTerminator(post[0])
    ensures MapLines(f, line + post) == f(line) + y
  {
    if post == [] {
      assert line + post == line;
      MapLinesOfLine(f, line);
      y := [];
    } else {
      assert line + post == line + [post[0]] + post[1..];
      MapLinesCons(f, line, post[0], post[1..]);
      y := [post[0]] + MapLines(f, post[1..]);
    }
  }

  /** `(u + [d] + v) + [c] + b` regrouped around its first terminator. */
  lemma RegroupAt(u: string, d: char, v: string, c: char, b: string)
    ensures (u + [d] + v) + [c] + b == u + [d] + (v + [c] + b)
  {
  }

  lemma Regroup(u: string, c: char, v: string, w: string)
    ensures (u + [c]) + v + w == u + [c] + (v + w)
  {
  }

  /** A line end splits `MapLines` into the parts before and after it. */
  lemma {:induction false} MapLinesSplit(f: string -> string, a: string, c: char, b: string)
    requires IsLineTerminator(c)
    ensures MapLines(f, a + [c] + b) == MapLines(f, a) + [c] + MapLines(f, b)
    decreases |a|
  {
    var i := LineEnd(a);
    if i == |a| {
      assert NoTerminator(a);
      MapLinesCons(f, a, c, b);
      MapLinesOfLine(f, a);
    } else {
      var first, d, rest := a[..i], a[i], a[i + 1..];
      MapLinesSplitStep(f, a, first, d, rest, c, b);
    }
  }

  lemma {:induction false} MapLinesSplitStep(f: string -> string, a: string, first: string, d: char, rest: string, c: char, b: string)
    requires IsLineTerminator(c) && IsLineTerminator(d) && NoTerminator(first)
    requires a == first + [d] + rest
    ensures MapLines(f, a + [c] + b) == MapLines(f, a) + [c] + MapLines(f, b)
    decreases |a|, 0
  {
    RegroupAt(first, d, rest, c, b);
    var tail := MapLines(f, rest + [c] + b);
    MapLinesCons(f, first, d, rest + [c] + b);
    assert MapLines(f, a + [c] + b) == f(first) + [d] + tail;
    MapLinesCons(f, first, d, rest);
    assert MapLines(f, a) == f(first) + [d] + MapLines(f, rest);
    MapLinesSplit(f, rest, c, b);
    assert tail == MapLines(f, rest) + [c] + MapLines(f, b);
  }

  /** The image of every complete line of `s` appears in `MapLines(f, s)`. */
  lemma MapLinesShowsLine(f: string -> string, pre: string, line: string, post: string)
    returns (x: string, y: string)
    requires pre == [] || IsLineTerminator(pre[|pre| - 1])
    requires NoTerminator(line)
    requires post == [] || IsLineTerminator(post[0])
    ensures MapLines(f, pre + line + post) == x + f(line) + y
  {
    if pre == [] {
      assert pre + line + post == line + post;
      y := MapLinesShowsFirstLine(f, line, post);
      x := [];
    } else {
      var front, c := pre[..|pre| - 1], pre[|pre| - 1];
      assert pre == front + [c];
      x, y := MapLinesShowsLaterLine(f, front, c, line, post);
    }
  }

  lemma MapLinesShowsLaterLine(f: string -> string, front: string, c: char, line: string, post: string)
    returns (x: string, y: string)
    requires IsLineTerminator(c)
    requires NoTerminator(line)
    requires post == [] || IsLineTerminator(post[0])
    ensures MapLines(f, front + [c] + line + post) == x + f(line) + y
  {
    y := MapLinesShowsFirstLine(f, line, post);
    Regroup(front, c, line, post);
    MapLinesSplit(f, front, c, line + post);
    x := MapLines(f, front) + [c];
  }

  // ---- what the rules keep out --------------------------------------------

  lemma PrefixedKeepsOut(line: string, marker: string, open: string, close: string, x: char)
    requires x !in line && x !in open && x !in close
    ensures x !in Prefixed(line, marker, open, close)
  {
    if marker <= line {
      assert x !in line[|marker|..];
    }
  }

  lemma EncloseKeepsOut(line: string, d: string, open: string, close: string, x: char)
    requires x !in line && x !in open && x !in close
    ensures x !in Enclose(line, d, open, close)
  {
    match FindPair(line, d, d)
    case None =>
    case Some((p, q)) =>
      assert At(line, d, q);
      var front, span, back := line[..p], line[p + |d|..q], line[q + |d|..];
      assert x !in front && x !in span && x !in back;
  }

  /** No heading, list or paragraph rule introduces a line terminator. */
  lemma HeadingRulesKeepOut(t: string, x: char)
    requires IsLineTerminator(x) && x !in t
    ensures x !in H1Line(t) && x !in H2Line(t) && x !in H3Line(t) && x !in ListItemLine(t)
  {
    PrefixedKeepsOut(t, "# ", "<h1>", "</h1>", x);
    PrefixedKeepsOut(t, "## ", "<h2>", "</h2>", x);
    PrefixedKeepsOut(t, "### ", "<h3>", "</h3>", x);
    PrefixedKeepsOut(t, "- ", "<li>", "</li>", x);
  }

  lemma EmphasisRulesKeepOut(t: string, x: char)
    requires IsLineTerminator(x) && x !in t
    ensures x !in StrongLine(t) && x !in EmLine(t)
  {
    EncloseKeepsOut(t, "**", "<strong>", "</strong>", x);
    EncloseKeepsOut(t, "*", "<em>", "</em>", x);
  }

  lemma ParagraphRulesKeepOut(t: string, x: char)
    requires IsLineTerminator(x) && x !in t
    ensures x !in OpenParagraph(t) && x !in CloseParagraph(t)
  {
    assert x !in "<p>" && x !in "</p>";
  }

  lemma {:induction false} BlankLinesKeepOut(s: string, x: char)
    requires IsLineTerminator(x) && x !in s
    ensures x !in BlankLinesToParagraphs(s)
    decreases |s|
  {
    if |s| >= 2 && s[0] == '\n' && s[1] == '\n' {
      assert x !in s[2..];
      BlankLinesKeepOut(s[2..], x);
    } else if s != [] {
      assert x !in s[1..];
      BlankLinesKeepOut(s[1..], x);
    }
  }

  lemma {:induction false} BreaksKeepOut(s: string, x: char)
    requires IsLineTerminator(x) && x !in s
    ensures x !in NewlinesToBreaks(s)
    decreases |s|
  {
    if s != [] {
      assert x !in s[1..];
      BreaksKeepOut(s[1..], x);
    }
  }

  /** Inserting two texts that lack `x` into one that lacks it. */
  lemma SpliceKeepsOut(s: string, p: nat, q: nat, open: string, close: string, x: char)
    requires p <= q <= |s| && x !in s && x !in open && x !in close
    ensures x !in s[..p] + open + s[p..q] + close + s[q..]
  {
    assert x !in s[..p] && x !in s[p..q] && x !in s[q..];
  }

  lemma WrapListKeepsOut(s: string, x: char)
    requires x !in s && x !in "<ul>" && x !in "</ul>"
    ensures x !in WrapList(s)
  {
    match FindPair(s, "<li>", "</li>")
    case None =>
    case Some((p, q)) =>
      assert q + 5 <= |s| by {
        assert At(s, "</li>", q);
      }
      SpliceKeepsOut(s, p, q + 5, "<ul>", "</ul>", x);
  }

  /** The heading rules introduce no line terminator. */
  lemma HeadingStagesKeepOut(s: string, x: char)
    requires IsLineTerminator(x) && x !in s
    ensures x !in MapLines(H3Line, MapLines(H2Line, MapLines(H1Line, s)))
  {
    forall t | NoTerminator(t) && x !in t
      ensures x !in H1Line(t) && x !in H2Line(t) && x !in H3Line(t)
    {
      HeadingRulesKeepOut(t, x);
    }
    var s1 := MapLines(H1Line, s);
    MapLinesKeepsOut(H1Line, s, x);
    var s2 := MapLines(H2Line, s1);
    MapLinesKeepsOut(H2Line, s1, x);
    MapLinesKeepsOut(H3Line, s2, x);
  }

  /** The emphasis and list rules introduce no line terminator. */
  lemma EmphasisStagesKeepOut(s: string, x: char)
    requires IsLineTerminator(x) && x !in s
    ensures x !in MapLines(ListItemLine, MapLines(EmLine, MapLines(StrongLine, s)))
  {
    forall t | NoTerminator(t) && x !in t
      ensures x !in StrongLine(t) && x !in EmLine(t) && x !in ListItemLine(t)
    {
      HeadingRulesKeepOut(t, x);
      EmphasisRulesKeepOut(t, x);
    }
    var s1 := MapLines(StrongLine, s);
    MapLinesKeepsOut(StrongLine, s, x);
    var s2 := MapLines(EmLine, s1);
    MapLinesKeepsOut(EmLine, s1, x);
    MapLinesKeepsOut(ListItemLine, s2, x);
  }

  /** The rules up to the newline rules introduce no line terminator. */
  lemma FlattenedKeepsOut(markdown: string, x: char)
    requires IsLineTerminator(x) && x !in markdown
    ensures x !in Flattened(markdown)
  {
    var headings := MapLines(H3Line, MapLines(H2Line, MapLines(H1Line, markdown)));
    HeadingStagesKeepOut(markdown, x);
    var items := MapLines(ListItemLine, MapLines(EmLine, MapLines(StrongLine, headings)));
    EmphasisStagesKeepOut(headings, x);
    assert x !in "<ul>" && x !in "</ul>";
    WrapListKeepsOut(items, x);
    BlankLinesKeepOut(WrapList(items), x);
    BreaksKeepOut(BlankLinesToParagraphs(WrapList(items)), x);
  }

  // ---- properties of markdownToHtml ---------------------------------------

  /** The rendered markup has no newline left, whatever the input. */
  lemma NoNewlineInOutput(markdown: string)
    ensures '\n' !in MarkdownToHtml(markdown)
  {
    var flat := Flattened(markdown);
    forall t | NoTerminator(t) && '\n' !in t
      ensures '\n' !in OpenParagraph(t) && '\n' !in CloseParagraph(t)
    {
      ParagraphRulesKeepOut(t, '\n');
    }
    MapLinesKeepsOut(OpenParagraph, flat, '\n');
    MapLinesKeepsOut(CloseParagraph, MapLines(OpenParagraph, flat), '\n');
  }

  /** When the input breaks lines with `\n` only, the two paragraph rules see
      a single line once the newlines are gone: `<p>` can go only at the very
      start and `</p>` only at the very end. */
  lemma ParagraphRulesActAtEnds(markdown: string)
    requires '\r' !in markdown && '\U{2028}' !in markdown && '\U{2029}' !in markdown
    ensures MarkdownToHtml(markdown) == CloseParagraph(OpenParagraph(Flattened(markdown)))
  {
    var flat := Flattened(markdown);
    FlattenedKeepsOut(markdown, '\r');
    FlattenedKeepsOut(markdown, '\U{2028}');
    FlattenedKeepsOut(markdown, '\U{2029}');
    NoTerminatorByChars(flat);
    MapLinesOfLine(OpenParagraph, flat);
    var withOpen := OpenParagraph(flat);
    ParagraphRulesKeepOut(flat, '\n');
    ParagraphRulesKeepOut(flat, '\r');
    ParagraphRulesKeepOut(flat, '\U{2028}');
    ParagraphRulesKeepOut(flat, '\U{2029}');
    NoTerminatorByChars(withOpen);
    MapLinesOfLine(CloseParagraph, withOpen);
  }

  /** A line has no terminator exactly when none of the four characters occurs in it. */
  lemma NoTerminatorByChars(s: string)
    ensures NoTerminator(s) <==>
      '\n' !in s && '\r' !in s && '\U{2028}' !in s && '\U{2029}' !in s
  {
    if !NoTerminator(s) {
      var i :| 0 <= i < |s| && IsLineTerminator(s[i]);
      assert s[i] in s;
    }
  }

  /** The heading rules keep a line a single line. */
  lemma HeadingRulesKeepLines(t: string)
    requires NoTerminator(t)
    ensures NoTerminator(H1Line(t)) && NoTerminator(H2Line(H1Line(t)))
  {
    NoTerminatorByChars(t);
    HeadingRulesKeepOut(t, '\n');
    HeadingRulesKeepOut(t, '\r');
    HeadingRulesKeepOut(t, '\U{2028}');
    HeadingRulesKeepOut(t, '\U{2029}');
    NoTerminatorByChars(H1Line(t));
    var u := H1Line(t);
    HeadingRulesKeepOut(u, '\n');
    HeadingRulesKeepOut(u, '\r');
    HeadingRulesKeepOut(u, '\U{2028}');
    HeadingRulesKeepOut(u, '\U{2029}');
    NoTerminatorByChars(H2Line(u));
  }

  /** The three heading rules on one line, in their order (static/cv_script.js:207-209). */
  function HeadingLine(line: string): string
  {
    H3Line(H2Line(H1Line(line)))
  }

  /** The three heading rules act line by line as one combined rule. */
  lemma HeadingRulesFuse(s: string)
    ensures MapLines(H3Line, MapLines(H2Line, MapLines(H1Line, s))) == MapLines(HeadingLine, s)
  {
    forall t | NoTerminator(t)
      ensures NoTerminator(H1Line(t)) && NoTerminator(H2Line(H1Line(t)))
    {
      HeadingRulesKeepLines(t);
    }
    forall t | NoTerminator(t)
      ensures NoTerminator(H2Line(t))
    {
      NoTerminatorByChars(t);
      HeadingRulesKeepOut(t, '\n');
      HeadingRulesKeepOut(t, '\r');
      HeadingRulesKeepOut(t, '\U{2028}');
      HeadingRulesKeepOut(t, '\U{2029}');
      NoTerminatorByChars(H2Line(t));
    }
    var h12 := (t: string) => H2Line(H1Line(t));
    MapLinesFusion(H1Line, H2Line, h12, s);
    MapLinesFusion(h12, H3Line, HeadingLine, s);
  }

  /** A `# ` line becomes `<h1>` before the `## ` rule runs, and the later
      heading rules leave it alone; likewise for `## ` and `### `. */
  lemma HeadingRulesOnLine(t: string)
    ensures HeadingLine("# " + t) == "<h1>" + t + "</h1>"
    ensures HeadingLine("## " + t) == "<h2>" + t + "</h2>"
    ensures HeadingLine("### " + t) == "<h3>" + t + "</h3>"
  {
    assert ("# " + t)[2..] == t;
    assert ("## " + t)[3..] == t;
    assert ("### " + t)[4..] == t;
    assert !("## " <= "<h1>" + t + "</h1>") && !("### " <= "<h1>" + t + "</h1>") by {
      assert ("<h1>" + t + "</h1>")[0] == '<';
    }
    assert !("# " <= "## " + t) by {
      assert ("## " + t)[1] == '#';
    }
    assert !("### " <= "<h2>" + t + "</h2>") by {
      assert ("<h2>" + t + "</h2>")[0] == '<';
    }
    assert !("# " <= "### " + t) && !("## " <= "### " + t) by {
      assert ("### " + t)[1] == '#' && ("### " + t)[2] == '#';
    }
  }

  lemma ListItemOnLine(t: string)
    ensures ListItemLine("- " + t) == "<li>" + t + "</li>"
  {
    assert ("- " + t)[2..] == t;
  }

  lemma ItemIsPair(x: string, t: string, y: string)
    ensures Pair(x + ListItemLine("- " + t) + y, "<li>", "</li>", |x|, |x| + 4 + |t|)
  {
    ListItemOnLine(t);
    var r := x + ListItemLine("- " + t) + y;
    assert r == x + "<li>" + t + "</li>" + y;
    assert r[|x|..|x| + 4] == "<li>";
    assert r[|x| + 4 + |t|..|x| + 4 + |t| + 5] == "</li>";
  }

  lemma MarkedLineHasNoTerminator(t: string)
    requires NoTerminator(t)
    ensures NoTerminator("- " + t)
  {
    var line := "- " + t;
    forall i | 0 <= i < |line| ensures !IsLineTerminator(line[i]) {
      if i >= 2 { assert line[i] == t[i - 2]; }
    }
  }

  /** Any line that starts `- ` gives the `<ul>` rule a span to wrap, so
      `WrapList` inserts exactly one `<ul>` … `</ul>` pair. */
  lemma ListItemOpensWrap(pre: string, t: string, post: string)
    requires pre == [] || IsLineTerminator(pre[|pre| - 1])
    requires NoTerminator(t)
    requires post == [] || IsLineTerminator(post[0])
    ensures HasPair(MapLines(ListItemLine, pre + "- " + t + post), "<li>", "</li>")
  {
    var line := "- " + t;
    MarkedLineHasNoTerminator(t);
    assert pre + "- " + t + post == pre + line + post;
    var x, y := MapLinesShowsLine(ListItemLine, pre, line, post);
    ItemIsPair(x, t, y);
    var s := MapLines(ListItemLine, pre + line + post);
    assert Pair(s, "<li>", "</li>", |x|, |x| + 4 + |t|);
  }

  /** A leftmost-greedy span is the one `Enclose` replaces. */
  lemma EncloseAt(line: string, d: string, open: string, close: string, p: int, q: int)
    requires GreedyPair(line, d, d, p, q)
    ensures Enclose(line, d, open, close) == line[..p] + open + line[p + |d|..q] + close + line[q + |d|..]
  {
    assert Pair(line, d, d, p, q);
    var r := FindPair(line, d, d);
    GreedyPairUnique(line, d, d, r.value.0, r.value.1, p, q);
  }

  /** The `**` rule is greedy: a line that starts and ends with `**` is bold
      from end to end, so `**a** and **b**` becomes one span
      `<strong>a** and **b</strong>`, not two. */
  lemma StrongIsGreedy(t: string)
    ensures StrongLine("**" + t + "**") == "<strong>" + t + "</strong>"
  {
    var line := "**" + t + "**";
    var q := |line| - 2;
    assert line[..2] == "**";
    assert line[q..q + 2] == "**";
    assert GreedyPair(line, "**", "**", 0, q);
    EncloseAt(line, "**", "<strong>", "</strong>", 0, q);
    assert line[2..q] == t;
    assert line[q + 2..] == [];
  }
}
