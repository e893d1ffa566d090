/** A worked rendering of `markdownToHtml` (static/cv_script.js:204-218): a
    heading, a paragraph with a bold and an italic span, and a two-item list,
    followed through every rule of the chain. */
module MarkdownExample {
  import opened Text
  import opened Markdown

  // ---- occurrences of two-character patterns ------------------------------

  /** No `x` in `s` is followed by `y`, and `s` does not end in `x`; this is
      kept by concatenation. */
  predicate Unpaired(s: string, x: char, y: char)
  {
    && (forall j :: 0 <= j < |s| - 1 ==> s[j] != x || s[j + 1] != y)
    && (s == [] || s[|s| - 1] != x)
  }

  lemma UnpairedConcat(u: string, v: string, x: char, y: char)
    requires Unpaired(u, x, y) && Unpaired(v, x, y)
    ensures Unpaired(u + v, x, y)
  {
    var w := u + v;
    forall j | 0 <= j < |w| - 1 ensures w[j] != x || w[j + 1] != y {
      if j < |u| - 1 {
        assert w[j] == u[j] && w[j + 1] == u[j + 1];
      } else if j == |u| - 1 {
        assert w[j] == u[j];
      } else {
        assert w[j] == v[j - |u|] && w[j + 1] == v[j + 1 - |u|];
      }
    }
    if v == [] {
      assert w == u;
    } else {
      assert w[|w| - 1] == v[|v| - 1];
    }
  }

  lemma UnpairedFree(u: string, x: char, y: char)
    requires x !in u
    ensures Unpaired(u, x, y)
  {
    forall j | 0 <= j < |u| ensures u[j] != x {
      assert u[j] in u;
    }
  }

  /** `x` followed by a text that holds no `x` and does not start with `y`. */
  lemma UnpairedLed(x: char, u: string, y: char)
    requires u != [] && x !in u && u[0] != y
    ensures Unpaired([x] + u, x, y)
  {
    var w := [x] + u;
    forall j | 1 <= j < |w| ensures w[j] != x {
      assert w[j] == u[j - 1] && u[j - 1] in u;
    }
  }

  lemma NotAtChar(s: string, pat: string, j: int)
    requires pat != [] && 0 <= j < |s| && s[j] != pat[0]
    ensures !At(s, pat, j)
  {
    if j + |pat| <= |s| {
      assert s[j..j + |pat|][0] == s[j];
    }
  }

  lemma NotAtBigram(s: string, pat: string, j: int)
    requires |pat| >= 2 && 0 <= j
    requires j + 1 < |s| ==> s[j] != pat[0] || s[j + 1] != pat[1]
    ensures !At(s, pat, j)
  {
    if j + |pat| <= |s| {
      assert s[j..j + |pat|][0] == s[j];
      assert s[j..j + |pat|][1] == s[j + 1];
    }
  }

  /** A pattern whose first two characters never meet in `s[k..]` does not
      occur from `k` on. */
  lemma UnpairedSuffixNoAt(s: string, k: nat, pat: string)
    requires |pat| >= 2 && k <= |s| && Unpaired(s[k..], pat[0], pat[1])
    ensures forall j :: k <= j ==> !At(s, pat, j)
  {
    forall j | k <= j ensures !At(s, pat, j) {
      if j + 1 < |s| {
        assert s[j] == s[k..][j - k] && s[j + 1] == s[k..][j + 1 - k];
      }
      NotAtBigram(s, pat, j);
    }
  }

  /** ... nor before `k`. */
  lemma UnpairedPrefixNoAt(s: string, k: nat, pat: string)
    requires |pat| >= 2 && k <= |s| && Unpaired(s[..k], pat[0], pat[1])
    ensures forall j :: 0 <= j < k ==> !At(s, pat, j)
  {
    forall j | 0 <= j < k ensures !At(s, pat, j) {
      assert s[j] == s[..k][j];
      if j + 1 < k {
        assert s[j + 1] == s[..k][j + 1];
      }
      NotAtBigram(s, pat, j);
    }
  }

  // ---- the rules on one line ----------------------------------------------

  /** A greedy span framed by `d` at both ends of `mid` is the one `Enclose`
      replaces. */
  lemma EncloseFramed(pre: string, d: string, mid: string, post: string, open: string, close: string)
    requires d != []
    requires forall j :: 0 <= j < |pre| ==> !At(pre + d + mid + d + post, d, j)
    requires forall j :: |pre| + |d| + |mid| < j ==> !At(pre + d + mid + d + post, d, j)
    ensures Enclose(pre + d + mid + d + post, d, open, close) == pre + open + mid + close + post
  {
    var line := pre + d + mid + d + post;
    var p, q := |pre|, |pre| + |d| + |mid|;
    assert line[..p] == pre;
    assert line[p..p + |d|] == d;
    assert line[p + |d|..q] == mid;
    assert line[q..q + |d|] == d;
    assert line[q + |d|..] == post;
    assert GreedyPair(line, d, d, p, q);
    EncloseAt(line, d, open, close, p, q);
  }

  /** A line without `*` is left alone by both emphasis rules. */
  lemma StarlessLine(t: string)
    requires '*' !in t
    ensures StrongLine(t) == t && EmLine(t) == t
  {
    forall p, q ensures !Pair(t, "**", "**", p, q) && !Pair(t, "*", "*", p, q) {
      if 0 <= p < |t| {
        assert t[p] in t;
        NotAtChar(t, "**", p);
        NotAtChar(t, "*", p);
      }
    }
  }

  /** The rules of the chain up to the `**` rule, then up to the `*` rule,
      then up to the list rule, on one line. */
  function UpToStrong(line: string): string { StrongLine(HeadingLine(line)) }
  function UpToEm(line: string): string { EmLine(UpToStrong(line)) }
  function LineRules(line: string): string { ListItemLine(UpToEm(line)) }

  lemma RulesKeepLine(t: string)
    requires NoTerminator(t)
    ensures NoTerminator(H1Line(t)) && NoTerminator(H2Line(t)) && NoTerminator(H3Line(t))
    ensures NoTerminator(StrongLine(t)) && NoTerminator(EmLine(t))
  {
    NoTerminatorByChars(t);
    HeadingRulesKeepOut(t, '\n');
    HeadingRulesKeepOut(t, '\r');
    HeadingRulesKeepOut(t, '\U{2028}');
    HeadingRulesKeepOut(t, '\U{2029}');
    EmphasisRulesKeepOut(t, '\n');
    EmphasisRulesKeepOut(t, '\r');
    EmphasisRulesKeepOut(t, '\U{2028}');
    EmphasisRulesKeepOut(t, '\U{2029}');
    NoTerminatorByChars(H1Line(t));
    NoTerminatorByChars(H2Line(t));
    NoTerminatorByChars(H3Line(t));
    NoTerminatorByChars(StrongLine(t));
    NoTerminatorByChars(EmLine(t));
  }

  lemma StagesKeepLine(t: string)
    requires NoTerminator(t)
    ensures NoTerminator(HeadingLine(t)) && NoTerminator(UpToStrong(t)) && NoTerminator(UpToEm(t))
  {
    RulesKeepLine(t);
    RulesKeepLine(H1Line(t));
    RulesKeepLine(H2Line(H1Line(t)));
    RulesKeepLine(HeadingLine(t));
    RulesKeepLine(UpToStrong(t));
  }

  /** The six line-wise rules act as one rule per line. */
  lemma LineRulesFuse(s: string)
    ensures MapLines(ListItemLine, MapLines(EmLine, MapLines(StrongLine,
              MapLines(H3Line, MapLines(H2Line, MapLines(H1Line, s))))))
            == MapLines(LineRules, s)
  {
    forall t | NoTerminator(t)
      ensures NoTerminator(HeadingLine(t)) && NoTerminator(UpToStrong(t)) && NoTerminator(UpToEm(t))
    {
      StagesKeepLine(t);
    }
    HeadingRulesFuse(s);
    MapLinesFusion(HeadingLine, StrongLine, UpToStrong, s);
    MapLinesFusion(UpToStrong, EmLine, UpToEm, s);
    MapLinesFusion(UpToEm, ListItemLine, LineRules, s);
  }

  /** Text that no rule of the chain treats specially. */
  predicate Plain(s: string)
  {
    NoTerminator(s) && '*' !in s && '<' !in s
  }

  lemma HeadingLineRules(title: string)
    requires Plain(title)
    ensures LineRules("# " + title) == "<h1>" + title + "</h1>"
  {
    HeadingRulesOnLine(title);
    var h := "<h1>" + title + "</h1>";
    assert '*' !in h;
    StarlessLine(h);
    assert h[0] == '<';
  }

  lemma EmptyLineRules()
    ensures LineRules("") == ""
  {
    StarlessLine("");
  }

  lemma ItemLineRules(t: string)
    requires Plain(t)
    ensures LineRules("- " + t) == "<li>" + t + "</li>"
  {
    var line := "- " + t;
    assert line[0] == '-';
    assert HeadingLine(line) == line;
    assert '*' !in line;
    StarlessLine(line);
    ListItemOnLine(t);
  }

  /** `a**b**R`, where no `**` starts in `*R`: one `<strong>` around `b`. */
  lemma StrongOnLine(a: string, b: string, rest: string)
    requires '*' !in a
    requires forall j :: 0 <= j < |rest| ==> !At("*" + rest, "**", j)
    ensures StrongLine(a + "**" + b + "**" + rest) == a + "<strong>" + b + "</strong>" + rest
  {
    var line := a + "**" + b + "**" + rest;
    forall j | 0 <= j < |a| ensures !At(line, "**", j) {
      assert line[j] == a[j] && a[j] in a;
      NotAtChar(line, "**", j);
    }
    var k := |a| + 2 + |b| + 1;
    var tail := "*" + rest;
    assert line[k..] == tail;
    forall j | k <= j ensures !At(line, "**", j) {
      if j - k < |rest| {
        assert line[j..j + 2] == tail[j - k..j - k + 2];
        assert !At(tail, "**", j - k);
      }
    }
    EncloseFramed(a, "**", b, rest, "<strong>", "</strong>");
  }

  /** In `*c*d*e`, with `c`, `d` and `e` non-empty and free of `*`, no `**`
      starts. */
  lemma SingleStars(c: string, d: string, e: string)
    requires c != [] && d != [] && e != []
    requires '*' !in c && '*' !in d && '*' !in e
    ensures forall j :: 0 <= j < |c + "*" + d + "*" + e| ==> !At("*" + (c + "*" + d + "*" + e), "**", j)
  {
    UnpairedLed('*', c, '*');
    UnpairedLed('*', d, '*');
    UnpairedLed('*', e, '*');
    UnpairedConcat("*" + c, "*" + d, '*', '*');
    UnpairedConcat("*" + c + "*" + d, "*" + e, '*', '*');
    var s := "*" + (c + "*" + d + "*" + e);
    assert s == "*" + c + "*" + d + "*" + e;
    assert s[0..] == s;
    UnpairedSuffixNoAt(s, 0, "**");
  }

  /** `S*d*e` with no `*` in `S` or `e`: one `<em>` around `d`. */
  lemma EmOnLine(strong: string, d: string, e: string)
    requires '*' !in strong && '*' !in e
    ensures EmLine(strong + "*" + d + "*" + e) == strong + "<em>" + d + "</em>" + e
  {
    var line := strong + "*" + d + "*" + e;
    forall j | 0 <= j < |strong| ensures !At(line, "*", j) {
      assert line[j] == strong[j] && strong[j] in strong;
      NotAtChar(line, "*", j);
    }
    forall j | |strong| + 1 + |d| < j < |line| ensures !At(line, "*", j) {
      var i := j - |strong| - 2 - |d|;
      assert line[j] == e[i] && e[i] in e;
      NotAtChar(line, "*", j);
    }
    EncloseFramed(strong, "*", d, e, "<em>", "</em>");
  }

  /** A line that starts with neither `#` nor `-` is no heading and no item. */
  lemma Unmarked(line: string)
    requires line != [] && line[0] != '#' && line[0] != '-'
    ensures HeadingLine(line) == line && ListItemLine(line) == line
  {
  }

  lemma Regroup5(a: string, b: string, c: string, d: string, e: string)
    ensures a + "<strong>" + b + "</strong>" + (c + "*" + d + "*" + e)
            == (a + "<strong>" + b + "</strong>" + c) + "*" + d + "*" + e
  {
  }

  /** `a**b**c*d*e` gets one `<strong>` around `b` and one `<em>` around `d`. */
  lemma EmphasisLineRules(a: string, b: string, c: string, d: string, e: string)
    requires Plain(a) && Plain(b) && Plain(c) && Plain(d) && Plain(e)
    requires a != [] && a[0] != '#' && a[0] != '-'
    requires c != [] && d != [] && e != []
    ensures LineRules(a + "**" + b + "**" + (c + "*" + d + "*" + e))
            == (a + "<strong>" + b + "</strong>" + c) + "<em>" + d + "</em>" + e
  {
    var rest := c + "*" + d + "*" + e;
    var line := a + "**" + b + "**" + rest;
    var strong := a + "<strong>" + b + "</strong>" + c;
    var em := strong + "<em>" + d + "</em>" + e;
    assert line[0] == a[0];
    Unmarked(line);
    SingleStars(c, d, e);
    StrongOnLine(a, b, rest);
    Regroup5(a, b, c, d, e);
    assert StrongLine(HeadingLine(line)) == strong + "*" + d + "*" + e;
    assert '*' !in strong;
    EmOnLine(strong, d, e);
    assert UpToEm(line) == em;
    assert em[0] == a[0];
    Unmarked(em);
  }

  // ---- the whole-string rules ---------------------------------------------

  /** A leftmost-greedy `<li>` … `</li>` span is the one the `<ul>` rule wraps. */
  lemma WrapListAt(s: string, p: int, q: int)
    requires GreedyPair(s, "<li>", "</li>", p, q)
    ensures WrapList(s) == s[..p] + "<ul>" + s[p..q + 5] + "</ul>" + s[q + 5..]
  {
    assert Pair(s, "<li>", "</li>", p, q);
    var r := FindPair(s, "<li>", "</li>");
    assert r.Some?;
    GreedyPairUnique(s, "<li>", "</li>", r.value.0, r.value.1, p, q);
  }

  /** A character other than `\n` passes through both newline rules. */
  lemma NewlineRulesCons(ch: char, t: string)
    requires ch != '\n'
    ensures BlankLinesToParagraphs([ch] + t) == [ch] + BlankLinesToParagraphs(t)
    ensures NewlinesToBreaks([ch] + t) == [ch] + NewlinesToBreaks(t)
  {
    assert ([ch] + t)[1..] == t;
  }

  lemma {:induction false} BlankLinesAfterLine(u: string, v: string)
    requires '\n' !in u
    ensures BlankLinesToParagraphs(u + v) == u + BlankLinesToParagraphs(v)
    decreases |u|
  {
    if u == [] {
      assert u + v == v;
    } else {
      var ch, u' := u[0], u[1..];
      assert u == [ch] + u';
      assert ch in u;
      assert '\n' !in u' by {
        forall i | 0 <= i < |u'| ensures u'[i] != '\n' { assert u'[i] == u[i + 1] && u[i + 1] in u; }
      }
      BlankLinesAfterLine(u', v);
      NewlineRulesCons(ch, u' + v);
      ConsRegroup(ch, u', v);
      ConsRegroup(ch, u', BlankLinesToParagraphs(v));
    }
  }

  lemma SingleNewlineAt(v: string)
    requires v == [] || v[0] != '\n'
    ensures BlankLinesToParagraphs("\n" + v) == "\n" + BlankLinesToParagraphs(v)
  {
    assert ("\n" + v)[1..] == v;
  }

  lemma NewlineAt(v: string)
    ensures NewlinesToBreaks("\n" + v) == "<br>" + NewlinesToBreaks(v)
  {
    assert ("\n" + v)[1..] == v;
  }

  lemma {:induction false} BreaksAfterLine(u: string, v: string)
    requires '\n' !in u
    ensures NewlinesToBreaks(u + v) == u + NewlinesToBreaks(v)
    decreases |u|
  {
    if u == [] {
      assert u + v == v;
    } else {
      var ch, u' := u[0], u[1..];
      assert u == [ch] + u';
      assert ch in u;
      assert '\n' !in u' by {
        forall i | 0 <= i < |u'| ensures u'[i] != '\n' { assert u'[i] == u[i + 1] && u[i + 1] in u; }
      }
      BreaksAfterLine(u', v);
      NewlineRulesCons(ch, u' + v);
      ConsRegroup(ch, u', v);
      ConsRegroup(ch, u', NewlinesToBreaks(v));
    }
  }

  /** `[c] + u + v` regrouped. */
  lemma ConsRegroup(c: char, u: string, v: string)
    ensures [c] + u + v == [c] + (u + v)
  {
  }

  // ---- the example, stage by stage ----------------------------------------

  /** One line and a newline before the rest, grouped to the right. */
  lemma LineStep(f: string -> string, a: string, b: string)
    requires NoTerminator(a)
    ensures MapLines(f, a + ("\n" + b)) == f(a) + ("\n" + MapLines(f, b))
  {
    MapLinesCons(f, a, '\n', b);
    assert a + ['\n'] + b == a + ("\n" + b);
  }

  lemma EmptyLineStep(f: string -> string, b: string)
    ensures MapLines(f, "\n" + b) == f([]) + ("\n" + MapLines(f, b))
  {
    assert NoTerminator([]);
    MapLinesCons(f, [], '\n', b);
    assert [] + ['\n'] + b == "\n" + b;
  }

  /** Five lines, the second one empty, through a line-wise rule. */
  lemma FiveLines(f: string -> string, h: string, p: string, l1: string, l2: string)
    requires NoTerminator(h) && NoTerminator(p) && NoTerminator(l1) && NoTerminator(l2)
    ensures MapLines(f, h + ("\n" + ("\n" + (p + ("\n" + (l1 + ("\n" + l2)))))))
            == f(h) + ("\n" + (f([]) + ("\n" + (f(p) + ("\n" + (f(l1) + ("\n" + f(l2))))))))
  {
    var r1 := l1 + ("\n" + l2);
    var r2 := p + ("\n" + r1);
    var r3 := "\n" + r2;
    MapLinesOfLine(f, l2);
    LineStep(f, l1, l2);
    LineStep(f, p, r1);
    EmptyLineStep(f, r2);
    LineStep(f, h, r3);
  }

  /** The text before the first item: no `<l` in it, and it does not end in `<`. */
  lemma FrontUnpaired(h: string, p: string)
    requires Unpaired(h, '<', 'l') && Unpaired(p, '<', 'l')
    ensures Unpaired(h + "\n" + "\n" + p + "\n", '<', 'l')
  {
    UnpairedFree("\n", '<', 'l');
    UnpairedConcat(h, "\n", '<', 'l');
    UnpairedConcat(h + "\n", "\n", '<', 'l');
    UnpairedConcat(h + "\n" + "\n", p, '<', 'l');
    UnpairedConcat(h + "\n" + "\n" + p, "\n", '<', 'l');
  }

  lemma FrontRegroup(h: string, p: string, list: string)
    ensures h + ("\n" + ("\n" + (p + ("\n" + list)))) == (h + "\n" + "\n" + p + "\n") + list
  {
  }

  /** With no `<l` before it, the span from the first `<li>` to a closing
      `</li>` at the very end is the one the `<ul>` wrap takes. */
  lemma WrapFramed(x: string, mid: string)
    requires Unpaired(x, '<', 'l')
    ensures WrapList(x + ("<li>" + mid + "</li>")) == x + ("<ul>" + ("<li>" + mid + "</li>") + "</ul>")
  {
    var body := "<li>" + mid + "</li>";
    var s := x + body;
    var p, q := |x|, |s| - 5;
    ListGreedy(x, body, mid);
    WrapListAt(s, p, q);
    SplitAround(x, body, p, q + 5);
    WrapRegroup(x, "<ul>", body, "</ul>");
  }

  /** The three slices of `x + body` at `|x|` and at its end. */
  lemma SplitAround(x: string, body: string, p: int, e: int)
    requires p == |x| && e == |x + body|
    ensures (x + body)[..p] == x && (x + body)[p..e] == body && (x + body)[e..] == []
  {
  }

  lemma WrapRegroup(x: string, o: string, b: string, c: string)
    ensures x + o + b + c + [] == x + (o + b + c)
  {
  }

  /** The greedy `<li> … </li>` span of `x + body`. */
  lemma ListGreedy(x: string, body: string, mid: string)
    requires Unpaired(x, '<', 'l') && body == "<li>" + mid + "</li>"
    ensures GreedyPair(x + body, "<li>", "</li>", |x|, |x + body| - 5)
  {
    var s := x + body;
    var p, q := |x|, |s| - 5;
    assert s[..p] == x;
    UnpairedPrefixNoAt(s, p, "<li>");
    assert s[p..p + 4] == body[..4] == "<li>";
    assert s[q..q + 5] == body[|body| - 5..] == "</li>";
  }

  /** Two items joined by a newline, seen as one span from the first opening
      tag to the last closing one. */
  lemma ItemsRegroup(o: string, i1: string, c: string, i2: string)
    ensures (o + i1 + c) + ("\n" + (o + i2 + c)) == o + (i1 + c + "\n" + o + i2) + c
  {
  }

  /** With no `<l` in the heading or the paragraph, the `<ul>` wrap runs from
      the first item to the end of the last one. */
  lemma WrapStage(h: string, p: string, i1: string, i2: string)
    requires Unpaired(h, '<', 'l') && Unpaired(p, '<', 'l')
    ensures var l1, l2 := "<li>" + i1 + "</li>", "<li>" + i2 + "</li>";
      WrapList(h + ("\n" + ("\n" + (p + ("\n" + (l1 + ("\n" + l2)))))))
      == h + ("\n" + ("\n" + (p + ("\n" + ("<ul>" + (l1 + ("\n" + (l2 + "</ul>"))))))))
  {
    var l1, l2 := "<li>" + i1 + "</li>", "<li>" + i2 + "</li>";
    var list := l1 + ("\n" + l2);
    var mid := i1 + "</li>" + "\n" + "<li>" + i2;
    var x := h + "\n" + "\n" + p + "\n";
    FrontUnpaired(h, p);
    FrontRegroup(h, p, list);
    ItemsRegroup("<li>", i1, "</li>", i2);
    WrapFramed(x, mid);
    ListClosed(l1, l2, "<ul>", "</ul>");
    FrontRegroup(h, p, "<ul>" + (l1 + ("\n" + (l2 + "</ul>"))));
  }

  lemma ListClosed(l1: string, l2: string, o: string, c: string)
    ensures o + (l1 + ("\n" + l2)) + c == o + (l1 + ("\n" + (l2 + c)))
  {
  }

  lemma BlankLinePair(v: string)
    ensures BlankLinesToParagraphs("\n" + ("\n" + v)) == "</p><p>" + BlankLinesToParagraphs(v)
  {
    assert ("\n" + ("\n" + v))[2..] == v;
  }

  /** The blank line becomes `</p><p>`; the other newlines stay. */
  lemma BlankStage(h: string, p: string, l1: string, l2: string)
    requires '\n' !in h && '\n' !in p && '\n' !in l1 && '\n' !in l2
    ensures BlankLinesToParagraphs(
              h + ("\n" + ("\n" + (p + ("\n" + ("<ul>" + (l1 + ("\n" + (l2 + "</ul>")))))))))
            == h + ("</p><p>" + (p + ("\n" + ("<ul>" + (l1 + ("\n" + (l2 + "</ul>")))))))
  {
    MarkupFree();
    BlanksAround(h, p, "<ul>", l1, l2, "</ul>");
  }

  /** A newline-free head, a blank line, and newline-free pieces around two
      single newlines. */
  lemma BlanksAround(h: string, p: string, o: string, l1: string, l2: string, c: string)
    requires '\n' !in h && '\n' !in p && '\n' !in o && '\n' !in l1 && '\n' !in l2 && '\n' !in c
    requires o != [] && c != []
    ensures BlankLinesToParagraphs(h + ("\n" + ("\n" + (p + ("\n" + (o + (l1 + ("\n" + (l2 + c)))))))))
            == h + ("</p><p>" + (p + ("\n" + (o + (l1 + ("\n" + (l2 + c)))))))
  {
    var t := l2 + c;
    NoNewlineJoin(l2, c);
    LeadFree(l2, c);
    var w := o + (l1 + ("\n" + t));
    LeadFree(o, l1 + ("\n" + t));
    BlankPairBefore(h, p + ("\n" + w));
    BlankSingleBefore(p, w);
    BlankLinesAfterLine(o, l1 + ("\n" + t));
    BlankSingleBefore(l1, t);
  }

  /** A non-empty text whose first character is not a newline, then the rest. */
  lemma LeadFree(u: string, v: string)
    requires u != [] || v != []
    requires '\n' !in u && (u == [] ==> v[0] != '\n')
    ensures (u + v)[0] != '\n'
  {
    if u != [] {
      assert (u + v)[0] == u[0] && u[0] in u;
    } else {
      assert u + v == v;
    }
  }

  lemma BlankPairBefore(h: string, v: string)
    requires '\n' !in h
    ensures BlankLinesToParagraphs(h + ("\n" + ("\n" + v))) == h + ("</p><p>" + BlankLinesToParagraphs(v))
  {
    BlankLinePair(v);
    BlankLinesAfterLine(h, "\n" + ("\n" + v));
  }

  lemma BlankSingleBefore(p: string, w: string)
    requires '\n' !in p && (w == [] || w[0] != '\n')
    ensures BlankLinesToParagraphs(p + ("\n" + w)) == p + ("\n" + BlankLinesToParagraphs(w))
  {
    SingleNewlineAt(w);
    BlankLinesAfterLine(p, "\n" + w);
  }

  /** The remaining newlines become `<br>`. */
  lemma BreakStage(h: string, p: string, l1: string, l2: string)
    requires '\n' !in h && '\n' !in p && '\n' !in l1 && '\n' !in l2
    ensures NewlinesToBreaks(h + ("</p><p>" + (p + ("\n" + ("<ul>" + (l1 + ("\n" + (l2 + "</ul>"))))))))
            == h + ("</p><p>" + (p + ("<br>" + ("<ul>" + (l1 + ("<br>" + (l2 + "</ul>")))))))
  {
    MarkupFree();
    BreaksAround(h, "</p><p>", p, "<ul>", l1, l2, "</ul>");
  }

  lemma MarkupFree()
    ensures '\n' !in "</p><p>" && '\n' !in "<ul>" && '\n' !in "</ul>"
  {
  }

  lemma NoNewlineJoin(u: string, v: string)
    requires '\n' !in u && '\n' !in v
    ensures '\n' !in u + v
  {
  }

  /** Newline-free pieces around two single newlines. */
  lemma BreaksAround(h: string, m: string, p: string, o: string, l1: string, l2: string, c: string)
    requires '\n' !in h && '\n' !in m && '\n' !in p && '\n' !in o
    requires '\n' !in l1 && '\n' !in l2 && '\n' !in c
    ensures NewlinesToBreaks(h + (m + (p + ("\n" + (o + (l1 + ("\n" + (l2 + c))))))))
            == h + (m + (p + ("<br>" + (o + (l1 + ("<br>" + (l2 + c)))))))
  {
    BreaksBefore(h, m, p, o + (l1 + ("\n" + (l2 + c))));
    BreaksBeforeTwo(o, l1, l2 + c);
    NoNewlineJoin(l2, c);
  }

  /** Two newline-free pieces, a newline, and the rest. */
  lemma BreaksBeforeTwo(o: string, l: string, w: string)
    requires '\n' !in o && '\n' !in l
    ensures NewlinesToBreaks(o + (l + ("\n" + w))) == o + (l + ("<br>" + NewlinesToBreaks(w)))
  {
    NewlineAt(w);
    BreaksAfterLine(l, "\n" + w);
    BreaksAfterLine(o, l + ("\n" + w));
  }

  /** Three newline-free pieces, a newline, and the rest. */
  lemma BreaksBefore(h: string, m: string, p: string, v: string)
    requires '\n' !in h && '\n' !in m && '\n' !in p
    ensures NewlinesToBreaks(h + (m + (p + ("\n" + v)))) == h + (m + (p + ("<br>" + NewlinesToBreaks(v))))
  {
    var t4 := "\n" + v;
    NewlineAt(v);
    var t5 := p + t4;
    BreaksAfterLine(p, t4);
    var t6 := m + t5;
    BreaksAfterLine(m, t5);
    BreaksAfterLine(h, t6);
  }

  // ---- the whole chain ----------------------------------------------------

  /** The five lines through the line-wise rules, one line at a time. */
  lemma LinesStage(hd: string, par: string, it1: string, it2: string)
    requires NoTerminator(hd) && NoTerminator(par) && NoTerminator(it1) && NoTerminator(it2)
    ensures var m := hd + ("\n" + ("\n" + (par + ("\n" + (it1 + ("\n" + it2))))));
      MapLines(ListItemLine, MapLines(EmLine, MapLines(StrongLine,
        MapLines(H3Line, MapLines(H2Line, MapLines(H1Line, m))))))
      == LineRules(hd) + ("\n" + ("\n" + (LineRules(par) + ("\n" + (LineRules(it1) + ("\n" + LineRules(it2)))))))
  {
    var m := hd + ("\n" + ("\n" + (par + ("\n" + (it1 + ("\n" + it2))))));
    LineRulesFuse(m);
    FiveLines(LineRules, hd, par, it1, it2);
    EmptyLineRules();
    var rest := "\n" + (LineRules(par) + ("\n" + (LineRules(it1) + ("\n" + LineRules(it2)))));
    assert LineRules([]) + rest == rest;
  }

  lemma NoTerminatorJoin(u: string, v: string)
    requires NoTerminator(u) && NoTerminator(v)
    ensures NoTerminator(u + v)
  {
    NoTerminatorByChars(u);
    NoTerminatorByChars(v);
    NoTerminatorByChars(u + v);
  }

  lemma MarkersOneLine()
    ensures NoTerminator("# ") && NoTerminator("- ") && NoTerminator("**") && NoTerminator("*")
  {
    NoTerminatorByChars("# ");
    NoTerminatorByChars("- ");
    NoTerminatorByChars("**");
    NoTerminatorByChars("*");
  }

  /** The paragraph line of the sample is a single line. */
  lemma EmphasisOneLine(a: string, b: string, c: string, d: string, e: string)
    requires NoTerminator(a) && NoTerminator(b) && NoTerminator(c) && NoTerminator(d) && NoTerminator(e)
    ensures NoTerminator(a + "**" + b + "**" + (c + "*" + d + "*" + e))
  {
    MarkersOneLine();
    NoTerminatorJoin(c, "*");
    NoTerminatorJoin(c + "*", d);
    NoTerminatorJoin(c + "*" + d, "*");
    NoTerminatorJoin(c + "*" + d + "*", e);
    NoTerminatorJoin(a, "**");
    NoTerminatorJoin(a + "**", b);
    NoTerminatorJoin(a + "**" + b, "**");
    NoTerminatorJoin(a + "**" + b + "**", c + "*" + d + "*" + e);
  }

  /** Lines joined by `\n` hold no other line terminator. */
  lemma LinesHoldOnlyNewlines(hd: string, par: string, it1: string, it2: string)
    requires NoTerminator(hd) && NoTerminator(par) && NoTerminator(it1) && NoTerminator(it2)
    ensures var m := hd + ("\n" + ("\n" + (par + ("\n" + (it1 + ("\n" + it2))))));
      '\r' !in m && '\U{2028}' !in m && '\U{2029}' !in m
  {
    NoTerminatorByChars(hd);
    NoTerminatorByChars(par);
    NoTerminatorByChars(it1);
    NoTerminatorByChars(it2);
  }

  /** The tags the rules put in: no `<l` and no `\n`. */
  lemma TagsFree()
    ensures Unpaired("<h1>", '<', 'l') && Unpaired("</h1>", '<', 'l')
    ensures Unpaired("<strong>", '<', 'l') && Unpaired("</strong>", '<', 'l')
    ensures Unpaired("<em>", '<', 'l') && Unpaired("</em>", '<', 'l')
    ensures '\n' !in "<h1>" && '\n' !in "</h1>" && '\n' !in "<li>" && '\n' !in "</li>"
    ensures '\n' !in "<strong>" && '\n' !in "</strong>" && '\n' !in "<em>" && '\n' !in "</em>"
  {
  }

  lemma PlainFree(s: string)
    requires Plain(s)
    ensures Unpaired(s, '<', 'l') && '\n' !in s
  {
    UnpairedFree(s, '<', 'l');
    NoTerminatorByChars(s);
  }

  /** The rendered paragraph line has no `<l` and no `\n`. */
  lemma EmphasisFree(a: string, b: string, c: string, d: string, e: string)
    requires Plain(a) && Plain(b) && Plain(c) && Plain(d) && Plain(e)
    ensures var pe := (a + "<strong>" + b + "</strong>" + c) + "<em>" + d + "</em>" + e;
      Unpaired(pe, '<', 'l') && '\n' !in pe
  {
    TagsFree();
    PlainFree(a);
    PlainFree(b);
    PlainFree(c);
    PlainFree(d);
    PlainFree(e);
    FreeJoin(a, "<strong>");
    FreeJoin(a + "<strong>", b);
    FreeJoin(a + "<strong>" + b, "</strong>");
    FreeJoin(a + "<strong>" + b + "</strong>", c);
    var s := a + "<strong>" + b + "</strong>" + c;
    FreeJoin(s, "<em>");
    FreeJoin(s + "<em>", d);
    FreeJoin(s + "<em>" + d, "</em>");
    FreeJoin(s + "<em>" + d + "</em>", e);
  }

  lemma FreeJoin(u: string, v: string)
    requires Unpaired(u, '<', 'l') && Unpaired(v, '<', 'l') && '\n' !in u && '\n' !in v
    ensures Unpaired(u + v, '<', 'l') && '\n' !in u + v
  {
    UnpairedConcat(u, v, '<', 'l');
  }

  /** A text that starts with `<h` and ends with `>` is left alone by both
      paragraph rules. */
  lemma ParagraphStage(s: string, head: string, rest: string, front: string)
    requires s == head + rest && |head| >= 2 && head[0] == '<' && head[1] == 'h'
    requires s == front + "</ul>"
    ensures CloseParagraph(OpenParagraph(s)) == s
  {
    assert s[0] == head[0] && s[1] == head[1];
    assert s[|s| - 1] == "</ul>"[4];
  }

  lemma EndRegroup(h: string, m: string, p: string, o: string, l1: string, br: string, l2: string, c: string)
    ensures h + (m + (p + (br + (o + (l1 + (br + (l2 + c)))))))
            == (h + m + p + br + o + l1 + br + l2) + c
  {
  }

  /** The text before the paragraph rules: the heading, `</p><p>` for the
      blank line, the paragraph, `<br>` for each remaining newline, and the
      items inside one `<ul>`. */
  lemma FlattenedShape(title: string, a: string, b: string, c: string, d: string, e: string, i1: string, i2: string)
    requires Plain(title) && Plain(a) && Plain(b) && Plain(c) && Plain(d) && Plain(e) && Plain(i1) && Plain(i2)
    requires a != [] && a[0] != '#' && a[0] != '-'
    requires c != [] && d != [] && e != []
    ensures var par := a + "**" + b + "**" + (c + "*" + d + "*" + e);
      var pe := (a + "<strong>" + b + "</strong>" + c) + "<em>" + d + "</em>" + e;
      var h1, l1, l2 := "<h1>" + title + "</h1>", "<li>" + i1 + "</li>", "<li>" + i2 + "</li>";
      Flattened(("# " + title) + ("\n" + ("\n" + (par + ("\n" + (("- " + i1) + ("\n" + ("- " + i2))))))))
      == h1 + ("</p><p>" + (pe + ("<br>" + ("<ul>" + (l1 + ("<br>" + (l2 + "</ul>")))))))
  {
    var par := a + "**" + b + "**" + (c + "*" + d + "*" + e);
    var pe := (a + "<strong>" + b + "</strong>" + c) + "<em>" + d + "</em>" + e;
    var h1, l1, l2 := "<h1>" + title + "</h1>", "<li>" + i1 + "</li>", "<li>" + i2 + "</li>";
    MarkersOneLine();
    NoTerminatorJoin("# ", title);
    NoTerminatorJoin("- ", i1);
    NoTerminatorJoin("- ", i2);
    EmphasisOneLine(a, b, c, d, e);
    LinesStage("# " + title, par, "- " + i1, "- " + i2);
    HeadingLineRules(title);
    EmphasisLineRules(a, b, c, d, e);
    ItemLineRules(i1);
    ItemLineRules(i2);
    TagsFree();
    PlainFree(title);
    PlainFree(i1);
    PlainFree(i2);
    FreeJoin("<h1>", title);
    FreeJoin("<h1>" + title, "</h1>");
    EmphasisFree(a, b, c, d, e);
    WrapStage(h1, pe, i1, i2);
    ListItemFree(i1);
    ListItemFree(i2);
    BlankStage(h1, pe, l1, l2);
    BreakStage(h1, pe, l1, l2);
  }

  lemma ListItemFree(t: string)
    requires '\n' !in t
    ensures '\n' !in "<li>" + t + "</li>"
  {
    TagsFree();
    NoNewlineJoin("<li>", t);
    NoNewlineJoin("<li>" + t, "</li>");
  }

  /** `markdownToHtml` of a heading, a blank line, a paragraph with a bold
      and an italic span, and two list items: the paragraph rules add
      nothing, since the text starts with `<h` and ends with `>`. */
  lemma RenderShape(title: string, a: string, b: string, c: string, d: string, e: string, i1: string, i2: string)
    requires Plain(title) && Plain(a) && Plain(b) && Plain(c) && Plain(d) && Plain(e) && Plain(i1) && Plain(i2)
    requires a != [] && a[0] != '#' && a[0] != '-'
    requires c != [] && d != [] && e != []
    ensures var par := a + "**" + b + "**" + (c + "*" + d + "*" + e);
      var pe := (a + "<strong>" + b + "</strong>" + c) + "<em>" + d + "</em>" + e;
      var h1, l1, l2 := "<h1>" + title + "</h1>", "<li>" + i1 + "</li>", "<li>" + i2 + "</li>";
      MarkdownToHtml(("# " + title) + ("\n" + ("\n" + (par + ("\n" + (("- " + i1) + ("\n" + ("- " + i2))))))))
      == h1 + ("</p><p>" + (pe + ("<br>" + ("<ul>" + (l1 + ("<br>" + (l2 + "</ul>")))))))
  {
    var par := a + "**" + b + "**" + (c + "*" + d + "*" + e);
    var pe := (a + "<strong>" + b + "</strong>" + c) + "<em>" + d + "</em>" + e;
    var h1, l1, l2 := "<h1>" + title + "</h1>", "<li>" + i1 + "</li>", "<li>" + i2 + "</li>";
    var m := ("# " + title) + ("\n" + ("\n" + (par + ("\n" + (("- " + i1) + ("\n" + ("- " + i2)))))));
    FlattenedShape(title, a, b, c, d, e, i1, i2);
    SampleOnlyNewlines(title, a, b, c, d, e, i1, i2);
    ParagraphRulesActAtEnds(m);
    HeadingFirst(title, pe, l1, l2);
  }

  /** Markup that opens with the heading and closes with `</ul>` gets no
      paragraph tags. */
  lemma HeadingFirst(title: string, pe: string, l1: string, l2: string)
    ensures var h1 := "<h1>" + title + "</h1>";
      var s := h1 + ("</p><p>" + (pe + ("<br>" + ("<ul>" + (l1 + ("<br>" + (l2 + "</ul>")))))));
      CloseParagraph(OpenParagraph(s)) == s
  {
    var h1 := "<h1>" + title + "</h1>";
    var rest := "</p><p>" + (pe + ("<br>" + ("<ul>" + (l1 + ("<br>" + (l2 + "</ul>"))))));
    EndRegroup(h1, "</p><p>", pe, "<ul>", l1, "<br>", l2, "</ul>");
    assert h1[0] == '<' && h1[1] == 'h';
    ParagraphStage(h1 + rest, h1, rest, h1 + "</p><p>" + pe + "<br>" + "<ul>" + l1 + "<br>" + l2);
  }

  /** The sample text breaks lines with `\n` only. */
  lemma SampleOnlyNewlines(title: string, a: string, b: string, c: string, d: string, e: string, i1: string, i2: string)
    requires Plain(title) && Plain(a) && Plain(b) && Plain(c) && Plain(d) && Plain(e) && Plain(i1) && Plain(i2)
    ensures var par := a + "**" + b + "**" + (c + "*" + d + "*" + e);
      var m := ("# " + title) + ("\n" + ("\n" + (par + ("\n" + (("- " + i1) + ("\n" + ("- " + i2)))))));
      '\r' !in m && '\U{2028}' !in m && '\U{2029}' !in m
  {
    var par := a + "**" + b + "**" + (c + "*" + d + "*" + e);
    MarkersOneLine();
    NoTerminatorJoin("# ", title);
    NoTerminatorJoin("- ", i1);
    NoTerminatorJoin("- ", i2);
    EmphasisOneLine(a, b, c, d, e);
    LinesHoldOnlyNewlines("# " + title, par, "- " + i1, "- " + i2);
  }

  /** The rendering of one concrete text. */
  lemma RenderExample()
    ensures MarkdownToHtml("# Title\n\nSome **bold** and *italic* text.\n- item one\n- item two")
            == "<h1>Title</h1></p><p>Some <strong>bold</strong> and <em>italic</em> text.<br><ul><li>item one</li><br><li>item two</li></ul>"
  {
    SamplePlainText();
    SamplePlainItems();
    RenderShape("Title", "Some ", "bold", " and ", "italic", " text.", "item one", "item two");
    SampleInput();
    SampleOutput();
  }

  lemma SamplePlainText()
    ensures Plain("Title") && Plain("Some ") && Plain("bold") && Plain(" and ")
  {
    PlainByChars("Title");
    PlainByChars("Some ");
    PlainByChars("bold");
    PlainByChars(" and ");
  }

  lemma SamplePlainItems()
    ensures Plain("italic") && Plain(" text.") && Plain("item one") && Plain("item two")
  {
    PlainByChars("italic");
    PlainByChars(" text.");
    PlainByChars("item one");
    PlainByChars("item two");
  }

  /** The sample text cut into the five lines and their markers. Each step
      cuts a short piece off the end of a string literal. */
  lemma SampleInput()
    ensures "# Title\n\nSome **bold** and *italic* text.\n- item one\n- item two"
      == ("# " + "Title") + ("\n" + ("\n" + (("Some " + "**" + "bold" + "**" + (" and " + "*" + "italic" + "*" + " text."))
           + ("\n" + (("- " + "item one") + ("\n" + ("- " + "item two")))))))
  {
    InputCut1();
    InputCut2();
    InputCut3();
    InputParagraph();
    InputMarkers();
    LinesRegroup("# " + "Title", "Some " + "**" + "bold" + "**" + (" and " + "*" + "italic" + "*" + " text."),
                 "- " + "item one", "- " + "item two");
  }

  lemma InputCut1()
    ensures "# Title\n\nSome **bold** and *italic* text.\n- item one\n- item two"
      == "# Title\n\nSome **bold** and *italic* text.\n- item one" + "\n- item two"
  {
  }

  lemma InputCut2()
    ensures "# Title\n\nSome **bold** and *italic* text.\n- item one"
      == "# Title\n\nSome **bold** and *italic* text." + "\n- item one"
  {
  }

  lemma InputCut3()
    ensures "# Title\n\nSome **bold** and *italic* text." == "# Title\n\n" + "Some **bold** and *italic* text."
  {
  }

  lemma InputParagraph()
    ensures "Some **bold** and *italic* text." == "Some " + "**" + "bold" + "**" + (" and " + "*" + "italic" + "*" + " text.")
  {
  }

  lemma InputMarkers()
    ensures "# Title\n\n" == ("# " + "Title") + "\n" + "\n"
    ensures "\n- item one" == "\n" + ("- " + "item one")
    ensures "\n- item two" == "\n" + ("- " + "item two")
  {
  }

  lemma LinesRegroup(h: string, p: string, i1: string, i2: string)
    ensures (h + "\n" + "\n") + p + ("\n" + i1) + ("\n" + i2)
            == h + ("\n" + ("\n" + (p + ("\n" + (i1 + ("\n" + i2))))))
  {
  }

  /** The expected markup cut into the pieces the rules produce. */
  lemma SampleOutput()
    ensures var pe := ("Some " + "<strong>" + "bold" + "</strong>" + " and ") + "<em>" + "italic" + "</em>" + " text.";
      var h1, l1, l2 := "<h1>" + "Title" + "</h1>", "<li>" + "item one" + "</li>", "<li>" + "item two" + "</li>";
      "<h1>Title</h1></p><p>Some <strong>bold</strong> and <em>italic</em> text.<br><ul><li>item one</li><br><li>item two</li></ul>"
      == h1 + ("</p><p>" + (pe + ("<br>" + ("<ul>" + (l1 + ("<br>" + (l2 + "</ul>")))))))
  {
    OutputCut0();
    OutputCut1();
    OutputCut2();
    OutputCut3();
    OutputCut4();
    OutputHead();
    OutputStrong();
    OutputEm();
    OutputItems();
    var strong := "Some " + "<strong>" + "bold" + "</strong>";
    var em := " and " + "<em>" + "italic" + "</em>" + " text.";
    ParagraphRegroup("Some ", "<strong>", "bold", "</strong>", " and ", "<em>", "italic", "</em>", " text.");
    MarkupRegroup("<h1>" + "Title" + "</h1>", "</p><p>", strong, em,
                  ("Some " + "<strong>" + "bold" + "</strong>" + " and ") + "<em>" + "italic" + "</em>" + " text.",
                  "<br>", "<ul>", "<li>" + "item one" + "</li>", "<li>" + "item two" + "</li>", "</ul>");
  }

  lemma OutputCut0()
    ensures "<h1>Title</h1></p><p>Some <strong>bold</strong> and <em>italic</em> text.<br><ul><li>item one</li><br><li>item two</li></ul>"
      == "<h1>Title</h1></p><p>Some <strong>bold</strong> and <em>italic</em> text.<br><ul><li>item one</li><br><li>item two</li>" + "</ul>"
  {
  }

  lemma OutputCut1()
    ensures "<h1>Title</h1></p><p>Some <strong>bold</strong> and <em>italic</em> text.<br><ul><li>item one</li><br><li>item two</li>"
      == "<h1>Title</h1></p><p>Some <strong>bold</strong> and <em>italic</em> text.<br><ul><li>item one</li>" + "<br><li>item two</li>"
  {
  }

  lemma OutputCut2()
    ensures "<h1>Title</h1></p><p>Some <strong>bold</strong> and <em>italic</em> text.<br><ul><li>item one</li>"
      == "<h1>Title</h1></p><p>Some <strong>bold</strong> and <em>italic</em> text." + "<br><ul><li>item one</li>"
  {
  }

  lemma OutputCut3()
    ensures "<h1>Title</h1></p><p>Some <strong>bold</strong> and <em>italic</em> text."
      == "<h1>Title</h1></p><p>Some <strong>bold</strong>" + " and <em>italic</em> text."
  {
  }

  lemma OutputCut4()
    ensures "<h1>Title</h1></p><p>Some <strong>bold</strong>" == "<h1>Title</h1></p><p>" + "Some <strong>bold</strong>"
  {
  }

  lemma OutputHead()
    ensures "<h1>Title</h1></p><p>" == "<h1>" + "Title" + "</h1>" + "</p><p>"
  {
  }

  lemma OutputStrong()
    ensures "Some <strong>bold</strong>" == "Some " + "<strong>" + "bold" + "</strong>"
  {
  }

  lemma OutputEm()
    ensures " and <em>italic</em> text." == " and " + "<em>" + "italic" + "</em>" + " text."
  {
  }

  lemma OutputItems()
    ensures "<br><ul><li>item one</li>" == "<br>" + "<ul>" + ("<li>" + "item one" + "</li>")
    ensures "<br><li>item two</li>" == "<br>" + ("<li>" + "item two" + "</li>")
  {
  }

  lemma ParagraphRegroup(s: string, o: string, b: string, c: string, a: string, o': string, i: string, c': string, t: string)
    ensures (s + o + b + c) + (a + o' + i + c' + t) == (s + o + b + c + a) + o' + i + c' + t
  {
  }

  lemma MarkupRegroup(h1: string, m: string, u: string, v: string, pe: string,
                      br: string, o: string, l1: string, l2: string, c: string)
    requires pe == u + v
    ensures h1 + m + u + v + (br + o + l1) + (br + l2) + c
            == h1 + (m + (pe + (br + (o + (l1 + (br + (l2 + c)))))))
  {
  }

  /** Plain text is text without the four line terminators, `*` and `<`. */
  lemma PlainByChars(s: string)
    requires '\n' !in s && '\r' !in s && '\U{2028}' !in s && '\U{2029}' !in s
    requires '*' !in s && '<' !in s
    ensures Plain(s)
  {
    NoTerminatorByChars(s);
  }
}
