/**
 * The browser front end (static/script.js): the response formatter
 * `formatContent`, the error/answer classification of `displayResult`,
 * and the blank-query guard of `submitQuery`.
 */
module Script {
  import opened Text

  // ---------------------------------------------------------------------
  // The replace chain of formatContent
  // ---------------------------------------------------------------------

  /** `s.replace(/c/g, rep)` for a one-character pattern: every `c` becomes `rep`. */
  function ReplaceAll(s: string, c: char, rep: string): string {
    if s == [] then [] else (if s[0] == c then rep else [s[0]]) + ReplaceAll(s[1..], c, rep)
  }

  /** One step of the replacement: the first character is replaced or kept, then the rest is replaced. */
  lemma ReplaceAllCons(d: char, s: string, c: char, rep: string)
    ensures ReplaceAll([d] + s, c, rep) == (if d == c then rep else [d]) + ReplaceAll(s, c, rep)
  {
    assert ([d] + s)[0] == d && ([d] + s)[1..] == s;
  }

  /** Replacing a character that does not occur changes nothing. */
  lemma {:induction false} ReplaceAllAbsent(s: string, c: char, rep: string)
    requires c !in s
    ensures ReplaceAll(s, c, rep) == s
  {
    if s != [] {
      assert s[0] in s;
      assert forall d :: d in s[1..] ==> d in s;
      ReplaceAllAbsent(s[1..], c, rep);
      assert s == [s[0]] + s[1..];
    }
  }

  /** After replacing `c` by text without `c`, no `c` is left. */
  lemma {:induction false} ReplaceAllRemoves(s: string, c: char, rep: string)
    requires c !in rep
    ensures c !in ReplaceAll(s, c, rep)
  {
    if s != [] {
      ReplaceAllRemoves(s[1..], c, rep);
    }
  }

  lemma {:induction false} ReplaceAllAppend(a: string, b: string, c: char, rep: string)
    ensures ReplaceAll(a + b, c, rep) == ReplaceAll(a, c, rep) + ReplaceAll(b, c, rep)
  {
    if a != [] {
      assert (a + b)[0] == a[0];
      assert (a + b)[1..] == a[1..] + b;
      ReplaceAllAppend(a[1..], b, c, rep);
    } else {
      assert a + b == b;
    }
  }

  /** Number of newlines `s` starts with. */
  function LeadingNewlines(s: string): (n: nat)
    ensures n <= |s|
    ensures forall k :: 0 <= k < n ==> s[k] == '\n'
    ensures n == |s| || s[n] != '\n'
  {
    if s != [] && s[0] == '\n' then 1 + LeadingNewlines(s[1..]) else 0
  }

  /** `s.replace(/\n\n+/g, '</p><p>')`: each run of two or more newlines, taken whole, becomes a paragraph break. */
  function CollapseBlankLines(s: string): string
    decreases |s|
  {
    if |s| >= 2 && s[0] == '\n' && s[1] == '\n' then
      "</p><p>" + CollapseBlankLines(s[LeadingNewlines(s)..])
    else if s == [] then []
    else [s[0]] + CollapseBlankLines(s[1..])
  }

  /** The three escaping passes, `&` first (static/script.js:87-89). */
  function EscapeHtml(text: string): string {
    ReplaceAll(ReplaceAll(ReplaceAll(text, '&', "&amp;"), '<', "&lt;"), '>', "&gt;")
  }

  /** The `html` of formatContent: escaped, blank lines collapsed, the remaining newlines turned into `<br>`. */
  function ParagraphBody(text: string): string {
    ReplaceAll(CollapseBlankLines(EscapeHtml(text)), '\n', "<br>")
  }

  /** formatContent: the paragraph body wrapped in `<p>…</p>`. */
  function FormatContent(text: string): (html: string)
    ensures "<p>" <= html
    ensures |html| >= 7 && html[|html| - 4..] == "</p>"
  {
    var body := ParagraphBody(text);
    assert ("<p>" + body + "</p>")[|body| + 3..] == "</p>";
    "<p>" + body + "</p>"
  }

  // ---------------------------------------------------------------------
  // A one-pass reference reading of formatContent
  // ---------------------------------------------------------------------

  /** What one non-newline input character becomes in the output. */
  function Entity(c: char): string {
    if c == '&' then "&amp;" else if c == '<' then "&lt;" else if c == '>' then "&gt;" else [c]
  }

  /**
   * The paragraph body formatContent produces, read left to right over the
   * input: each special character becomes its entity, each maximal run of
   * two or more newlines one `</p><p>`, each isolated newline one `<br>`.
   */
  function Markup(text: string): string
    decreases |text|
  {
    if text == [] then []
    else if text[0] == '\n' then
      var n := LeadingNewlines(text);
      (if n >= 2 then "</p><p>" else "<br>") + Markup(text[n..])
    else Entity(text[0]) + Markup(text[1..])
  }

  /** One replacement pass over a single character. */
  lemma PassSingle(c: char, x: char, rep: string)
    ensures ReplaceAll([c], x, rep) == if c == x then rep else [c]
  {
    assert [c] + [] == [c];
    ReplaceAllCons(c, [], x, rep);
  }

  /** A single character comes out of the three passes as its entity. */
  lemma EscapeSingle(c: char)
    ensures EscapeHtml([c]) == Entity(c)
  {
    PassSingle(c, '&', "&amp;");
    var e1 := ReplaceAll([c], '&', "&amp;");
    var e2 := ReplaceAll(e1, '<', "&lt;");
    assert e2 == if c == '<' then "&lt;" else e1 by {
      if c == '&' { ReplaceAllAbsent(e1, '<', "&lt;"); } else { PassSingle(c, '<', "&lt;"); }
    }
    assert ReplaceAll(e2, '>', "&gt;") == Entity(c) by {
      if c == '&' || c == '<' { ReplaceAllAbsent(e2, '>', "&gt;"); } else { PassSingle(c, '>', "&gt;"); }
    }
  }

  /** The escaping passes escape each character on its own, exactly once. */
  lemma EscapeHtmlCons(c: char, s: string)
    ensures EscapeHtml([c] + s) == Entity(c) + EscapeHtml(s)
  {
    var r1, r2 := ReplaceAll([c], '&', "&amp;"), ReplaceAll(s, '&', "&amp;");
    ReplaceAllAppend([c], s, '&', "&amp;");
    ReplaceAllAppend(r1, r2, '<', "&lt;");
    ReplaceAllAppend(ReplaceAll(r1, '<', "&lt;"), ReplaceAll(r2, '<', "&lt;"), '>', "&gt;");
    EscapeSingle(c);
  }

  /** Escaping leaves a run of newlines alone. */
  lemma {:induction false} EscapeHtmlNewlineRun(nl: string, y: string)
    requires forall k :: 0 <= k < |nl| ==> nl[k] == '\n'
    ensures EscapeHtml(nl + y) == nl + EscapeHtml(y)
  {
    if nl == [] {
      assert nl + y == y;
    } else {
      var t := nl[1..];
      assert nl[0] == '\n';
      assert nl + y == [nl[0]] + (t + y);
      EscapeHtmlNewlineRun(t, y);
      EscapeHtmlCons(nl[0], t + y);
      assert nl == [nl[0]] + t;
    }
  }

  /** Collapsing blank lines does not reach into a newline-free prefix. */
  /** A character other than a newline is copied by the blank-line pass. */
  lemma CollapseCons(c: char, s: string)
    requires c != '\n'
    ensures CollapseBlankLines([c] + s) == [c] + CollapseBlankLines(s)
  {
    assert ([c] + s)[0] == c && ([c] + s)[1..] == s;
  }

  lemma {:induction false} CollapseNewlineFree(p: string, s: string)
    requires '\n' !in p
    ensures CollapseBlankLines(p + s) == p + CollapseBlankLines(s)
  {
    if p != [] {
      var c, q := p[0], p[1..];
      assert p == [c] + q;
      assert c != '\n' && '\n' !in q;
      assert p + s == [c] + (q + s);
      CollapseCons(c, q + s);
      CollapseNewlineFree(q, s);
    } else {
      assert p + s == s;
    }
  }

  /** A run of `|nl|` newlines followed by a non-newline counts exactly `|nl|`. */
  lemma {:induction false} LeadingNewlinesRun(nl: string, s: string)
    requires forall k :: 0 <= k < |nl| ==> nl[k] == '\n'
    requires s == [] || s[0] != '\n'
    ensures LeadingNewlines(nl + s) == |nl|
  {
    if nl != [] {
      assert (nl + s)[1..] == nl[1..] + s;
      LeadingNewlinesRun(nl[1..], s);
    }
  }

  /** The escaped text never starts with a newline unless the text does. */
  lemma EscapeHtmlHead(text: string)
    requires text != [] && text[0] != '\n'
    ensures EscapeHtml(text) != [] && EscapeHtml(text)[0] != '\n'
  {
    assert text == [text[0]] + text[1..];
    EscapeHtmlCons(text[0], text[1..]);
  }

  /** The body of a newline run followed by non-newline text. */
  lemma CollapseRun(nl: string, y: string)
    requires |nl| >= 1 && forall k :: 0 <= k < |nl| ==> nl[k] == '\n'
    requires y == [] || y[0] != '\n'
    ensures CollapseBlankLines(nl + y) == (if |nl| >= 2 then "</p><p>" else "\n") + CollapseBlankLines(y)
  {
    var s := nl + y;
    if |nl| >= 2 {
      assert s[0] == '\n' && s[1] == '\n';
      LeadingNewlinesRun(nl, y);
      assert s[|nl|..] == y;
    } else {
      assert !(|s| >= 2 && s[1] == '\n');
      assert s[1..] == y;
    }
  }

  /** The line-break pass over what a newline run became. */
  lemma LineBreaksOfRun(long: bool, tail: string)
    ensures ReplaceAll((if long then "</p><p>" else "\n") + tail, '\n', "<br>")
      == (if long then "</p><p>" else "<br>") + ReplaceAll(tail, '\n', "<br>")
  {
    var tag := if long then "</p><p>" else "\n";
    ReplaceAllAppend(tag, tail, '\n', "<br>");
    if long { ReplaceAllAbsent(tag, '\n', "<br>"); } else { assert tag[1..] == []; }
  }

  /** One step of the replace chain over a leading non-newline character. */
  lemma ParagraphBodyChar(text: string)
    requires text != [] && text[0] != '\n'
    ensures ParagraphBody(text) == Entity(text[0]) + ParagraphBody(text[1..])
  {
    var e := Entity(text[0]);
    assert text == [text[0]] + text[1..];
    EscapeHtmlCons(text[0], text[1..]);
    CollapseNewlineFree(e, EscapeHtml(text[1..]));
    ReplaceAllAppend(e, CollapseBlankLines(EscapeHtml(text[1..])), '\n', "<br>");
    ReplaceAllAbsent(e, '\n', "<br>");
  }

  /** The replace chain agrees with the one-pass reading. */
  lemma {:induction false} BodyIsMarkup(text: string)
    ensures ParagraphBody(text) == Markup(text)
    decreases |text|
  {
    if text == [] {
    } else if text[0] == '\n' {
      var n := LeadingNewlines(text);
      var rest := text[n..];
      assert text == text[..n] + rest;
      EscapeHtmlNewlineRun(text[..n], rest);
      if rest != [] { EscapeHtmlHead(rest); }
      CollapseRun(text[..n], EscapeHtml(rest));
      LineBreaksOfRun(n >= 2, CollapseBlankLines(EscapeHtml(rest)));
      BodyIsMarkup(rest);
    } else {
      ParagraphBodyChar(text);
      BodyIsMarkup(text[1..]);
    }
  }

  /** formatContent is the reference body wrapped in one paragraph. */
  lemma FormatContentIsMarkup(text: string)
    ensures FormatContent(text) == "<p>" + Markup(text) + "</p>"
  {
    BodyIsMarkup(text);
  }

  /** Text with nothing to escape and no newline comes out as itself inside `<p>…</p>`. */
  lemma {:induction false} PlainTextUnchanged(text: string)
    requires '&' !in text && '<' !in text && '>' !in text && '\n' !in text
    ensures FormatContent(text) == "<p>" + text + "</p>"
  {
    FormatContentIsMarkup(text);
    MarkupOfPlain(text);
  }

  lemma {:induction false} MarkupOfPlain(text: string)
    requires '&' !in text && '<' !in text && '>' !in text && '\n' !in text
    ensures Markup(text) == text
  {
    if text != [] {
      var c, rest := text[0], text[1..];
      assert c in text;
      assert Entity(c) == [c];
      assert forall d :: d in rest ==> d in text;
      MarkupOfPlain(rest);
      assert Markup(text) == [c] + Markup(rest);
      assert text == [c] + rest;
    }
  }

  // ---------------------------------------------------------------------
  // What the output may contain
  // ---------------------------------------------------------------------

  /** An inserted tag starts at position `i`. */
  predicate TagAt(s: string, i: nat)
    requires i <= |s|
  {
    "<p>" <= s[i..] || "</p>" <= s[i..] || "<br>" <= s[i..]
  }

  /** An inserted tag ends at position `i`. */
  predicate TagEndsAt(s: string, i: nat)
    requires i < |s|
  {
    s[i] == '>'
    && ((i >= 2 && s[i - 2] == '<' && s[i - 1] == 'p')
        || (i >= 3 && s[i - 3] == '<' && s[i - 2] == '/' && s[i - 1] == 'p')
        || (i >= 3 && s[i - 3] == '<' && s[i - 2] == 'b' && s[i - 1] == 'r'))
  }

  /** A character entity starts at position `i`. */
  predicate EntityAt(s: string, i: nat)
    requires i <= |s|
  {
    "&amp;" <= s[i..] || "&lt;" <= s[i..] || "&gt;" <= s[i..]
  }

  /** Escaped text: no raw angle bracket, and every `&` begins an entity. */
  predicate WellEscaped(s: string) {
    forall i :: 0 <= i < |s| ==> s[i] != '<' && s[i] != '>' && (s[i] == '&' ==> EntityAt(s, i))
  }

  /** Position `i` of `s` is safe: not a newline, and any `<`, `>` or `&` there belongs to a tag or an entity. */
  predicate SafeAt(s: string, i: nat)
    requires i < |s|
  {
    s[i] != '\n'
    && (s[i] == '<' ==> TagAt(s, i))
    && (s[i] == '>' ==> TagEndsAt(s, i))
    && (s[i] == '&' ==> EntityAt(s, i))
  }

  /**
   * Safe paragraph markup: no newline, every `<` opens and every `>` closes
   * an inserted tag, and every `&` begins an entity.
   */
  predicate SafeMarkup(s: string) {
    forall i :: 0 <= i < |s| ==> SafeAt(s, i)
  }

  lemma WellEscapedAppend(a: string, b: string)
    requires WellEscaped(a) && WellEscaped(b)
    ensures WellEscaped(a + b)
  {
    var s := a + b;
    forall i | 0 <= i < |s| && s[i] == '&' ensures EntityAt(s, i) {
      if i < |a| {
        assert a[i] == '&' && EntityAt(a, i);
        assert s[i..] == a[i..] + b;
      } else {
        assert b[i - |a|] == '&' && EntityAt(b, i - |a|);
        assert s[i..] == b[i - |a|..];
      }
    }
  }

  lemma SafeAtLeft(a: string, b: string, i: nat)
    requires i < |a| && SafeAt(a, i)
    ensures SafeAt(a + b, i)
  {
    var s := a + b;
    assert s[i] == a[i];
    assert s[i] == '<' ==> TagAt(s, i) by {
      if a[i] == '<' { assert s[i..] == a[i..] + b; assert a[i..] <= s[i..]; }
    }
    assert s[i] == '&' ==> EntityAt(s, i) by {
      if a[i] == '&' { assert s[i..] == a[i..] + b; assert a[i..] <= s[i..]; }
    }
    assert s[i] == '>' ==> TagEndsAt(s, i) by {
      if i >= 2 { assert s[i - 2] == a[i - 2] && s[i - 1] == a[i - 1]; }
      if i >= 3 { assert s[i - 3] == a[i - 3]; }
    }
  }

  lemma SafeAtRight(a: string, b: string, j: nat)
    requires j < |b| && SafeAt(b, j)
    ensures SafeAt(a + b, |a| + j)
  {
    var s, i := a + b, |a| + j;
    assert s[i] == b[j];
    assert s[i] == '<' ==> TagAt(s, i) by {
      if b[j] == '<' { assert s[i..] == b[j..]; }
    }
    assert s[i] == '&' ==> EntityAt(s, i) by {
      if b[j] == '&' { assert s[i..] == b[j..]; }
    }
    assert s[i] == '>' ==> TagEndsAt(s, i) by {
      if j >= 2 { assert s[i - 2] == b[j - 2] && s[i - 1] == b[j - 1]; }
      if j >= 3 { assert s[i - 3] == b[j - 3]; }
    }
  }

  lemma SafeMarkupAppend(a: string, b: string)
    requires SafeMarkup(a) && SafeMarkup(b)
    ensures SafeMarkup(a + b)
  {
    forall i | 0 <= i < |a + b| ensures SafeAt(a + b, i) {
      if i < |a| { SafeAtLeft(a, b, i); } else { SafeAtRight(a, b, i - |a|); }
    }
  }

  lemma EntityWellEscaped(c: char)
    ensures WellEscaped(Entity(c))
  {
    var e := Entity(c);
    forall i | 0 <= i < |e| ensures e[i] != '<' && e[i] != '>' && (e[i] == '&' ==> EntityAt(e, i)) {
      if c == '&' || c == '<' || c == '>' {
        assert e[0..] == e;
      }
    }
  }

  /** After the escaping passes no angle bracket is left, and every `&` begins an entity. */
  lemma {:induction false} EscapeHtmlWellEscaped(text: string)
    ensures WellEscaped(EscapeHtml(text))
  {
    if text != [] {
      assert text == [text[0]] + text[1..];
      EscapeHtmlCons(text[0], text[1..]);
      EntityWellEscaped(text[0]);
      EscapeHtmlWellEscaped(text[1..]);
      WellEscapedAppend(Entity(text[0]), EscapeHtml(text[1..]));
    }
  }

  lemma EntitySafe(c: char)
    requires c != '\n'
    ensures SafeMarkup(Entity(c))
  {
    var e := Entity(c);
    forall i | 0 <= i < |e| ensures SafeAt(e, i) {
      if c == '&' || c == '<' || c == '>' {
        assert e[0..] == e;
      }
    }
  }

  lemma OpenTagSafe()
    ensures SafeMarkup("<p>")
  {
    var t := "<p>";
    assert t[0..] == t;
  }

  lemma CloseTagSafe()
    ensures SafeMarkup("</p>")
  {
    var t := "</p>";
    assert t[0..] == t;
  }

  lemma BreakTagSafe()
    ensures SafeMarkup("<br>")
  {
    var t := "<br>";
    assert t[0..] == t;
  }

  lemma ParagraphBreakSafe()
    ensures SafeMarkup("</p><p>")
  {
    CloseTagSafe();
    OpenTagSafe();
    SafeMarkupAppend("</p>", "<p>");
    assert "</p>" + "<p>" == "</p><p>";
  }

  /** The four tags formatContent inserts are safe markup. */
  lemma TagsSafe()
    ensures SafeMarkup("<p>") && SafeMarkup("</p>") && SafeMarkup("<br>") && SafeMarkup("</p><p>")
  {
    OpenTagSafe();
    CloseTagSafe();
    BreakTagSafe();
    ParagraphBreakSafe();
  }

  lemma {:induction false} MarkupSafe(text: string)
    ensures SafeMarkup(Markup(text))
    decreases |text|
  {
    if text == [] {
    } else if text[0] == '\n' {
      var n := LeadingNewlines(text);
      TagsSafe();
      MarkupSafe(text[n..]);
      SafeMarkupAppend(if n >= 2 then "</p><p>" else "<br>", Markup(text[n..]));
    } else {
      EntitySafe(text[0]);
      MarkupSafe(text[1..]);
      SafeMarkupAppend(Entity(text[0]), Markup(text[1..]));
    }
  }

  /**
   * The output of formatContent holds no newline; every `<` in it opens and
   * every `>` closes an inserted `<p>`, `</p>` or `<br>`; every `&` begins
   * `&amp;`, `&lt;` or `&gt;`. No angle bracket of the input survives raw.
   */
  lemma FormatContentSafe(text: string)
    ensures SafeMarkup(FormatContent(text))
  {
    FormatContentIsMarkup(text);
    TagsSafe();
    MarkupSafe(text);
    SafeMarkupAppend("<p>", Markup(text));
    SafeMarkupAppend("<p>" + Markup(text), "</p>");
  }

  // ---------------------------------------------------------------------
  // Reading the output back
  // ---------------------------------------------------------------------

  /** The text with each run of two or more newlines shortened to exactly two. */
  function Normalize(text: string): string
    decreases |text|
  {
    if text == [] then []
    else if text[0] == '\n' then
      var n := LeadingNewlines(text);
      (if n >= 2 then "\n\n" else "\n") + Normalize(text[n..])
    else [text[0]] + Normalize(text[1..])
  }

  /** Decodes a paragraph body: entities back to characters, `<br>` to a newline, `</p><p>` to a blank line. */
  function Plaintext(body: string): string
    decreases |body|
  {
    if body == [] then []
    else if "</p><p>" <= body then "\n\n" + Plaintext(body[7..])
    else if "<br>" <= body then "\n" + Plaintext(body[4..])
    else if "&amp;" <= body then "&" + Plaintext(body[5..])
    else if "&lt;" <= body then "<" + Plaintext(body[4..])
    else if "&gt;" <= body then ">" + Plaintext(body[4..])
    else [body[0]] + Plaintext(body[1..])
  }

  /** Inverse of formatContent, for output wrapped in `<p>…</p>`. */
  function Unformat(html: string): string
    requires |html| >= 7 && "<p>" <= html && html[|html| - 4..] == "</p>"
  {
    Plaintext(html[3..|html| - 4])
  }

  lemma PlaintextTag(tag: string, rest: string)
    requires tag == "</p><p>" || tag == "<br>" || tag == "&amp;" || tag == "&lt;" || tag == "&gt;"
    ensures Plaintext(tag + rest) == (if tag == "</p><p>" then "\n\n" else if tag == "<br>" then "\n"
      else if tag == "&amp;" then "&" else if tag == "&lt;" then "<" else ">") + Plaintext(rest)
  {
    var s := tag + rest;
    assert s[..|tag|] == tag && s[|tag|..] == rest;
    assert tag <= s;
    if tag == "</p><p>" {
    } else if tag == "<br>" {
      assert s[1] == 'b';
    } else {
      assert s[0] == '&';
      if tag == "&lt;" { assert s[1] == 'l'; }
      if tag == "&gt;" { assert s[1] == 'g'; }
    }
  }

  lemma PlaintextChar(c: char, rest: string)
    requires c != '&' && c != '<' && c != '>' && c != '\n'
    ensures Plaintext([c] + rest) == [c] + Plaintext(rest)
  {
    var s := [c] + rest;
    assert s[0] == c && s[1..] == rest;
  }

  lemma {:induction false} PlaintextOfMarkup(text: string)
    ensures Plaintext(Markup(text)) == Normalize(text)
    decreases |text|
  {
    if text == [] {
    } else if text[0] == '\n' {
      var n := LeadingNewlines(text);
      PlaintextTag(if n >= 2 then "</p><p>" else "<br>", Markup(text[n..]));
      PlaintextOfMarkup(text[n..]);
    } else {
      var c := text[0];
      if c == '&' || c == '<' || c == '>' { PlaintextTag(Entity(c), Markup(text[1..])); }
      else { PlaintextChar(c, Markup(text[1..])); }
      PlaintextOfMarkup(text[1..]);
    }
  }

  /**
   * formatContent loses nothing but the length of newline runs: reading its
   * output back gives the input with every blank-line run shortened to two newlines.
   */
  lemma UnformatFormatContent(text: string)
    ensures Unformat(FormatContent(text)) == Normalize(text)
  {
    FormatContentIsMarkup(text);
    var m := Markup(text);
    var html := "<p>" + m + "</p>";
    assert html[3..|html| - 4] == m;
    PlaintextOfMarkup(text);
  }

  lemma NormalizeHead(text: string)
    requires text != [] && text[0] != '\n'
    ensures Normalize(text) != [] && Normalize(text)[0] == text[0]
  {
  }

  /** Formatting sees only the normalized text: the length of a blank-line run does not matter. */
  lemma {:induction false} MarkupOfNormalize(text: string)
    ensures Markup(Normalize(text)) == Markup(text)
    decreases |text|
  {
    if text == [] {
    } else if text[0] == '\n' {
      var n := LeadingNewlines(text);
      var w := if n >= 2 then "\n\n" else "\n";
      var rest := Normalize(text[n..]);
      if text[n..] != [] { NormalizeHead(text[n..]); }
      LeadingNewlinesRun(w, rest);
      assert (w + rest)[0] == '\n';
      assert (w + rest)[|w|..] == rest;
      MarkupOfNormalize(text[n..]);
    } else {
      var rest := Normalize(text[1..]);
      assert ([text[0]] + rest)[0] == text[0] && ([text[0]] + rest)[1..] == rest;
      MarkupOfNormalize(text[1..]);
    }
  }

  /** Two texts format alike exactly when they agree up to the length of their blank-line runs. */
  lemma FormatContentEqualIff(a: string, b: string)
    ensures FormatContent(a) == FormatContent(b) <==> Normalize(a) == Normalize(b)
  {
    UnformatFormatContent(a);
    UnformatFormatContent(b);
    if Normalize(a) == Normalize(b) {
      MarkupOfNormalize(a);
      MarkupOfNormalize(b);
      FormatContentIsMarkup(a);
      FormatContentIsMarkup(b);
    }
  }

  // ---------------------------------------------------------------------
  // displayResult and submitQuery
  // ---------------------------------------------------------------------

  /** The prefix by which the front end recognises a failed provider. */
  const ErrorPrefix: string := "Error:"

  /** Opening tag of the red error box (static/script.js:76). */
  const ErrorBoxOpen: string := "<div style=\"color: #d32f2f; font-weight: 500;\">"

  /** What displayResult puts into a provider's pane; the status indicator is `error` or `done`. */
  datatype Panel = ErrorPanel(html: string) | AnswerPanel(html: string)

  /**
   * A provider's content is shown as an error exactly when it starts with
   * `Error:`; error content goes into the box verbatim, everything else
   * through formatContent.
   */
  function DisplayResult(content: string): (p: Panel)
    ensures p.ErrorPanel? <==> ErrorPrefix <= content
    ensures p.ErrorPanel? ==> p.html == ErrorBoxOpen + content + "</div>"
    ensures p.AnswerPanel? ==> p.html == FormatContent(content)
  {
    if ErrorPrefix <= content then ErrorPanel(ErrorBoxOpen + content + "</div>")
    else AnswerPanel(FormatContent(content))
  }

  /** What submitQuery does with the text in the input box. */
  datatype Submission = ShowError(message: string) | PostQuery(query: string)

  /**
   * A query that trims to nothing is refused with a message and no request;
   * otherwise the trimmed query is posted, and it is not blank.
   */
  function SubmitQuery(input: string): (s: Submission)
    ensures s.ShowError? <==> IsBlank(input)
    ensures s.ShowError? ==> s.message == "Please enter a question first"
    ensures s.PostQuery? ==> s.query == Trim(input) && s.query != [] && !IsBlank(s.query)
  {
    var query := Trim(input);
    TrimEmptyIffBlank(input);
    if query == [] then ShowError("Please enter a question first")
    else
      TrimmedNotBlank(input);
      PostQuery(query)
  }
}
