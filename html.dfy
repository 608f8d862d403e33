/**
 * The text helpers of the output window (src/presentation/presentation.js): `escapeHtml`
 * (592-595) and `parseBodyForLists` (15-56), which renders a quick-slide body as a bullet
 * list, a numbered list, or escaped text with line breaks. The white-space set is the one
 * JavaScript's `trim` and `\s` use; `.` in the list patterns stops at line terminators.
 */
module Html {
  import opened Wrappers

  /** JavaScript white space and line terminators: the characters `\s` and `String.prototype.trim` match. */
  const WhiteSpace: string :=
    "\t\n\U{000B}\U{000C}\r \U{00A0}\U{1680}"
    + "\U{2000}\U{2001}\U{2002}\U{2003}\U{2004}\U{2005}\U{2006}\U{2007}\U{2008}\U{2009}\U{200A}"
    + "\U{2028}\U{2029}\U{202F}\U{205F}\U{3000}\U{FEFF}"

  /** `c` is one of the characters of `cs`. */
  predicate OneOf(c: char, cs: string)
    decreases |cs|
  {
    cs != [] && (cs[0] == c || OneOf(c, cs[1..]))
  }

  predicate IsSpace(c: char) {
    OneOf(c, WhiteSpace)
  }

  /** The characters `.` does not match. */
  predicate IsLineTerminator(c: char) {
    c == '\n' || c == '\r' || c == '\U{2028}' || c == '\U{2029}'
  }

  predicate AllSpace(s: string) {
    forall i :: 0 <= i < |s| ==> IsSpace(s[i])
  }

  predicate NoLineTerminator(s: string) {
    forall i :: 0 <= i < |s| ==> !IsLineTerminator(s[i])
  }

  // ---------------------------------------------------------------------------------------
  // Trimming and splitting.

  /** The number of white-space characters `s` starts with. */
  function LeadingSpace(s: string): (n: nat)
    ensures n <= |s| && AllSpace(s[..n])
    ensures n == |s| || !IsSpace(s[n])
    decreases |s|
  {
    if s != [] && IsSpace(s[0]) then
      var n := LeadingSpace(s[1..]);
      assert s[..n + 1] == [s[0]] + s[1..][..n];
      n + 1
    else 0
  }

  /** The number of white-space characters `s` ends with. */
  function TrailingSpace(s: string): (n: nat)
    ensures n <= |s|
    ensures forall i :: |s| - n <= i < |s| ==> IsSpace(s[i])
    ensures n == |s| || !IsSpace(s[|s| - n - 1])
    decreases |s|
  {
    if s != [] && IsSpace(s[|s| - 1]) then
      TrailingSpace(s[..|s| - 1]) + 1
    else 0
  }

  /** `String.prototype.trimStart`: the longest suffix that does not start with white space. */
  function TrimStart(s: string): string {
    s[LeadingSpace(s)..]
  }

  /** `String.prototype.trimEnd`: the longest prefix that does not end with white space. */
  function TrimEnd(s: string): string {
    s[..|s| - TrailingSpace(s)]
  }

  /** `String.prototype.trim`. */
  function Trim(s: string): string {
    TrimEnd(TrimStart(s))
  }

  /** Trimming skips at least every leading white-space character. */
  lemma TrimStartSkips(s: string, j: nat)
    requires j <= |s| && AllSpace(s[..j])
    ensures LeadingSpace(s) >= j
  {
    forall i | 0 <= i < j ensures IsSpace(s[i]) {
      assert s[..j][i] == s[i];
    }
  }

  /** `text.split('\n')`. */
  function SplitLines(s: string): (lines: seq<string>)
    ensures |lines| >= 1
    ensures forall i :: 0 <= i < |lines| ==> '\n' !in lines[i]
    decreases |s|
  {
    if s == [] then [[]]
    else
      var rest := SplitLines(s[1..]);
      if s[0] == '\n' then [[]] + rest
      else [[s[0]] + rest[0]] + rest[1..]
  }

  /** `lines.join('\n')`: the inverse of SplitLines. */
  function JoinLines(lines: seq<string>): string
    requires |lines| >= 1
    decreases |lines|
  {
    if |lines| == 1 then lines[0] else lines[0] + "\n" + JoinLines(lines[1..])
  }

  lemma {:induction false} SplitThenJoin(s: string)
    ensures JoinLines(SplitLines(s)) == s
    decreases |s|
  {
    if s != [] {
      var rest := SplitLines(s[1..]);
      SplitThenJoin(s[1..]);
      if s[0] == '\n' {
        assert ([[]] + rest)[1..] == rest;
      } else if |rest| > 1 {
        var lines := [[s[0]] + rest[0]] + rest[1..];
        assert lines[1..] == rest[1..];
        assert JoinLines(rest) == rest[0] + "\n" + JoinLines(rest[1..]);
      }
    }
  }

  // ---------------------------------------------------------------------------------------
  // Escaping.

  /** `s.replace(/c/g, r)`. */
  function ReplaceAll(s: string, c: char, r: string): string
    decreases |s|
  {
    if s == [] then [] else (if s[0] == c then r else [s[0]]) + ReplaceAll(s[1..], c, r)
  }

  /** The three global replacements of `escapeHtml`, `&` first, then `<` and `>`. */
  function EscapePasses(s: string): string {
    ReplaceAll(ReplaceAll(ReplaceAll(s, '&', "&amp;"), '<', "&lt;"), '>', "&gt;")
  }

  /** `escapeHtml`: the empty text stays empty, any other text goes through the three replacements. */
  function EscapeHtml(s: string): string {
    if s == [] then [] else EscapePasses(s)
  }

  /** The reference escaping: each character on its own. */
  function EscapeChar(c: char): string {
    if c == '&' then "&amp;" else if c == '<' then "&lt;" else if c == '>' then "&gt;" else [c]
  }

  function EscapeChars(s: string): string
    decreases |s|
  {
    if s == [] then [] else EscapeChar(s[0]) + EscapeChars(s[1..])
  }

  /** The rendering of plain text: escaped, with each line feed as `<br>`. */
  function BreakLines(s: string): string {
    ReplaceAll(s, '\n', "<br>")
  }

  lemma {:induction false} ReplaceConcat(a: string, b: string, c: char, r: string)
    ensures ReplaceAll(a + b, c, r) == ReplaceAll(a, c, r) + ReplaceAll(b, c, r)
    decreases |a|
  {
    if a == [] {
      assert a + b == b;
    } else {
      assert (a + b)[0] == a[0];
      assert (a + b)[1..] == a[1..] + b;
      ReplaceConcat(a[1..], b, c, r);
    }
  }

  lemma {:induction false} ReplaceAbsent(s: string, c: char, r: string)
    requires c !in s
    ensures ReplaceAll(s, c, r) == s
    decreases |s|
  {
    if s != [] {
      assert s[0] != c;
      assert c !in s[1..];
      ReplaceAbsent(s[1..], c, r);
      assert s == [s[0]] + s[1..];
    }
  }

  lemma EscapePassesConcat(a: string, b: string)
    ensures EscapePasses(a + b) == EscapePasses(a) + EscapePasses(b)
  {
    ReplaceConcat(a, b, '&', "&amp;");
    var a1, b1 := ReplaceAll(a, '&', "&amp;"), ReplaceAll(b, '&', "&amp;");
    ReplaceConcat(a1, b1, '<', "&lt;");
    ReplaceConcat(ReplaceAll(a1, '<', "&lt;"), ReplaceAll(b1, '<', "&lt;"), '>', "&gt;");
  }

  lemma ReplaceSingle(x: char, c: char, r: string)
    ensures ReplaceAll([x], c, r) == if x == c then r else [x]
  {
    assert [x][0] == x && [x][1..] == [];
  }

  lemma EscapePassesChar(c: char)
    ensures EscapePasses([c]) == EscapeChar(c)
  {
    var a := ReplaceAll([c], '&', "&amp;");
    ReplaceSingle(c, '&', "&amp;");
    var b := ReplaceAll(a, '<', "&lt;");
    if c == '&' {
      ReplaceAbsent(a, '<', "&lt;");
      ReplaceAbsent(b, '>', "&gt;");
    } else {
      ReplaceSingle(c, '<', "&lt;");
      if c == '<' {
        ReplaceAbsent(b, '>', "&gt;");
      } else {
        ReplaceSingle(c, '>', "&gt;");
      }
    }
  }

  /** The three passes of escapeHtml act on each character independently. */
  lemma {:induction false} EscapeHtmlPerChar(s: string)
    ensures EscapeHtml(s) == EscapeChars(s)
    decreases |s|
  {
    if s != [] {
      assert s == [s[0]] + s[1..];
      EscapePassesConcat([s[0]], s[1..]);
      EscapePassesChar(s[0]);
      EscapeHtmlPerChar(s[1..]);
      if s[1..] == [] {
        assert EscapePasses([]) == [];
      }
    }
  }

  /** Escaped text holds no raw angle bracket. */
  lemma {:induction false} EscapedHasNoBrackets(s: string)
    ensures '<' !in EscapeHtml(s) && '>' !in EscapeHtml(s)
  {
    EscapeHtmlPerChar(s);
    EscapeCharsHasNoBrackets(s);
  }

  lemma {:induction false} EscapeCharsHasNoBrackets(s: string)
    ensures '<' !in EscapeChars(s) && '>' !in EscapeChars(s)
    decreases |s|
  {
    if s != [] {
      EscapeCharsHasNoBrackets(s[1..]);
    }
  }

  // ---------------------------------------------------------------------------------------
  // Reading the output back.

  /** Decodes the three entities and `<br>`; every other character stands for itself. */
  function Unescape(h: string): string
    decreases |h|
  {
    if h == [] then []
    else if "&amp;" <= h then "&" + Unescape(h[5..])
    else if "&lt;" <= h then "<" + Unescape(h[4..])
    else if "&gt;" <= h then ">" + Unescape(h[4..])
    else if "<br>" <= h then "\n" + Unescape(h[4..])
    else [h[0]] + Unescape(h[1..])
  }

  /** What BreakLines(EscapeHtml(_)) makes of one character. */
  function RenderChar(c: char): string {
    if c == '\n' then "<br>" else EscapeChar(c)
  }

  function RenderChars(s: string): string
    decreases |s|
  {
    if s == [] then [] else RenderChar(s[0]) + RenderChars(s[1..])
  }

  lemma UnescapeRenderChar(c: char, rest: string)
    ensures Unescape(RenderChar(c) + rest) == [c] + Unescape(rest)
  {
    var h := RenderChar(c) + rest;
    if c == '&' {
      assert h[..5] == "&amp;" && h[5..] == rest;
    } else if c == '<' {
      assert h[..4] == "&lt;" && h[4..] == rest;
      assert h[1] != "&amp;"[1];
    } else if c == '>' {
      assert h[..4] == "&gt;" && h[4..] == rest;
      assert h[1] != "&amp;"[1] && h[1] != "&lt;"[1];
    } else if c == '\n' {
      assert h[..4] == "<br>" && h[4..] == rest;
      assert h[0] != '&';
    } else {
      assert h[0] == c && h[1..] == rest;
    }
  }

  lemma {:induction false} UnescapeRenderChars(s: string)
    ensures Unescape(RenderChars(s)) == s
    decreases |s|
  {
    if s != [] {
      UnescapeRenderChar(s[0], RenderChars(s[1..]));
      UnescapeRenderChars(s[1..]);
    }
  }

  lemma {:induction false} BreakEscapedIsRender(s: string)
    ensures BreakLines(EscapeChars(s)) == RenderChars(s)
    decreases |s|
  {
    if s != [] {
      ReplaceConcat(EscapeChar(s[0]), EscapeChars(s[1..]), '\n', "<br>");
      if s[0] == '&' {
        ReplaceAbsent("&amp;", '\n', "<br>");
      } else if s[0] == '<' {
        ReplaceAbsent("&lt;", '\n', "<br>");
      } else if s[0] == '>' {
        ReplaceAbsent("&gt;", '\n', "<br>");
      }
      BreakEscapedIsRender(s[1..]);
    }
  }

  lemma {:induction false} UnescapeEscapeChars(s: string)
    ensures Unescape(EscapeChars(s)) == s
    decreases |s|
  {
    if s != [] {
      if s[0] == '\n' {
        var h := EscapeChars(s);
        assert h[0] == '\n' && h[1..] == EscapeChars(s[1..]);
      } else {
        assert EscapeChar(s[0]) == RenderChar(s[0]);
        UnescapeRenderChar(s[0], EscapeChars(s[1..]));
      }
      UnescapeEscapeChars(s[1..]);
    }
  }

  /** Escaping loses nothing: the entities read back as the characters they replaced. */
  lemma EscapeRoundTrip(s: string)
    ensures Unescape(EscapeHtml(s)) == s
  {
    EscapeHtmlPerChar(s);
    UnescapeEscapeChars(s);
  }

  /** Plain-text rendering loses nothing: escaped text with `<br>` line breaks reads back as the text. */
  lemma PlainRoundTrip(s: string)
    ensures Unescape(BreakLines(EscapeHtml(s))) == s
  {
    EscapeHtmlPerChar(s);
    BreakEscapedIsRender(s);
    UnescapeRenderChars(s);
  }

  // ---------------------------------------------------------------------------------------
  // The two list patterns.

  predicate IsBulletMark(c: char) {
    c == '\U{2022}' || c == '-' || c == '*'
  }

  predicate IsDigit(c: char) {
    '0' <= c <= '9'
  }

  predicate AllDigits(s: string) {
    forall i :: 0 <= i < |s| ==> IsDigit(s[i])
  }

  /** What `^[•\-\*]\s+(.*)$` captures in a trimmed line, if it matches. */
  function BulletItem(t: string): Option<string> {
    if |t| >= 2 && IsBulletMark(t[0]) && IsSpace(t[1]) && NoLineTerminator(TrimStart(t[1..]))
    then Some(TrimStart(t[1..]))
    else None
  }

  /** The number of leading ASCII digits. */
  function LeadingDigits(t: string): (d: nat)
    ensures d <= |t|
    ensures AllDigits(t[..d])
    ensures d == |t| || !IsDigit(t[d])
    decreases |t|
  {
    if t != [] && IsDigit(t[0]) then
      var d := LeadingDigits(t[1..]);
      assert t[..d + 1] == [t[0]] + t[1..][..d];
      1 + d
    else 0
  }

  /** What `^(\d+)\.\s+(.*)$` captures as its second group in a trimmed line, if it matches. */
  function NumberedItem(t: string): Option<string> {
    var d := LeadingDigits(t);
    if d >= 1 && d + 2 <= |t| && t[d] == '.' && IsSpace(t[d + 1]) && NoLineTerminator(TrimStart(t[d + 1..]))
    then Some(TrimStart(t[d + 1..]))
    else None
  }

  /** `t[1..k]` is the `\s+` of the bullet pattern and `t[k..]` its `(.*)`. */
  predicate BulletSplit(t: string, k: int) {
    2 <= k <= |t| && IsBulletMark(t[0]) && AllSpace(t[1..k]) && NoLineTerminator(t[k..])
  }

  /** `t[..d]` is the `(\d+)`, `t[d]` the dot, `t[d + 1..k]` the `\s+` and `t[k..]` the `(.*)`. */
  predicate NumberedSplit(t: string, d: int, k: int) {
    1 <= d && d + 2 <= k <= |t| && AllDigits(t[..d]) && t[d] == '.'
    && AllSpace(t[d + 1..k]) && NoLineTerminator(t[k..])
  }

  /** Text after leading white space: whatever the split point, trimming lands inside its tail. */
  lemma TailAfterSpace(t: string, j: nat, k: nat)
    requires j < k <= |t| && AllSpace(t[j..k]) && NoLineTerminator(t[k..])
    ensures NoLineTerminator(TrimStart(t[j..]))
  {
    var s := t[j..];
    assert s[..k - j] == t[j..k];
    TrimStartSkips(s, k - j);
    var n := LeadingSpace(s);
    assert n - (k - j) <= |t| - k;
    assert TrimStart(s) == t[k..][n - (k - j)..];
    SuffixNoLineTerminator(t[k..], n - (k - j));
  }

  lemma SuffixNoLineTerminator(s: string, m: nat)
    requires m <= |s| && NoLineTerminator(s)
    ensures NoLineTerminator(s[m..])
  {
    forall i | 0 <= i < |s| - m ensures !IsLineTerminator(s[m..][i]) {
      assert s[m..][i] == s[m + i];
    }
  }

  /** Trimming after a white-space character yields a split point of the pattern. */
  lemma SplitAfterSpace(t: string, j: nat, k: int)
    requires j < |t| && IsSpace(t[j]) && k == j + LeadingSpace(t[j..])
    ensures j < k <= |t| && AllSpace(t[j..k]) && t[k..] == TrimStart(t[j..])
  {
    var s := t[j..];
    assert s[0] == t[j];
    assert t[j..k] == s[..k - j];
    assert t[k..] == s[k - j..];
  }

  /**
   * BulletItem is the regular expression: a mark, one or more white-space characters, then
   * text without line terminators. The greedy `\s+` leaves the capture without leading
   * white space.
   */
  lemma BulletItemIsPattern(t: string)
    ensures BulletItem(t).Some? <==> exists k :: BulletSplit(t, k)
    ensures BulletItem(t).Some? ==> BulletItem(t).value == [] || !IsSpace(BulletItem(t).value[0])
  {
    if BulletItem(t).Some? {
      var s := t[1..];
      SplitAfterSpace(t, 1, 1 + LeadingSpace(s));
      assert BulletSplit(t, 1 + LeadingSpace(s));
      assert TrimStart(s) == [] || TrimStart(s)[0] == s[LeadingSpace(s)];
    }
    if exists k :: BulletSplit(t, k) {
      var k :| BulletSplit(t, k);
      TailAfterSpace(t, 1, k);
      assert IsSpace(t[1..k][0]);
    }
  }

  /** NumberedItem is the regular expression: digits, a dot, white space, then text without line terminators. */
  lemma NumberedItemIsPattern(t: string)
    ensures NumberedItem(t).Some? <==> exists d, k :: NumberedSplit(t, d, k)
  {
    if NumberedItem(t).Some? {
      NumberedToSplit(t);
    }
    if exists d, k :: NumberedSplit(t, d, k) {
      var d, k :| NumberedSplit(t, d, k);
      NumberedFromSplit(t, d, k);
    }
  }

  lemma NumberedToSplit(t: string)
    requires NumberedItem(t).Some?
    ensures NumberedSplit(t, LeadingDigits(t), LeadingDigits(t) + 1 + LeadingSpace(t[LeadingDigits(t) + 1..]))
  {
    var d := LeadingDigits(t);
    SplitAfterSpace(t, d + 1, d + 1 + LeadingSpace(t[d + 1..]));
  }

  lemma NumberedFromSplit(t: string, d: int, k: int)
    requires NumberedSplit(t, d, k)
    ensures NumberedItem(t).Some?
  {
    DigitRunEnds(t, d);
    TailAfterSpace(t, d + 1, k);
    assert IsSpace(t[d + 1..k][0]);
  }

  /** A run of digits followed by a non-digit is the whole leading digit run. */
  lemma DigitRunEnds(t: string, d: nat)
    requires d < |t| && AllDigits(t[..d]) && !IsDigit(t[d])
    ensures LeadingDigits(t) == d
  {
  }

  /** No line matches both patterns, so the bullet check taking precedence never hides a numbered list. */
  lemma PatternsExclusive(t: string)
    ensures !(BulletItem(t).Some? && NumberedItem(t).Some?)
  {
  }

  // ---------------------------------------------------------------------------------------
  // parseBodyForLists.

  datatype ListKind = Bullets | Numbers

  function ItemOf(kind: ListKind, t: string): Option<string> {
    match kind
    case Bullets => BulletItem(t)
    case Numbers => NumberedItem(t)
  }

  /** A blank line, or one that, trimmed, matches the kind's pattern. */
  predicate IsItemLine(line: string, kind: ListKind) {
    Trim(line) != [] ==> ItemOf(kind, Trim(line)).Some?
  }

  /**
   * Every non-blank line, trimmed, matches the kind's pattern: the flag the loop of
   * parseBodyForLists keeps, line by line (AllItemsAt reads it back for one line).
   */
  predicate AllItems(lines: seq<string>, kind: ListKind)
    decreases |lines|
  {
    lines == [] || (AllItems(lines[..|lines| - 1], kind) && IsItemLine(lines[|lines| - 1], kind))
  }

  lemma {:induction false} AllItemsAt(lines: seq<string>, kind: ListKind, i: nat)
    requires AllItems(lines, kind) && i < |lines|
    ensures IsItemLine(lines[i], kind)
    decreases |lines|
  {
    if i < |lines| - 1 {
      var init := lines[..|lines| - 1];
      AllItemsAt(init, kind, i);
      assert init[i] == lines[i];
    }
  }

  predicate SomeNonBlank(lines: seq<string>) {
    exists i :: 0 <= i < |lines| && Trim(lines[i]) != []
  }

  /** The captured item text of each non-blank line that matches, in order. */
  function Captures(lines: seq<string>, kind: ListKind): seq<string>
    decreases |lines|
  {
    if lines == [] then []
    else
      var init := Captures(lines[..|lines| - 1], kind);
      var t := Trim(lines[|lines| - 1]);
      if t != [] && ItemOf(kind, t).Some? then init + [ItemOf(kind, t).value] else init
  }

  function NonBlankCount(lines: seq<string>): nat
    decreases |lines|
  {
    if lines == [] then 0
    else NonBlankCount(lines[..|lines| - 1]) + (if Trim(lines[|lines| - 1]) != [] then 1 else 0)
  }

  function Li(c: string): string {
    "<li>" + EscapeHtml(c) + "</li>"
  }

  /** The list items, each escaped in an `<li>` element, concatenated. */
  function LiItems(cs: seq<string>): string
    decreases |cs|
  {
    if cs == [] then [] else Li(cs[0]) + LiItems(cs[1..])
  }

  /** The whole output of parseBodyForLists. */
  function BodyHtml(text: string): string {
    if text == [] then []
    else
      var lines := SplitLines(text);
      if AllItems(lines, Bullets) && SomeNonBlank(lines) then "<ul>" + LiItems(Captures(lines, Bullets)) + "</ul>"
      else if AllItems(lines, Numbers) && SomeNonBlank(lines) then "<ol>" + LiItems(Captures(lines, Numbers)) + "</ol>"
      else BreakLines(EscapeHtml(text))
  }

  lemma {:induction false} LiItemsAppend(cs: seq<string>, c: string)
    ensures LiItems(cs + [c]) == LiItems(cs) + Li(c)
    decreases |cs|
  {
    if cs == [] {
      assert LiItems([c]) == Li(c) + LiItems([]);
    } else {
      assert (cs + [c])[1..] == cs[1..] + [c];
      LiItemsAppend(cs[1..], c);
    }
  }

  /**
   * `parseBodyForLists`: the loop over the lines decides whether the text is a bullet list
   * or a numbered list; the items are then filtered, mapped and joined.
   */
  method ParseBodyForLists(text: string) returns (html: string)
    ensures html == BodyHtml(text)
  {
    if text == [] {
      return [];
    }
    var lines := SplitLines(text);
    var isBulletList, isNumberedList := true, true;
    var i := 0;
    while i < |lines|
      invariant 0 <= i <= |lines|
      invariant isBulletList == AllItems(lines[..i], Bullets)
      invariant isNumberedList == AllItems(lines[..i], Numbers)
    {
      assert lines[..i + 1][..i] == lines[..i];
      var trimmed := Trim(lines[i]);
      if trimmed != [] {
        if BulletItem(trimmed).None? {
          isBulletList := false;
        }
        if NumberedItem(trimmed).None? {
          isNumberedList := false;
        }
      }
      i := i + 1;
    }
    assert lines[..|lines|] == lines;
    if isBulletList && SomeNonBlank(lines) {
      var items := JoinItems(lines, Bullets);
      return "<ul>" + items + "</ul>";
    }
    if isNumberedList && SomeNonBlank(lines) {
      var items := JoinItems(lines, Numbers);
      return "<ol>" + items + "</ol>";
    }
    html := BreakLines(EscapeHtml(text));
  }

  /** `lines.filter(nonBlank).map(toLi).join('')`. */
  method JoinItems(lines: seq<string>, kind: ListKind) returns (items: string)
    ensures items == LiItems(Captures(lines, kind))
  {
    items := [];
    var i := 0;
    while i < |lines|
      invariant 0 <= i <= |lines|
      invariant items == LiItems(Captures(lines[..i], kind))
    {
      assert lines[..i + 1][..i] == lines[..i];
      var t := Trim(lines[i]);
      if t != [] {
        var m := ItemOf(kind, t);
        if m.Some? {
          LiItemsAppend(Captures(lines[..i], kind), m.value);
          items := items + Li(m.value);
        }
      }
      i := i + 1;
    }
    assert lines[..|lines|] == lines;
  }

  // ---------------------------------------------------------------------------------------
  // What the rendering promises.

  datatype Listing = Listing(kind: ListKind, items: seq<string>)

  /** The position of the first '<', or -1. */
  function FirstLt(s: string): (k: int)
    ensures -1 <= k < |s|
    ensures k >= 0 ==> s[k] == '<'
    ensures forall j :: 0 <= j < |s| && (k < 0 || j < k) ==> s[j] != '<'
    decreases |s|
  {
    if s == [] then -1
    else if s[0] == '<' then 0
    else
      var k := FirstLt(s[1..]);
      if k < 0 then -1 else k + 1
  }

  /** Reads a run of `<li>…</li>` elements back into the item texts. */
  function ReadItems(h: string): Option<seq<string>>
    decreases |h|
  {
    if h == [] then Some([])
    else if "<li>" <= h then
      var body := h[4..];
      var k := FirstLt(body);
      if k >= 0 && "</li>" <= body[k..] then
        match ReadItems(body[k..][5..])
        case None => None
        case Some(rest) => Some([Unescape(body[..k])] + rest)
      else None
    else None
  }

  /** Reads a `<ul>` or `<ol>` element back into its kind and item texts. */
  function ReadList(h: string): Option<Listing> {
    if |h| < 9 then None
    else
      var kind := if h[..4] == "<ul>" && h[|h| - 5..] == "</ul>" then Some(Bullets)
                  else if h[..4] == "<ol>" && h[|h| - 5..] == "</ol>" then Some(Numbers)
                  else None;
      match (kind, ReadItems(h[4..|h| - 5]))
      case (Some(k), Some(items)) => Some(Listing(k, items))
      case _ => None
  }

  /** Reading one `<li>` element whose escaped text has no '<'. */
  lemma ReadOneItem(e: string, rest: string)
    requires '<' !in e
    ensures ReadItems("<li>" + e + "</li>" + rest) ==
      match ReadItems(rest)
      case None => None
      case Some(xs) => Some([Unescape(e)] + xs)
  {
    var h := "<li>" + e + "</li>" + rest;
    assert h[..4] == "<li>";
    var body := h[4..];
    assert body == e + "</li>" + rest;
    assert body[|e|] == '<';
    assert FirstLt(body) == |e|;
    assert body[..|e|] == e;
    assert body[|e|..] == "</li>" + rest;
    assert body[|e|..][..5] == "</li>";
    assert body[|e|..][5..] == rest;
  }

  lemma {:induction false} ReadLiItems(cs: seq<string>)
    ensures ReadItems(LiItems(cs)) == Some(cs)
    decreases |cs|
  {
    if cs != [] {
      ReadLiItems(cs[1..]);
      ReadLiStep(cs[0], LiItems(cs[1..]), cs[1..]);
      assert cs == [cs[0]] + cs[1..];
    }
  }

  /** One `<li>` element in front of items that read back. */
  lemma ReadLiStep(c: string, rest: string, more: seq<string>)
    requires ReadItems(rest) == Some(more)
    ensures ReadItems(Li(c) + rest) == Some([c] + more)
  {
    var e := EscapeHtml(c);
    EscapedHasNoBrackets(c);
    EscapeRoundTrip(c);
    assert Li(c) + rest == "<li>" + e + "</li>" + rest;
    ReadOneItem(e, rest);
  }

  lemma {:induction false} CapturesCount(lines: seq<string>, kind: ListKind)
    requires AllItems(lines, kind)
    ensures |Captures(lines, kind)| == NonBlankCount(lines)
    decreases |lines|
  {
    if lines != [] {
      CapturesCount(lines[..|lines| - 1], kind);
    }
  }

  /**
   * When every non-blank line is an item of one kind, the output is a list of that kind
   * with one item per non-blank line: the text each line's pattern captured, in order.
   */
  lemma ListReadsBack(text: string, kind: ListKind)
    requires text != []
    requires AllItems(SplitLines(text), kind) && SomeNonBlank(SplitLines(text))
    ensures ReadList(BodyHtml(text)) == Some(Listing(kind, Captures(SplitLines(text), kind)))
    ensures |Captures(SplitLines(text), kind)| == NonBlankCount(SplitLines(text))
  {
    var lines := SplitLines(text);
    var cs := Captures(lines, kind);
    BodyIsList(text, kind);
    ReadLiItems(cs);
    ReadWrapped(kind, LiItems(cs));
    CapturesCount(lines, kind);
  }

  function OpenTag(kind: ListKind): string {
    if kind == Bullets then "<ul>" else "<ol>"
  }

  function CloseTag(kind: ListKind): string {
    if kind == Bullets then "</ul>" else "</ol>"
  }

  lemma BodyIsList(text: string, kind: ListKind)
    requires text != []
    requires AllItems(SplitLines(text), kind) && SomeNonBlank(SplitLines(text))
    ensures BodyHtml(text) == OpenTag(kind) + LiItems(Captures(SplitLines(text), kind)) + CloseTag(kind)
  {
    var lines := SplitLines(text);
    if kind == Numbers {
      var i :| 0 <= i < |lines| && Trim(lines[i]) != [];
      AllItemsAt(lines, Numbers, i);
      PatternsExclusive(Trim(lines[i]));
      if AllItems(lines, Bullets) {
        AllItemsAt(lines, Bullets, i);
      }
    }
  }

  lemma ReadWrapped(kind: ListKind, inner: string)
    ensures ReadList(OpenTag(kind) + inner + CloseTag(kind)) ==
      match ReadItems(inner)
      case None => None
      case Some(items) => Some(Listing(kind, items))
  {
    var h := OpenTag(kind) + inner + CloseTag(kind);
    assert h[..4] == OpenTag(kind);
    assert h[|h| - 5..] == CloseTag(kind);
    assert h[4..|h| - 5] == inner;
  }

  /** When the text is not a list, its rendering reads back as the text itself. */
  lemma PlainReadsBack(text: string)
    requires !(AllItems(SplitLines(text), Bullets) && SomeNonBlank(SplitLines(text)))
    requires !(AllItems(SplitLines(text), Numbers) && SomeNonBlank(SplitLines(text)))
    ensures Unescape(BodyHtml(text)) == text
  {
    if text != [] {
      PlainRoundTrip(text);
    }
  }
}
