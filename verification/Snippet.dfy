/** Rendering untrusted log text as HTML in which only the search highlighting is markup. */
module Snippet {
  import opened Text

  const MARK_START := '\U{01}'
  const MARK_END := '\U{02}'

  function Entity(c: char): string {
    if c == '&' then "&amp;"
    else if c == '\'' then "&#39;"
    else if c == '<' then "&lt;"
    else if c == '>' then "&gt;"
    else if c == '"' then "&#34;"
    else [c]
  }

  /** Go's `html.EscapeString`. */
  function EscapeHtml(s: string): string {
    if s == "" then "" else Entity(s[0]) + EscapeHtml(s[1..])
  }

  function EscapeSnippet(raw: string): string {
    var escaped := EscapeHtml(raw);
    var opened_ := ReplaceAll(escaped, MARK_START, "<mark>");
    ReplaceAll(opened_, MARK_END, "</mark>")
  }

  /** What one raw character becomes. */
  function Piece(c: char): string {
    if c == MARK_START then "<mark>" else if c == MARK_END then "</mark>" else Entity(c)
  }

  function Render(raw: string): string {
    if raw == "" then "" else Piece(raw[0]) + Render(raw[1..])
  }

  /** The three whole-string passes amount to one substitution per character: no pass
      disturbs what an earlier one produced. */
  lemma {:induction false} EscapeIsRender(raw: string)
    ensures EscapeSnippet(raw) == Render(raw)
  {
    if raw != "" {
      EscapeIsRender(raw[1..]);
      var e, rest := Entity(raw[0]), EscapeHtml(raw[1..]);
      ReplaceAllConcat(e, rest, MARK_START, "<mark>");
      var e', rest' := ReplaceAll(e, MARK_START, "<mark>"), ReplaceAll(rest, MARK_START, "<mark>");
      ReplaceAllConcat(e', rest', MARK_END, "</mark>");
      Rendered(raw[0], "<mark>", "</mark>");
    }
  }

  lemma EntityPlain(c: char)
    ensures c != MARK_START ==> MARK_START !in Entity(c)
    ensures c != MARK_END ==> MARK_END !in Entity(c)
  {
  }

  lemma SentinelReplaced(s: string, c: char, tag: string)
    requires s == [c]
    ensures ReplaceAll(s, c, tag) == tag
  {
    assert s[1..] == "";
  }

  lemma Rendered(c: char, start: string, end: string)
    requires MARK_END !in start
    ensures ReplaceAll(ReplaceAll(Entity(c), MARK_START, start), MARK_END, end)
         == if c == MARK_START then start else if c == MARK_END then end else Entity(c)
  {
    EntityPlain(c);
    if c == MARK_START {
      SentinelReplaced(Entity(c), c, start);
      ReplaceAllAbsent(start, MARK_END, end);
    } else {
      ReplaceAllAbsent(Entity(c), MARK_START, start);
      if c == MARK_END { SentinelReplaced(Entity(c), c, end); } else { ReplaceAllAbsent(Entity(c), MARK_END, end); }
    }
  }

  /** Undoes tags and entities from left to right. */
  function Unrender(s: string): string {
    if s == "" then ""
    else if "<mark>" <= s then [MARK_START] + Unrender(s[6..])
    else if "</mark>" <= s then [MARK_END] + Unrender(s[7..])
    else if "&amp;" <= s then "&" + Unrender(s[5..])
    else if "&#39;" <= s then "'" + Unrender(s[5..])
    else if "&lt;" <= s then "<" + Unrender(s[4..])
    else if "&gt;" <= s then ">" + Unrender(s[4..])
    else if "&#34;" <= s then ['"'] + Unrender(s[5..])
    else [s[0]] + Unrender(s[1..])
  }

  lemma NotPrefix(p: string, s: string, i: nat)
    requires i < |p| && i < |s| && p[i] != s[i]
    ensures !(p <= s)
  {
  }

  lemma UnrenderTags(rest: string)
    ensures Unrender("<mark>" + rest) == [MARK_START] + Unrender(rest)
    ensures Unrender("</mark>" + rest) == [MARK_END] + Unrender(rest)
  {
    var s, t := "<mark>" + rest, "</mark>" + rest;
    assert "<mark>" <= s && s[6..] == rest;
    assert "</mark>" <= t && t[7..] == rest && t[1] == '/' && "<mark>"[1] == 'm';
  }

  lemma UnrenderAmpersand(rest: string)
    ensures Unrender("&amp;" + rest) == "&" + Unrender(rest)
    ensures Unrender("&#39;" + rest) == "'" + Unrender(rest)
  {
    var s, t := "&amp;" + rest, "&#39;" + rest;
    assert s[0] == '&' && "&amp;" <= s && s[5..] == rest;
    assert t[0] == '&' && t[1] == '#' && "&#39;" <= t && t[5..] == rest;
  }

  lemma UnrenderAngles(rest: string)
    ensures Unrender("&lt;" + rest) == "<" + Unrender(rest)
    ensures Unrender("&gt;" + rest) == ">" + Unrender(rest)
  {
    var s, t := "&lt;" + rest, "&gt;" + rest;
    assert s[0] == '&' && s[1] == 'l' && "&lt;" <= s && s[4..] == rest;
    assert t[0] == '&' && t[1] == 'g' && "&gt;" <= t && t[4..] == rest;
  }

  lemma UnrenderQuote(rest: string)
    ensures Unrender("&#34;" + rest) == ['"'] + Unrender(rest)
  {
    var s := "&#34;" + rest;
    assert s[0] == '&' && s[1] == '#' && s[3] == '4' && "&#34;" <= s && s[5..] == rest;
    NotPrefix("&#39;", s, 3);
  }

  lemma UnrenderOther(c: char, rest: string)
    requires c != '<' && c != '&'
    ensures Unrender([c] + rest) == [c] + Unrender(rest)
  {
    var s := [c] + rest;
    assert s[0] == c && s[1..] == rest;
    NotPrefix("<mark>", s, 0); NotPrefix("</mark>", s, 0); NotPrefix("&amp;", s, 0); NotPrefix("&#39;", s, 0);
    NotPrefix("&lt;", s, 0); NotPrefix("&gt;", s, 0); NotPrefix("&#34;", s, 0);
  }

  lemma UnrenderPiece(c: char, rest: string)
    ensures Unrender(Piece(c) + rest) == [c] + Unrender(rest)
  {
    if c == MARK_START || c == MARK_END { UnrenderTags(rest); }
    else if c == '&' || c == '\'' { UnrenderAmpersand(rest); }
    else if c == '<' || c == '>' { UnrenderAngles(rest); }
    else if c == '"' { UnrenderQuote(rest); }
    else { UnrenderOther(c, rest); }
  }

  lemma {:induction false} UnrenderRender(raw: string)
    ensures Unrender(Render(raw)) == raw
  {
    if raw != "" {
      UnrenderRender(raw[1..]);
      UnrenderPiece(raw[0], Render(raw[1..]));
      assert raw == [raw[0]] + raw[1..];
    }
  }

  /** Nothing of the line is lost: tags and entities undone, the raw text is back. */
  lemma SnippetRoundTrip(raw: string)
    ensures Unrender(EscapeSnippet(raw)) == raw
  {
    EscapeIsRender(raw);
    UnrenderRender(raw);
  }

  predicate IsSentinel(c: char) { c == MARK_START || c == MARK_END }

  lemma PieceMarkup(c: char, i: nat)
    requires i < |Piece(c)|
    ensures Piece(c)[i] !in {'"', '\''}
    ensures Piece(c)[i] == '<' ==> i == 0 && IsSentinel(c)
  {
  }

  /** Every '<' of the output opens the tag of one particular sentinel of the input, and no
      quote of the input survives. */
  lemma {:induction false} MarkupOnlyFromSentinels(raw: string, i: nat) returns (j: nat)
    requires i < |Render(raw)|
    ensures Render(raw)[i] !in {'"', '\''}
    ensures Render(raw)[i] == '<' ==>
      j < |raw| && IsSentinel(raw[j]) && i == |Render(raw[..j])| && Piece(raw[j]) <= Render(raw)[i..]
  {
    var p, rest := Piece(raw[0]), Render(raw[1..]);
    if i < |p| {
      j := 0;
      assert Render(raw)[i] == p[i];
      PieceMarkup(raw[0], i);
      if p[i] == '<' { assert Render(raw)[i..] == p + rest; }
    } else {
      var k := MarkupOnlyFromSentinels(raw[1..], i - |p|);
      j := k + 1;
      assert Render(raw)[i] == rest[i - |p|];
      if rest[i - |p|] == '<' {
        assert raw[..j][0] == raw[0] && raw[..j][1..] == raw[1..][..k];
        assert Render(raw)[i..] == rest[i - |p|..];
      }
    }
  }
}
