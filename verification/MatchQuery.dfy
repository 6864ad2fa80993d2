/** Turning a search box's text into an FTS5 query that takes every word literally. */
module MatchQuery {
  import opened Text

  /** Go's `unicode.IsSpace`. */
  predicate IsSpace(c: char) {
    var n := c as int;
    9 <= n <= 13 || n in {0x20, 0x85, 0xA0, 0x1680, 0x2028, 0x2029, 0x202F, 0x205F, 0x3000} || 0x2000 <= n <= 0x200A
  }

  predicate IsWord(s: string) { s != "" && forall i :: 0 <= i < |s| ==> !IsSpace(s[i]) }

  function WordEnd(s: string): (k: nat)
    ensures k <= |s| && (forall i :: 0 <= i < k ==> !IsSpace(s[i])) && (k < |s| ==> IsSpace(s[k]))
    ensures s != "" && !IsSpace(s[0]) ==> IsWord(s[..k])
  {
    if s == "" || IsSpace(s[0]) then 0 else 1 + WordEnd(s[1..])
  }

  /** Go's `strings.Fields`: the maximal runs of characters that are not white space. */
  function Fields(s: string): seq<string>
    decreases |s|
  {
    if s == "" then []
    else if IsSpace(s[0]) then Fields(s[1..])
    else [s[..WordEnd(s)]] + Fields(s[WordEnd(s)..])
  }

  function Quote(field: string): string { "\"" + ReplaceAll(field, '"', "\"\"") + "\"" }

  function QuoteAll(fields: seq<string>): seq<string> {
    if fields == [] then [] else [Quote(fields[0])] + QuoteAll(fields[1..])
  }

  /** Go's `strings.Join` with a blank. */
  function Join(ss: seq<string>): string {
    if ss == [] then "" else if |ss| == 1 then ss[0] else ss[0] + (" " + Join(ss[1..]))
  }

  function Sanitized(query: string): string { Join(QuoteAll(Fields(query))) }

  /** `sanitizeMatchQuery`: the fields are quoted in place, one after the other. */
  method SanitizeMatchQuery(query: string) returns (match_: string)
    ensures match_ == Sanitized(query)
  {
    var fields := Fields(query);
    ghost var original := fields;
    for i := 0 to |fields|
      invariant |fields| == |original|
      invariant forall k :: 0 <= k < i ==> fields[k] == Quote(original[k])
      invariant forall k :: i <= k < |fields| ==> fields[k] == original[k]
    {
      fields := fields[i := "\"" + ReplaceAll(fields[i], '"', "\"\"") + "\""];
    }
    QuoteAllAt(original);
    assert fields == QuoteAll(original);
    match_ := Join(fields);
  }

  lemma {:induction false} QuoteAllAt(fields: seq<string>)
    ensures |QuoteAll(fields)| == |fields|
    ensures forall k :: 0 <= k < |fields| ==> QuoteAll(fields)[k] == Quote(fields[k])
  {
    if fields != [] { QuoteAllAt(fields[1..]); }
  }

  // ---- how FTS5 reads it ----

  /** The rest of a string literal after its opening quote: a doubled quote stands for one. */
  function ReadString(s: string): (r: Option<(string, string)>)
    ensures r.Some? ==> |r.value.1| < |s|
  {
    if s == "" then None
    else if s[0] != '"' then
      match ReadString(s[1..])
      case None => None
      case Some((text, rest)) => Some(([s[0]] + text, rest))
    else if |s| > 1 && s[1] == '"' then
      match ReadString(s[2..])
      case None => None
      case Some((text, rest)) => Some(("\"" + text, rest))
    else Some(("", s[1..]))
  }

  /** A query made only of string literals, as the list of phrases it asks for. */
  function ReadPhrases(s: string): Option<seq<string>>
    decreases |s|
  {
    if s == "" then Some([])
    else if s[0] in {' ', '\t', '\n', '\r'} then ReadPhrases(s[1..])
    else if s[0] != '"' then None
    else match ReadString(s[1..])
      case None => None
      case Some((text, rest)) =>
        match ReadPhrases(rest)
        case None => None
        case Some(phrases) => Some([text] + phrases)
  }

  lemma {:induction false} ReadStringOfQuoted(field: string, rest: string)
    requires rest == "" || rest[0] != '"'
    ensures ReadString(ReplaceAll(field, '"', "\"\"") + ("\"" + rest)) == Some((field, rest))
  {
    var tail := "\"" + rest;
    if field == "" {
      assert "" + tail == tail;
      assert tail[1..] == rest;
    } else {
      ReadStringOfQuoted(field[1..], rest);
      var head := if field[0] == '"' then "\"\"" else [field[0]];
      var more := ReplaceAll(field[1..], '"', "\"\"") + tail;
      assert ReplaceAll(field, '"', "\"\"") + tail == head + more;
      assert (head + more)[|head|..] == more;
      assert field == [field[0]] + field[1..];
    }
  }

  lemma ReadQuoted(field: string, rest: string, phrases: seq<string>)
    requires (rest == "" || rest[0] == ' ') && ReadPhrases(rest) == Some(phrases)
    ensures ReadPhrases(Quote(field) + rest) == Some([field] + phrases)
  {
    var body := ReplaceAll(field, '"', "\"\"") + ("\"" + rest);
    assert Quote(field) + rest == "\"" + body;
    assert ("\"" + body)[1..] == body;
    ReadStringOfQuoted(field, rest);
  }

  lemma ReadBlank(rest: string)
    ensures ReadPhrases(" " + rest) == ReadPhrases(rest)
  {
    assert (" " + rest)[1..] == rest;
  }

  lemma JoinCons(first: string, rest: seq<string>)
    ensures Join([first] + rest) == first + (if rest == [] then "" else " " + Join(rest))
  {
    assert ([first] + rest)[1..] == rest;
    assert first + "" == first;
  }

  lemma JoinQuoted(fields: seq<string>)
    requires fields != []
    ensures Join(QuoteAll(fields))
         == Quote(fields[0]) + (if |fields| == 1 then "" else " " + Join(QuoteAll(fields[1..])))
  {
    QuoteAllAt(fields[1..]);
    JoinCons(Quote(fields[0]), QuoteAll(fields[1..]));
  }

  /** Reading the sanitized query back gives exactly its fields, in order, however many
      quotes and operators they contain. */
  lemma {:induction false} PhrasesAreFields(fields: seq<string>)
    ensures ReadPhrases(Join(QuoteAll(fields))) == Some(fields)
  {
    if fields != [] {
      var more := Join(QuoteAll(fields[1..]));
      PhrasesAreFields(fields[1..]);
      ReadBlank(more);
      JoinQuoted(fields);
      ReadQuoted(fields[0], if |fields| == 1 then "" else " " + more, fields[1..]);
      assert fields == [fields[0]] + fields[1..];
    }
  }

  lemma SanitizedRoundTrip(query: string)
    ensures ReadPhrases(Sanitized(query)) == Some(Fields(query))
  {
    PhrasesAreFields(Fields(query));
  }

  function WithoutSpaces(s: string): string {
    if s == "" then "" else (if IsSpace(s[0]) then "" else [s[0]]) + WithoutSpaces(s[1..])
  }

  lemma {:induction false} WithoutSpacesConcat(a: string, b: string)
    requires IsWord(a)
    ensures WithoutSpaces(a + b) == a + WithoutSpaces(b)
  {
    if |a| == 1 {
      assert (a + b)[1..] == b;
    } else {
      WithoutSpacesConcat(a[1..], b);
      assert (a + b)[1..] == a[1..] + b;
      assert a == [a[0]] + a[1..];
    }
  }

  predicate Blank(s: string) { forall i :: 0 <= i < |s| ==> IsSpace(s[i]) }

  /** Each field followed by its gap. */
  function Weave(fields: seq<string>, gaps: seq<string>): string
    requires |gaps| == |fields|
  {
    if fields == [] then "" else fields[0] + (gaps[0] + Weave(fields[1..], gaps[1..]))
  }

  /** The k-th gap is white space, and some unless it is the last. */
  predicate IsGap(gaps: seq<string>, k: nat)
    requires k < |gaps|
  {
    Blank(gaps[k]) && (k < |gaps| - 1 ==> gaps[k] != "")
  }

  predicate Separate(gaps: seq<string>) { forall k :: 0 <= k < |gaps| ==> IsGap(gaps, k) }

  lemma WeaveCons(field: string, gap: string, fields: seq<string>, gaps: seq<string>)
    requires |gaps| == |fields|
    ensures Weave([field] + fields, [gap] + gaps) == field + (gap + Weave(fields, gaps))
  {
    assert ([gap] + gaps)[1..] == gaps && ([field] + fields)[1..] == fields;
  }

  lemma SeparateCons(gap: string, gaps: seq<string>)
    requires Separate(gaps) && Blank(gap) && (gaps != [] ==> gap != "")
    ensures Separate([gap] + gaps)
  {
    var all := [gap] + gaps;
    forall k | 0 <= k < |all| ensures IsGap(all, k) {
      if k > 0 { assert IsGap(gaps, k - 1) && all[k] == gaps[k - 1]; }
    }
  }

  /** A text is white space and then its fields, each with the white space that follows it, of
      which there is some between any two: no word is cut in two, and no two are joined. */
  lemma {:induction false} FieldsSeparated(s: string) returns (lead: string, gaps: seq<string>)
    ensures |gaps| == |Fields(s)| && Separate(gaps) && Blank(lead) && s == lead + Weave(Fields(s), gaps)
    ensures s != "" && IsSpace(s[0]) ==> lead != ""
    decreases |s|
  {
    if s == "" {
      lead, gaps := "", [];
    } else if IsSpace(s[0]) {
      lead, gaps := FieldsSeparated(s[1..]);
      assert s == [s[0]] + s[1..];
      LeadMore(s[0], lead, Weave(Fields(s), gaps));
      lead := [s[0]] + lead;
    } else {
      var k := WordEnd(s);
      var gap, rest := FieldsSeparated(s[k..]);
      assert s == s[..k] + s[k..];
      SeparateCons(gap, rest);
      WeaveCons(s[..k], gap, Fields(s[k..]), rest);
      lead, gaps := "", [gap] + rest;
    }
  }

  lemma LeadMore(space: char, lead: string, rest: string)
    requires IsSpace(space) && Blank(lead)
    ensures Blank([space] + lead) && [space] + (lead + rest) == [space] + lead + rest
  {
  }

  /** The fields are nonempty, contain no white space, and leave nothing else out. */
  lemma {:induction false} FieldsComplete(s: string)
    ensures Flatten(Fields(s)) == WithoutSpaces(s)
    ensures forall k :: 0 <= k < |Fields(s)| ==> IsWord(Fields(s)[k])
    decreases |s|
  {
    if s != "" {
      if IsSpace(s[0]) {
        FieldsComplete(s[1..]);
      } else {
        var word, rest := s[..WordEnd(s)], s[WordEnd(s)..];
        FieldsComplete(rest);
        WithoutSpacesConcat(word, rest);
        assert s == word + rest && Fields(s) == [word] + Fields(rest);
        assert Fields(s)[1..] == Fields(rest);
      }
    }
  }

  /** The ASCII blanks and controls, no-break and wide spaces all separate two words. */
  lemma WhiteSpaceSeparates(a: string, space: char, b: string)
    requires IsWord(a) && IsWord(b)
    requires space in {'\t', '\n', '\U{0B}', '\U{0C}', '\r', ' ', '\U{85}', '\U{A0}', '\U{2003}', '\U{3000}'}
    ensures Fields(a + [space] + b) == [a, b]
  {
    var s := a + [space] + b;
    assert s[|a|] == space && IsSpace(space);
    assert forall i :: 0 <= i < |a| ==> s[i] == a[i];
    assert WordEnd(s) == |a|;
    assert s[..|a|] == a && s[|a|..] == [space] + b && s[|a|..][1..] == b;
    assert WordEnd(b) == |b| && b[..|b|] == b && b[|b|..] == "";
    assert Fields(b) == [b];
  }
}
