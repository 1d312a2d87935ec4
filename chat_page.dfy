/**
 * The two pieces of logic in the chat page's script (static/js/app.js): the
 * HTML escaper applied to every message before it is inserted into the page,
 * and the guard that refuses a blank question before anything is sent.
 */
module ChatPage {
  import opened Strings

  // ---------------------------------------------------------------------------
  // escapeHtml

  /**
   * `.replace(/c/g, entity)` for a replacement holding no `$` (JavaScript would
   * expand `$&`, `$$` and `$n`), as all five entities are: every `c` becomes
   * `entity`, every other character is copied in order.
   */
  function ReplaceAll(s: string, c: char, entity: string): (r: string)
    ensures c !in entity ==> c !in r
    ensures forall d :: d !in s && d !in entity ==> d !in r
    decreases |s|
  {
    if s == [] then []
    else (if s[0] == c then entity else [s[0]]) + ReplaceAll(s[1..], c, entity)
  }

  /**
   * `escapeHtml`: the five global replacements, `&` first.  None of the four
   * markup characters survives.
   */
  function EscapeHtml(unsafe: string): (r: string)
    ensures '<' !in r && '>' !in r && '"' !in r && '\'' !in r
  {
    ReplaceAll(ReplaceAll(ReplaceAll(ReplaceAll(ReplaceAll(
      unsafe, '&', "&amp;"), '<', "&lt;"), '>', "&gt;"), '"', "&quot;"), '\'', "&#039;")
  }

  /** The five characters the escaper rewrites. */
  predicate IsSpecial(c: char) {
    c == '&' || c == '<' || c == '>' || c == '"' || c == '\''
  }

  /** What one character turns into: its entity, or itself. */
  function EntityOf(c: char): (e: string)
    ensures |e| >= 1
    ensures IsSpecial(c) <==> |e| > 1
  {
    match c
    case '&' => "&amp;"
    case '<' => "&lt;"
    case '>' => "&gt;"
    case '"' => "&quot;"
    case '\'' => "&#039;"
    case _ => [c]
  }

  /** The escaper read as a per-character map. */
  function EscapeEach(s: string): string
    decreases |s|
  {
    if s == [] then [] else EntityOf(s[0]) + EscapeEach(s[1..])
  }

  /** A global replacement of a concatenation is the concatenation of the replacements. */
  lemma {:induction false} ReplaceAllAppend(a: string, b: string, c: char, entity: string)
    ensures ReplaceAll(a + b, c, entity) == ReplaceAll(a, c, entity) + ReplaceAll(b, c, entity)
    decreases |a|
  {
    if a != [] {
      assert (a + b)[0] == a[0];
      assert (a + b)[1..] == a[1..] + b;
      ReplaceAllAppend(a[1..], b, c, entity);
    } else {
      assert a + b == b;
    }
  }

  /** On one character a replacement gives the entity or the character. */
  lemma ReplaceAllChar(x: char, c: char, entity: string)
    ensures ReplaceAll([x], c, entity) == if x == c then entity else [x]
  {
    assert [x][1..] == [];
  }

  /** Replacing a character that does not occur changes nothing. */
  lemma {:induction false} ReplaceAllAbsent(s: string, c: char, entity: string)
    requires c !in s
    ensures ReplaceAll(s, c, entity) == s
    decreases |s|
  {
    if s != [] {
      ReplaceAllAbsent(s[1..], c, entity);
    }
  }

  /** The escaper distributes over concatenation. */
  lemma EscapeHtmlAppend(a: string, b: string)
    ensures EscapeHtml(a + b) == EscapeHtml(a) + EscapeHtml(b)
  {
    var a1, b1 := ReplaceAll(a, '&', "&amp;"), ReplaceAll(b, '&', "&amp;");
    var a2, b2 := ReplaceAll(a1, '<', "&lt;"), ReplaceAll(b1, '<', "&lt;");
    var a3, b3 := ReplaceAll(a2, '>', "&gt;"), ReplaceAll(b2, '>', "&gt;");
    var a4, b4 := ReplaceAll(a3, '"', "&quot;"), ReplaceAll(b3, '"', "&quot;");
    ReplaceAllAppend(a, b, '&', "&amp;");
    ReplaceAllAppend(a1, b1, '<', "&lt;");
    ReplaceAllAppend(a2, b2, '>', "&gt;");
    ReplaceAllAppend(a3, b3, '"', "&quot;");
    ReplaceAllAppend(a4, b4, '\'', "&#039;");
  }

  /** Replacing in text that holds none of `<`, `>`, `"`, `'` after the first step leaves it alone. */
  lemma EscapeTail(t: string)
    requires '<' !in t && '>' !in t && '"' !in t && '\'' !in t
    ensures ReplaceAll(ReplaceAll(ReplaceAll(ReplaceAll(t, '<', "&lt;"), '>', "&gt;"), '"', "&quot;"), '\'', "&#039;") == t
  {
    ReplaceAllAbsent(t, '<', "&lt;");
    EscapeTail2(t);
  }

  /** The last three steps leave text without `>`, `"` and `'` alone. */
  lemma EscapeTail2(t: string)
    requires '>' !in t && '"' !in t && '\'' !in t
    ensures ReplaceAll(ReplaceAll(ReplaceAll(t, '>', "&gt;"), '"', "&quot;"), '\'', "&#039;") == t
  {
    ReplaceAllAbsent(t, '>', "&gt;");
    ReplaceAllAbsent(t, '"', "&quot;");
    ReplaceAllAbsent(t, '\'', "&#039;");
  }

  lemma EscapeAmpersand()
    ensures EscapeHtml("&") == "&amp;"
  {
    ReplaceAllChar('&', '&', "&amp;");
    EscapeTail("&amp;");
  }

  lemma EscapeLess()
    ensures EscapeHtml("<") == "&lt;"
  {
    ReplaceAllChar('<', '&', "&amp;");
    ReplaceAllChar('<', '<', "&lt;");
    assert ReplaceAll(ReplaceAll("<", '&', "&amp;"), '<', "&lt;") == "&lt;";
    EscapeTail2("&lt;");
  }

  lemma EscapeGreater()
    ensures EscapeHtml(">") == "&gt;"
  {
    ReplaceAllChar('>', '&', "&amp;");
    ReplaceAllChar('>', '<', "&lt;");
    ReplaceAllChar('>', '>', "&gt;");
    ReplaceAllAbsent("&gt;", '"', "&quot;");
    ReplaceAllAbsent("&gt;", '\'', "&#039;");
  }

  lemma EscapeDoubleQuote()
    ensures EscapeHtml("\"") == "&quot;"
  {
    ReplaceAllChar('"', '&', "&amp;");
    ReplaceAllChar('"', '<', "&lt;");
    ReplaceAllChar('"', '>', "&gt;");
    ReplaceAllChar('"', '"', "&quot;");
    ReplaceAllAbsent("&quot;", '\'', "&#039;");
  }

  lemma EscapeSingleQuote()
    ensures EscapeHtml("'") == "&#039;"
  {
    ReplaceAllChar('\'', '&', "&amp;");
    ReplaceAllChar('\'', '<', "&lt;");
    ReplaceAllChar('\'', '>', "&gt;");
    ReplaceAllChar('\'', '"', "&quot;");
    ReplaceAllChar('\'', '\'', "&#039;");
  }

  /** On a single character the chain gives that character's entity: no entity is escaped twice. */
  lemma EscapeHtmlChar(x: char)
    ensures EscapeHtml([x]) == EntityOf(x)
  {
    if !IsSpecial(x) {
      EscapeHtmlIdentity([x]);
    } else if x == '&' {
      EscapeAmpersand();
    } else if x == '<' {
      EscapeLess();
    } else if x == '>' {
      EscapeGreater();
    } else if x == '"' {
      EscapeDoubleQuote();
    } else {
      EscapeSingleQuote();
    }
  }

  /** The chained replacements equal the per-character map. */
  lemma {:induction false} EscapeHtmlIsPerCharacter(s: string)
    ensures EscapeHtml(s) == EscapeEach(s)
    decreases |s|
  {
    if s == [] {
      assert EscapeHtml(s) == [];
    } else {
      assert s == [s[0]] + s[1..];
      EscapeHtmlAppend([s[0]], s[1..]);
      EscapeHtmlChar(s[0]);
      EscapeHtmlIsPerCharacter(s[1..]);
    }
  }

  /** An entity (or any escaped text) starts at index `i` of `r`. */
  predicate EntityAt(r: string, i: nat)
    requires i <= |r|
  {
    IsPrefix("&amp;", r[i..]) || IsPrefix("&lt;", r[i..]) || IsPrefix("&gt;", r[i..]) ||
    IsPrefix("&quot;", r[i..]) || IsPrefix("&#039;", r[i..])
  }

  /** In an entity, or in a one-character image of a plain character, `&` can only stand first. */
  lemma EntityAmpersands(c: char)
    ensures forall i :: 0 < i < |EntityOf(c)| ==> EntityOf(c)[i] != '&'
  {
  }

  /** Every `&` of the per-character map's output begins one of the five entities. */
  lemma {:induction false} EscapeEachAmpersands(s: string)
    ensures forall i :: 0 <= i < |EscapeEach(s)| && EscapeEach(s)[i] == '&' ==> EntityAt(EscapeEach(s), i)
    decreases |s|
  {
    if s != [] {
      var e, t := EntityOf(s[0]), EscapeEach(s[1..]);
      var r := e + t;
      assert EscapeEach(s) == r;
      EscapeEachAmpersands(s[1..]);
      forall i | 0 <= i < |r| && r[i] == '&'
        ensures EntityAt(r, i)
      {
        if i < |e| {
          EntityAmpersands(s[0]);
          assert i == 0 && IsSpecial(s[0]);
          assert r[..|e|] == e;
        } else {
          assert r[i..] == t[i - |e|..];
          assert t[i - |e|] == '&';
        }
      }
    }
  }

  /** Every `&` in the escaper's output begins `&amp;`, `&lt;`, `&gt;`, `&quot;` or `&#039;`. */
  lemma AmpersandsBeginEntities(s: string)
    ensures forall i :: 0 <= i < |EscapeHtml(s)| && EscapeHtml(s)[i] == '&' ==> EntityAt(EscapeHtml(s), i)
  {
    EscapeHtmlIsPerCharacter(s);
    EscapeEachAmpersands(s);
  }

  /** Text without any of the five characters passes through unchanged. */
  lemma EscapeHtmlIdentity(s: string)
    requires forall i :: 0 <= i < |s| ==> !IsSpecial(s[i])
    ensures EscapeHtml(s) == s
  {
    ReplaceAllAbsent(s, '&', "&amp;");
    ReplaceAllAbsent(s, '<', "&lt;");
    ReplaceAllAbsent(s, '>', "&gt;");
    ReplaceAllAbsent(s, '"', "&quot;");
    ReplaceAllAbsent(s, '\'', "&#039;");
  }

  /** The per-character map never shortens, and keeps the length exactly when nothing is special. */
  lemma {:induction false} EscapeEachLength(s: string)
    ensures |EscapeEach(s)| >= |s|
    ensures |EscapeEach(s)| == |s| <==> forall i :: 0 <= i < |s| ==> !IsSpecial(s[i])
    decreases |s|
  {
    if s != [] {
      EscapeEachLength(s[1..]);
      assert forall i :: 1 <= i < |s| ==> s[i] == s[1..][i - 1];
    }
  }

  /** Escaping never shortens a message; it lengthens it exactly when a special character occurs. */
  lemma EscapeHtmlLength(s: string)
    ensures |EscapeHtml(s)| >= |s|
    ensures |EscapeHtml(s)| == |s| <==> forall i :: 0 <= i < |s| ==> !IsSpecial(s[i])
  {
    EscapeHtmlIsPerCharacter(s);
    EscapeEachLength(s);
  }

  /** Reading the five entities back: the inverse of the escaper. */
  function Unescape(s: string): string
    decreases |s|
  {
    if s == [] then []
    else if IsPrefix("&amp;", s) then "&" + Unescape(s[5..])
    else if IsPrefix("&lt;", s) then "<" + Unescape(s[4..])
    else if IsPrefix("&gt;", s) then ">" + Unescape(s[4..])
    else if IsPrefix("&quot;", s) then "\"" + Unescape(s[6..])
    else if IsPrefix("&#039;", s) then "'" + Unescape(s[6..])
    else [s[0]] + Unescape(s[1..])
  }

  /** A plain character is read back as itself: no entity starts without `&`. */
  lemma UnescapePlain(c: char, t: string)
    requires c != '&'
    ensures Unescape([c] + t) == [c] + Unescape(t)
  {
    var s := [c] + t;
    assert s[0] == c;
    assert !IsPrefix("&amp;", s) && !IsPrefix("&lt;", s) && !IsPrefix("&gt;", s);
    assert !IsPrefix("&quot;", s) && !IsPrefix("&#039;", s);
    assert s[1..] == t;
  }

  /** `&amp;` is read back as `&`. */
  lemma UnescapeAmpersand(t: string)
    ensures Unescape("&amp;" + t) == "&" + Unescape(t)
  {
    var s := "&amp;" + t;
    assert s[..5] == "&amp;";
    assert s[5..] == t;
  }

  /** `&lt;` is read back as `<`. */
  lemma UnescapeLess(t: string)
    ensures Unescape("&lt;" + t) == "<" + Unescape(t)
  {
    var s := "&lt;" + t;
    assert s[1] == 'l';
    assert !IsPrefix("&amp;", s);
    assert s[..4] == "&lt;";
    assert s[4..] == t;
  }

  /** `&gt;` is read back as `>`. */
  lemma UnescapeGreater(t: string)
    ensures Unescape("&gt;" + t) == ">" + Unescape(t)
  {
    var s := "&gt;" + t;
    assert s[1] == 'g';
    assert !IsPrefix("&amp;", s) && !IsPrefix("&lt;", s);
    assert s[..4] == "&gt;";
    assert s[4..] == t;
  }

  /** `&quot;` is read back as `"`. */
  lemma UnescapeDoubleQuote(t: string)
    ensures Unescape("&quot;" + t) == "\"" + Unescape(t)
  {
    var s := "&quot;" + t;
    assert s[1] == 'q';
    assert !IsPrefix("&amp;", s) && !IsPrefix("&lt;", s) && !IsPrefix("&gt;", s);
    assert s[..6] == "&quot;";
    assert s[6..] == t;
  }

  /** `&#039;` is read back as `'`. */
  lemma UnescapeSingleQuote(t: string)
    ensures Unescape("&#039;" + t) == "'" + Unescape(t)
  {
    var s := "&#039;" + t;
    assert s[1] == '#';
    assert !IsPrefix("&amp;", s) && !IsPrefix("&lt;", s) && !IsPrefix("&gt;", s);
    assert !IsPrefix("&quot;", s);
    assert s[..6] == "&#039;";
    assert s[6..] == t;
  }

  /** Reading back one character's image, followed by anything, restores that character first. */
  lemma UnescapeEntity(c: char, t: string)
    ensures Unescape(EntityOf(c) + t) == [c] + Unescape(t)
  {
    if c == '&' {
      UnescapeAmpersand(t);
    } else if c == '<' {
      UnescapeLess(t);
    } else if c == '>' {
      UnescapeGreater(t);
    } else if c == '"' {
      UnescapeDoubleQuote(t);
    } else if c == '\'' {
      UnescapeSingleQuote(t);
    } else {
      UnescapePlain(c, t);
    }
  }

  lemma {:induction false} UnescapeEscapeEach(s: string)
    ensures Unescape(EscapeEach(s)) == s
    decreases |s|
  {
    if s != [] {
      UnescapeEntity(s[0], EscapeEach(s[1..]));
      UnescapeEscapeEach(s[1..]);
      assert s == [s[0]] + s[1..];
    }
  }

  /** Round trip: unescaping the escaper's output gives back the message. */
  lemma UnescapeEscapeHtml(s: string)
    ensures Unescape(EscapeHtml(s)) == s
  {
    EscapeHtmlIsPerCharacter(s);
    UnescapeEscapeEach(s);
  }

  /** Two different messages are never displayed the same. */
  lemma EscapeHtmlInjective(a: string, b: string)
    requires EscapeHtml(a) == EscapeHtml(b)
    ensures a == b
  {
    UnescapeEscapeHtml(a);
    UnescapeEscapeHtml(b);
  }

  // ---------------------------------------------------------------------------
  // The blank-question guard of handleQuestionSubmit

  /** The code points `String.prototype.trim` strips: ECMAScript white space and line terminators. */
  predicate IsJsSpace(c: char) {
    var n := c as int;
    n == 0x09 || n == 0x0A || n == 0x0B || n == 0x0C || n == 0x0D || n == 0x20 ||
    n == 0xA0 || n == 0x1680 || (0x2000 <= n <= 0x200A) || n == 0x2028 || n == 0x2029 ||
    n == 0x202F || n == 0x205F || n == 0x3000 || n == 0xFEFF
  }

  /** Leading white space removed: a suffix of `s`, all that was cut is white space. */
  function TrimStart(s: string): (r: string)
    ensures |r| <= |s| && r == s[|s| - |r|..]
    ensures forall k :: 0 <= k < |s| - |r| ==> IsJsSpace(s[k])
    ensures r != [] ==> !IsJsSpace(r[0])
    decreases |s|
  {
    if s != [] && IsJsSpace(s[0]) then TrimStart(s[1..]) else s
  }

  /** Trailing white space removed: a prefix of `s`, all that was cut is white space. */
  function TrimEnd(s: string): (r: string)
    ensures |r| <= |s| && r == s[..|r|]
    ensures forall k :: |r| <= k < |s| ==> IsJsSpace(s[k])
    ensures r != [] ==> !IsJsSpace(r[|r| - 1])
    decreases |s|
  {
    if s != [] && IsJsSpace(s[|s| - 1]) then TrimEnd(s[..|s| - 1]) else s
  }

  /** A prefix of a suffix of `s` is a slice of `s`. */
  lemma PrefixOfSuffix(s: string, t: string, r: string)
    requires |t| <= |s| && t == s[|s| - |t|..]
    requires |r| <= |t| && r == t[..|r|]
    ensures OccursAt(s, r, |s| - |t|)
  {
    assert s[|s| - |t|..|s| - |t| + |r|] == s[|s| - |t|..][..|r|];
  }

  /** `trim()`'s result is the slice of `s` right after the leading white space. */
  lemma TrimSlice(s: string)
    ensures OccursAt(s, TrimEnd(TrimStart(s)), |s| - |TrimStart(s)|)
  {
    PrefixOfSuffix(s, TrimStart(s), TrimEnd(TrimStart(s)));
  }

  /** Only white space follows `trim()`'s result in `s`. */
  lemma TrimTrailing(s: string)
    ensures forall k :: |s| - |TrimStart(s)| + |TrimEnd(TrimStart(s))| <= k < |s| ==> IsJsSpace(s[k])
  {
    var t := TrimStart(s);
    var r := TrimEnd(t);
    var i := |s| - |t|;
    forall k | i + |r| <= k < |s|
      ensures IsJsSpace(s[k])
    {
      assert t[k - i] == s[k];
    }
  }

  /** `trim()` leaves nothing exactly when everything is white space. */
  lemma TrimEmpty(s: string)
    ensures TrimEnd(TrimStart(s)) == [] <==> forall k :: 0 <= k < |s| ==> IsJsSpace(s[k])
  {
    var t := TrimStart(s);
    if TrimEnd(t) == [] {
      assert t == [];
    }
  }

  /**
   * `trim()`: the part of `s` between its leading and trailing white space.
   * It is empty exactly when `s` is all white space.
   */
  function Trim(s: string): (r: string)
    ensures OccursAt(s, r, |s| - |TrimStart(s)|)
    ensures forall k :: 0 <= k < |s| - |TrimStart(s)| ==> IsJsSpace(s[k])
    ensures forall k :: |s| - |TrimStart(s)| + |r| <= k < |s| ==> IsJsSpace(s[k])
    ensures r != [] ==> !IsJsSpace(r[0]) && !IsJsSpace(r[|r| - 1])
    ensures r == [] <==> forall k :: 0 <= k < |s| ==> IsJsSpace(s[k])
  {
    TrimSlice(s);
    TrimTrailing(s);
    TrimEmpty(s);
    var r := TrimEnd(TrimStart(s));
    assert r != [] ==> r[0] == TrimStart(s)[0];
    r
  }

  /** What submitting the form leads to: an error shown on the page, or a question sent to the server. */
  datatype Submission = Rejected(error: string) | Sent(question: string)

  const EmptyQuestionMessage := "Please enter a question."

  /**
   * The guard at the top of `handleQuestionSubmit`: a blank input is refused
   * with a message and nothing is sent; otherwise the trimmed question is
   * sent, and it is never empty.
   */
  function HandleQuestionSubmit(input: string): (r: Submission)
    ensures r.Rejected? <==> forall k :: 0 <= k < |input| ==> IsJsSpace(input[k])
    ensures r.Rejected? ==> r.error == EmptyQuestionMessage
    ensures r.Sent? ==> r.question == Trim(input) && r.question != ""
  {
    var question := Trim(input);
    if question == "" then Rejected(EmptyQuestionMessage) else Sent(question)
  }
}
