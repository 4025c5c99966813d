/**
  The plain-text version of an e-mail (`generateTextFromHtml`): an ordered
  pipeline of rewrites over the HTML string. Tags are removed first, then six
  entities are decoded in a fixed order, then every run of whitespace becomes
  one space, then the ends are trimmed.
*/
module HtmlText {
  import opened Common

  /** `s.replace(/<[^>]*>/g, '')`: each '<' up to the next '>' is removed; a '<' with
      no later '>' is kept. */
  function StripTags(s: string): (r: string)
    ensures |r| <= |s|
    decreases |s|
  {
    if s == [] then []
    else if s[0] == '<' && '>' in s[1..] then StripTags(s[FirstIndex(s[1..], '>') + 2..])
    else [s[0]] + StripTags(s[1..])
  }

  /** Tag removal only deletes: every character of the result is one of the input's. */
  lemma {:induction false} StripTagsKeepsCharacters(s: string)
    ensures forall c :: c in StripTags(s) ==> c in s
    decreases |s|
  {
    if s == [] {
    } else if s[0] == '<' && '>' in s[1..] {
      var rest := s[FirstIndex(s[1..], '>') + 2..];
      StripTagsKeepsCharacters(rest);
      assert forall c :: c in rest ==> c in s;
    } else {
      StripTagsKeepsCharacters(s[1..]);
      assert forall c :: c in s[1..] ==> c in s;
    }
  }

  /** No '<' of the text has a '>' after it. */
  predicate NoTagLeft(s: string) {
    forall i, j :: 0 <= i < j < |s| && s[i] == '<' ==> s[j] != '>'
  }

  lemma {:induction false} StripTagsLeavesNoTag(s: string)
    ensures NoTagLeft(StripTags(s))
    decreases |s|
  {
    if s == [] {
    } else if s[0] == '<' && '>' in s[1..] {
      StripTagsLeavesNoTag(s[FirstIndex(s[1..], '>') + 2..]);
    } else {
      StripTagsLeavesNoTag(s[1..]);
      StripTagsKeepsCharacters(s[1..]);
      var rest := StripTags(s[1..]);
      if s[0] == '<' {
        forall j | 0 <= j < |rest| ensures rest[j] != '>' {
          assert rest[j] in s[1..];
        }
      }
    }
  }

  /** A text without '<' has no tag to strip. */
  lemma {:induction false} StripTagsWithoutAngle(s: string)
    requires '<' !in s
    ensures StripTags(s) == s
  {
    if s != [] {
      assert '<' !in s[1..];
      StripTagsWithoutAngle(s[1..]);
    }
  }

  /** `s.replace(/pat/g, rep)` for a literal pattern: occurrences are replaced from the
      left, without overlap. */
  function ReplaceAll(s: string, pat: string, rep: string): string
    requires |pat| > 0
    decreases |s|
  {
    if |s| < |pat| then s
    else if s[..|pat|] == pat then rep + ReplaceAll(s[|pat|..], pat, rep)
    else [s[0]] + ReplaceAll(s[1..], pat, rep)
  }

  /** A text without the pattern's first character is left as it is. */
  lemma {:induction false} ReplaceAllAbsent(s: string, pat: string, rep: string)
    requires |pat| > 0 && pat[0] !in s
    ensures ReplaceAll(s, pat, rep) == s
    decreases |s|
  {
    if |s| >= |pat| {
      assert s[..|pat|][0] == s[0];
      assert pat[0] !in s[1..];
      ReplaceAllAbsent(s[1..], pat, rep);
    }
  }

  /** The six entity replacements, in the order they are applied. */
  function DecodeEntities(s: string): string {
    var nbsp := ReplaceAll(s, "&nbsp;", " ");
    var amp := ReplaceAll(nbsp, "&amp;", "&");
    var lt := ReplaceAll(amp, "&lt;", "<");
    var gt := ReplaceAll(lt, "&gt;", ">");
    var quot := ReplaceAll(gt, "&quot;", "\"");
    ReplaceAll(quot, "&#39;", "'")
  }

  lemma DecodeWithoutAmpersand(s: string)
    requires '&' !in s
    ensures DecodeEntities(s) == s
  {
    ReplaceAllAbsent(s, "&nbsp;", " ");
    ReplaceAllAbsent(s, "&amp;", "&");
    ReplaceAllAbsent(s, "&lt;", "<");
    ReplaceAllAbsent(s, "&gt;", ">");
    ReplaceAllAbsent(s, "&quot;", "\"");
    ReplaceAllAbsent(s, "&#39;", "'");
  }

  /** The text with its leading whitespace removed. */
  function DropSpace(s: string): (r: string)
    ensures |r| <= |s|
    ensures r == [] || !IsWhitespace(r[0])
    ensures |s| > 0 && !IsWhitespace(s[0]) ==> r == s
  {
    if s == [] || !IsWhitespace(s[0]) then s else DropSpace(s[1..])
  }

  /** Every whitespace character is a space and no two are adjacent. */
  predicate Collapsed(s: string) {
    && (forall i :: 0 <= i < |s| && IsWhitespace(s[i]) ==> s[i] == ' ')
    && (forall i :: 0 <= i < |s| - 1 ==> !(IsWhitespace(s[i]) && IsWhitespace(s[i + 1])))
  }

  /** `s.replace(/\s+/g, ' ')`. */
  function CollapseSpace(s: string): (r: string)
    ensures |r| <= |s| && (r == [] <==> s == [])
    ensures |s| > 0 && !IsWhitespace(s[0]) ==> r[0] == s[0]
    ensures |s| > 0 && IsWhitespace(s[0]) ==> r[0] == ' '
    ensures Collapsed(r)
    decreases |s|
  {
    if s == [] then []
    else if IsWhitespace(s[0]) then [' '] + CollapseSpace(DropSpace(s[1..]))
    else [s[0]] + CollapseSpace(s[1..])
  }

  lemma {:induction false} CollapseCollapsed(s: string)
    requires Collapsed(s)
    ensures CollapseSpace(s) == s
    decreases |s|
  {
    if s != [] {
      assert Collapsed(s[1..]);
      CollapseCollapsed(s[1..]);
      if IsWhitespace(s[0]) {
        assert s[1..] == [] || !IsWhitespace(s[1]);
      }
    }
  }

  function LeadingSpace(s: string): (n: nat)
    ensures n <= |s|
    ensures forall i :: 0 <= i < n ==> IsWhitespace(s[i])
    ensures n < |s| ==> !IsWhitespace(s[n])
  {
    if s == [] || !IsWhitespace(s[0]) then 0 else 1 + LeadingSpace(s[1..])
  }

  function TrailingSpace(s: string): (n: nat)
    ensures n <= |s|
    ensures forall i :: |s| - n <= i < |s| ==> IsWhitespace(s[i])
    ensures n < |s| ==> !IsWhitespace(s[|s| - n - 1])
  {
    if s == [] || !IsWhitespace(s[|s| - 1]) then 0 else 1 + TrailingSpace(s[..|s| - 1])
  }

  /** Neither end is whitespace. */
  predicate Trimmed(s: string) {
    |s| > 0 ==> !IsWhitespace(s[0]) && !IsWhitespace(s[|s| - 1])
  }

  /** `s.trim()`: the text without its leading and trailing whitespace. */
  function Trim(s: string): (r: string)
    ensures Trimmed(r)
    ensures Collapsed(s) ==> Collapsed(r)
    ensures Trimmed(s) ==> r == s
  {
    var lead := LeadingSpace(s);
    if lead == |s| then []
    else
      var trail := TrailingSpace(s);
      assert !IsWhitespace(s[lead]);
      s[lead..|s| - trail]
  }

  /** The converter: `html || ''` turns null, undefined and "" into "", then tags are
      removed, entities decoded, whitespace runs collapsed and the ends trimmed. The result
      has no whitespace at either end, its only whitespace character is the space, and no
      two spaces are adjacent. */
  function GenerateTextFromHtml(html: Option<string>): (r: string)
    ensures Trimmed(r) && Collapsed(r)
  {
    var htmlString := if html.Some? then html.value else "";
    Trim(CollapseSpace(DecodeEntities(StripTags(htmlString))))
  }

  /** No input, or an empty one, gives the empty text. */
  lemma EmptyInputGivesEmptyText(html: Option<string>)
    requires html.None? || html == Some("")
    ensures GenerateTextFromHtml(html) == ""
  {
    StripTagsWithoutAngle("");
    DecodeWithoutAmpersand("");
  }

  /** A text without '<' or '&' whose spacing is already normal comes back unchanged. */
  lemma PlainTextUnchanged(s: string)
    requires '<' !in s && '&' !in s && Collapsed(s) && Trimmed(s)
    ensures GenerateTextFromHtml(Some(s)) == s
  {
    StripTagsWithoutAngle(s);
    DecodeWithoutAmpersand(s);
    CollapseCollapsed(s);
  }

  /** A prefix without the pattern's first character passes through unchanged. */
  lemma {:induction false} ReplaceAllAfterPlain(a: string, b: string, pat: string, rep: string)
    requires |pat| > 0 && pat[0] !in a
    ensures ReplaceAll(a + b, pat, rep) == a + ReplaceAll(b, pat, rep)
    decreases |a|
  {
    if a != [] {
      var s := a + b;
      if |s| < |pat| {
        assert ReplaceAll(s, pat, rep) == s;
        assert ReplaceAll(b, pat, rep) == b;
      } else {
        assert s[..|pat|][0] == a[0] != pat[0];
        assert s[1..] == a[1..] + b;
        ReplaceAllAfterPlain(a[1..], b, pat, rep);
        assert [a[0]] + (a[1..] + ReplaceAll(b, pat, rep)) == a + ReplaceAll(b, pat, rep);
      }
    } else {
      assert a + b == b;
    }
  }

  /** An occurrence at the start is replaced. */
  lemma ReplaceAllAtStart(b: string, pat: string, rep: string)
    requires |pat| > 0
    ensures ReplaceAll(pat + b, pat, rep) == rep + ReplaceAll(b, pat, rep)
  {
    assert (pat + b)[..|pat|] == pat;
    assert (pat + b)[|pat|..] == b;
  }

  /** The decoding of `&amp;lt;`, one replacement at a time. */
  lemma DecodeEscapedLt()
    ensures DecodeEntities("&amp;lt;") == "<"
  {
    EscapedLtNbsp();
    EscapedLtAmp();
    var lt := "<";
    assert "&lt;" == "&lt;" + "";
    ReplaceAllAtStart("", "&lt;", "<");
    assert ReplaceAll("&lt;", "&lt;", "<") == lt;
    ReplaceAllAbsent(lt, "&gt;", ">");
    ReplaceAllAbsent(lt, "&quot;", "\"");
    ReplaceAllAbsent(lt, "&#39;", "'");
  }

  lemma EscapedLtNbsp()
    ensures ReplaceAll("&amp;lt;", "&nbsp;", " ") == "&amp;lt;"
  {
    var s := "&amp;lt;";
    assert s[..6] != "&nbsp;" by { assert s[1] != 'n'; }
    ReplaceAllAbsent(s[1..], "&nbsp;", " ");
  }

  lemma EscapedLtAmp()
    ensures ReplaceAll("&amp;lt;", "&amp;", "&") == "&lt;"
  {
    assert "&amp;lt;" == "&amp;" + "lt;";
    ReplaceAllAtStart("lt;", "&amp;", "&");
    ReplaceAllAbsent("lt;", "&amp;", "&");
  }

  /** `&amp;` is decoded before `&lt;`, so an escaped `&lt;` decodes twice. */
  lemma AmpersandDecodedFirst()
    ensures GenerateTextFromHtml(Some("&amp;lt;")) == "<"
  {
    var html := "&amp;lt;";
    StripTagsWithoutAngle(html);
    DecodeEscapedLt();
    var decoded := DecodeEntities(StripTags(html));
    assert decoded == "<";
    assert Collapsed(decoded);
    CollapseCollapsed(decoded);
    assert Trimmed(decoded);
    assert Trim(CollapseSpace(decoded)) == "<";
  }

  lemma EscapedTagKeepsAmpersands()
    ensures ReplaceAll("&lt;b&gt;", "&nbsp;", " ") == "&lt;b&gt;"
    ensures ReplaceAll("&lt;b&gt;", "&amp;", "&") == "&lt;b&gt;"
  {
    var s := "&lt;b&gt;";
    var tail := "&gt;";
    assert s == "&" + ("lt;b" + tail);
    assert s[..6] != "&nbsp;" by { assert s[1] != 'n'; }
    assert s[..5] != "&amp;" by { assert s[1] != 'a'; }
    assert s[1..] == "lt;b" + tail;
    ReplaceAllAfterPlain("lt;b", tail, "&nbsp;", " ");
    ReplaceAllAfterPlain("lt;b", tail, "&amp;", "&");
    assert |tail| < 5;
  }

  lemma EscapedTagLt()
    ensures ReplaceAll("&lt;b&gt;", "&lt;", "<") == "<b&gt;"
  {
    var tail := "&gt;";
    assert "&lt;b&gt;" == "&lt;" + ("b" + tail);
    ReplaceAllAtStart("b" + tail, "&lt;", "<");
    ReplaceAllAfterPlain("b", tail, "&lt;", "<");
    assert tail[..4] != "&lt;" by { assert tail[1] != 'l'; }
    ReplaceAllAbsent(tail[1..], "&lt;", "<");
    assert "<" + ("b" + tail) == "<b&gt;";
  }

  lemma EscapedTagGt()
    ensures ReplaceAll("<b&gt;", "&gt;", ">") == "<b>"
  {
    assert "<b&gt;" == "<b" + ("&gt;" + "");
    ReplaceAllAfterPlain("<b", "&gt;" + "", "&gt;", ">");
    ReplaceAllAtStart("", "&gt;", ">");
  }

  /** The decoding of `&lt;b&gt;`, one replacement at a time. */
  lemma DecodeEscapedTag()
    ensures DecodeEntities("&lt;b&gt;") == "<b>"
  {
    EscapedTagKeepsAmpersands();
    EscapedTagLt();
    EscapedTagGt();
    ReplaceAllAbsent("<b>", "&quot;", "\"");
    ReplaceAllAbsent("<b>", "&#39;", "'");
  }

  lemma NormalThreeLetters(s: string)
    requires s == "<b>"
    ensures Collapsed(s) && Trimmed(s) && Trim(s) == s
  {
    assert !IsWhitespace(s[0]) && !IsWhitespace(s[1]) && !IsWhitespace(s[2]);
  }

  /** Entities are decoded after the tags are removed: an escaped tag survives as text. */
  lemma EscapedTagSurvives()
    ensures GenerateTextFromHtml(Some("&lt;b&gt;")) == "<b>"
  {
    var html := "&lt;b&gt;";
    assert '<' !in html by {
      forall k | 0 <= k < |html| ensures html[k] != '<' {
      }
    }
    StripTagsWithoutAngle(html);
    DecodeEscapedTag();
    var decoded := DecodeEntities(StripTags(html));
    assert decoded == "<b>";
    NormalThreeLetters(decoded);
    CollapseCollapsed(decoded);
  }

  /** A text without '>' has no tag to strip. */
  lemma {:induction false} StripTagsWithoutClose(s: string)
    requires '>' !in s
    ensures StripTags(s) == s
  {
    if s != [] {
      assert '>' !in s[1..];
      StripTagsWithoutClose(s[1..]);
    }
  }

  /** A '<' with no later '>' is kept, with the rest of the text: whatever precedes it
      is stripped as on its own. */
  lemma UnclosedAngleKept(u: string, v: string)
    requires '>' !in v
    ensures StripTags(u + "<" + v) == StripTags(u) + "<" + v
  {
    var w := "<" + v;
    assert '>' !in w by {
      forall j | 0 <= j < |w| ensures w[j] != '>' {
        if j > 0 {
          assert w[j] == v[j - 1];
        }
      }
    }
    StripTagsBeforeUnclosed(u, w);
    assert u + w == u + "<" + v;
  }

  /** A text followed by a part without '>' is stripped as on its own: no tag of it
      can close in that part, and the part is kept whole. */
  lemma {:induction false} StripTagsBeforeUnclosed(u: string, w: string)
    requires '>' !in w
    ensures StripTags(u + w) == StripTags(u) + w
    decreases |u|
  {
    if u == [] {
      assert u + w == w;
      StripTagsWithoutClose(w);
    } else if u[0] == '<' && '>' in u[1..] {
      var k := SkipTagInExtension(u, w);
      StripTagsBeforeUnclosed(u[k + 2..], w);
    } else {
      KeepFirstInExtension(u, w);
      StripTagsBeforeUnclosed(u[1..], w);
      assert [u[0]] + (StripTags(u[1..]) + w) == [u[0]] + StripTags(u[1..]) + w;
    }
  }

  /** A tag at the front of `u` is a tag at the front of `u + w`; `k + 2` is the
      position after its '>'. */
  lemma SkipTagInExtension(u: string, w: string) returns (k: nat)
    requires u != [] && u[0] == '<' && '>' in u[1..]
    ensures k + 2 <= |u|
    ensures StripTags(u) == StripTags(u[k + 2..])
    ensures StripTags(u + w) == StripTags(u[k + 2..] + w)
  {
    k := FirstIndex(u[1..], '>');
    StripTagAtFront(u);
    DropOfAppend(u, w, 1);
    FirstIndexOfPrefix(u[1..], w, '>');
    StripTagAtFront(u + w);
    DropOfAppend(u, w, k + 2);
  }

  /** One step of tag removal at a '<' that has a later '>'. */
  lemma StripTagAtFront(s: string)
    requires s != [] && s[0] == '<' && '>' in s[1..]
    ensures StripTags(s) == StripTags(s[FirstIndex(s[1..], '>') + 2..])
  {
  }

  /** When the front of `u` starts no tag of `u + w`, it is kept in both. */
  lemma KeepFirstInExtension(u: string, w: string)
    requires '>' !in w
    requires u != [] && !(u[0] == '<' && '>' in u[1..])
    ensures StripTags(u) == [u[0]] + StripTags(u[1..])
    ensures StripTags(u + w) == [u[0]] + StripTags(u[1..] + w)
  {
    var s := u + w;
    DropOfAppend(u, w, 1);
    assert s[0] == u[0];
    if u[0] == '<' {
      forall j | 0 <= j < |s[1..]| ensures s[1..][j] != '>' {
        if j < |u| - 1 {
          assert s[1..][j] == u[1..][j];
        } else {
          assert s[1..][j] == w[j - (|u| - 1)];
        }
      }
    }
  }

  /** Dropping a prefix of `a` from `a + b`. */
  lemma DropOfAppend(a: string, b: string, n: nat)
    requires n <= |a|
    ensures (a + b)[n..] == a[n..] + b
  {
    var l := (a + b)[n..];
    var r := a[n..] + b;
    assert |l| == |r|;
    forall j | 0 <= j < |l| ensures l[j] == r[j] {
      if j < |a| - n {
        assert l[j] == a[n + j];
      } else {
        assert l[j] == b[j - (|a| - n)];
      }
    }
  }

  /** The first occurrence in a text is the first occurrence in any extension of it. */
  lemma {:induction false} FirstIndexOfPrefix(a: string, b: string, c: char)
    requires c in a
    ensures c in a + b && FirstIndex(a + b, c) == FirstIndex(a, c)
  {
    assert (a + b)[0] == a[0];
    if a[0] != c {
      assert (a + b)[1..] == a[1..] + b;
      FirstIndexOfPrefix(a[1..], b, c);
    }
  }
}
