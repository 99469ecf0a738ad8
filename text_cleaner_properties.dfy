/** What the cleaner does to concrete kinds of text: markup-free text passes
    through every substitution untouched, and each kind of markup that has a
    match is removed (or, for a link, reduced to its display text) without
    disturbing the text around it. */
module TextCleanerProperties {
  import opened Values
  import opened TextCleaner

  /** A text in which the pattern's first character never occurs has no match. */
  lemma {:induction false} PlainPassesThrough(p: Pattern, s: string)
    requires Lead(p) !in s
    ensures Substitute(p, s) == s
    decreases |s|
  {
    if s != [] {
      assert MatchAt(p, s).None?;
      PlainPassesThrough(p, s[1..]);
      assert s == [s[0]] + s[1..];
    }
  }

  /** From position `i` to `j` of `t` no match starts: that stretch is copied
      unchanged and the scan resumes at `j`. */
  lemma {:induction false} UnmatchedStretch(p: Pattern, t: string, i: nat, j: nat)
    requires i <= j <= |t|
    requires forall k :: i <= k < j ==> MatchAt(p, t[k..]).None?
    ensures Substitute(p, t[i..]) == t[i..j] + Substitute(p, t[j..])
    decreases j - i
  {
    if i < j {
      var rest := Substitute(p, t[i + 1..]);
      assert Substitute(p, t[i..]) == [t[i]] + rest by {
        assert MatchAt(p, t[i..]).None?;
        SkipUnmatched(p, t[i..]);
        assert t[i..][1..] == t[i + 1..];
      }
      assert rest == t[i + 1..j] + Substitute(p, t[j..]) by {
        UnmatchedStretch(p, t, i + 1, j);
      }
      assert t[i..j] == [t[i]] + t[i + 1..j];
    }
  }

  /** Where no match starts, the scan copies one character. */
  lemma SkipUnmatched(p: Pattern, s: string)
    requires s != [] && MatchAt(p, s).None?
    ensures Substitute(p, s) == [s[0]] + Substitute(p, s[1..])
  {
  }

  /** A prefix at none of whose positions a match starts is copied unchanged
      and the scan resumes right after it. */
  lemma UnmatchedPrefix(p: Pattern, pre: string, s: string)
    requires forall i :: 0 <= i < |pre| ==> MatchAt(p, (pre + s)[i..]).None?
    ensures Substitute(p, pre + s) == pre + Substitute(p, s)
  {
    var t := pre + s;
    UnmatchedStretch(p, t, 0, |pre|);
    assert t[0..] == t && t[0..|pre|] == pre && t[|pre|..] == s;
  }

  /** A prefix without the pattern's first character is copied unchanged and
      the scan resumes right after it. */
  lemma PlainPrefix(p: Pattern, pre: string, s: string)
    requires Lead(p) !in pre
    ensures Substitute(p, pre + s) == pre + Substitute(p, s)
  {
    forall i | 0 <= i < |pre|
      ensures MatchAt(p, (pre + s)[i..]).None?
    {
      assert (pre + s)[i..][0] == pre[i];
    }
    UnmatchedPrefix(p, pre, s);
  }

  /** A match right after a markup-free prefix is replaced, and the scan
      continues after the match. */
  lemma MatchAfterPrefix(p: Pattern, pre: string, s: string, h: Hit)
    requires Lead(p) !in pre
    requires MatchAt(p, s) == Some(h)
    ensures Substitute(p, pre + s) == pre + h.replacement + Substitute(p, s[h.length..])
  {
    var rest := Substitute(p, s[h.length..]);
    assert Substitute(p, s) == h.replacement + rest;
    calc {
      Substitute(p, pre + s);
      { PlainPrefix(p, pre, s); }
      pre + (h.replacement + rest);
      pre + h.replacement + rest;
    }
  }

  /** Text with no `{`, `!` or `[` only has its newline runs collapsed and its
      ends stripped. */
  lemma PlainText(text: string)
    requires '{' !in text && '!' !in text && '[' !in text
    ensures Clean(text) == Strip(CollapseNewlines(text))
  {
    if text != "" {
      PlainPassesThrough(ColorStart, text);
      PlainPassesThrough(ColorEnd, text);
      PlainPassesThrough(CodeBlock, text);
      PlainPassesThrough(Image, text);
      PlainPassesThrough(Link, text);
    }
  }

  /** The link scan passes over display text without newlines or bars. */
  lemma {:induction false} LinkSkipsLabel(s: string, j: nat, bar: nat)
    requires j <= bar < |s|
    requires forall k :: j <= k < bar ==> s[k] != '\n' && s[k] != '|'
    ensures LinkFrom(s, j) == LinkFrom(s, bar)
    decreases bar - j
  {
    if j < bar {
      LinkSkipsLabel(s, j + 1, bar);
    }
  }

  /** `[shown|target]` at the head of a text is a link match whose
      replacement is `shown`, provided `shown` has no newline and no bar and
      the target is non-empty and has no `]`. */
  lemma LinkMatch(shown: string, target: string, post: string)
    requires '\n' !in shown && '|' !in shown
    requires target != [] && ']' !in target
    ensures MatchAt(Link, "[" + shown + "|" + target + "]" + post)
            == Some(Hit(|shown| + |target| + 3, shown))
  {
    var s := "[" + shown + "|" + target + "]" + post;
    var bar := |shown| + 1;
    var close := bar + 1 + |target|;
    assert s[bar] == '|' && s[close] == ']';
    forall k | 1 <= k < bar
      ensures s[k] != '\n' && s[k] != '|'
    {
      assert s[k] == shown[k - 1];
    }
    LinkSkipsLabel(s, 1, bar);
    forall k | bar + 1 <= k < close
      ensures s[k] !in {']'}
    {
      assert s[k] == target[k - bar - 1];
    }
    assert FirstOf(s, bar + 1, {']'}) == Some(close);
    assert LinkFrom(s, bar) == Some((bar, close));
    assert s[1..bar] == shown;
  }

  /** The link pass replaces a well-formed link after link-free text by its
      display text and leaves the text before it unchanged. */
  lemma LinkReplaced(pre: string, shown: string, target: string, post: string)
    requires '[' !in pre
    requires '\n' !in shown && '|' !in shown
    requires target != [] && ']' !in target
    ensures Substitute(Link, pre + "[" + shown + "|" + target + "]" + post)
            == pre + shown + Substitute(Link, post)
  {
    var m := "[" + shown + "|" + target + "]";
    var s := m + post;
    assert |m| == |shown| + |target| + 3;
    assert MatchAt(Link, s) == Some(Hit(|m|, shown)) by {
      LinkMatch(shown, target, post);
    }
    assert s[|m|..] == post;
    assert pre + "[" + shown + "|" + target + "]" + post == pre + s;
    calc {
      Substitute(Link, pre + s);
      { MatchAfterPrefix(Link, pre, s, Hit(|m|, shown)); }
      pre + shown + Substitute(Link, post);
    }
  }

  /** The whole cleaner on a text whose only markup is one link: the link
      becomes its display text, then newlines are collapsed and the ends stripped. */
  lemma CleanLink(pre: string, shown: string, target: string, post: string)
    requires '[' !in pre
    requires '\n' !in shown && '|' !in shown
    requires target != [] && ']' !in target
    requires var text := pre + "[" + shown + "|" + target + "]" + post;
             '{' !in text && '!' !in text
    ensures Clean(pre + "[" + shown + "|" + target + "]" + post)
            == Strip(CollapseNewlines(pre + shown + Substitute(Link, post)))
  {
    var text := pre + "[" + shown + "|" + target + "]" + post;
    PlainPassesThrough(ColorStart, text);
    PlainPassesThrough(ColorEnd, text);
    PlainPassesThrough(CodeBlock, text);
    PlainPassesThrough(Image, text);
    LinkReplaced(pre, shown, target, post);
  }

  /** `!alt!` at the head of a text is an image match when `alt` has no `!`
      and no `]`. */
  lemma ImageMatch(alt: string, post: string)
    requires '!' !in alt && ']' !in alt
    ensures MatchAt(Image, "!" + alt + "!" + post) == Some(Hit(|alt| + 2, ""))
  {
    var s := "!" + alt + "!" + post;
    var stop := |alt| + 1;
    forall k | 1 <= k < stop
      ensures s[k] !in {'!', ']'}
    {
      assert s[k] == alt[k - 1];
    }
    assert s[stop] == '!';
    assert FirstOf(s, 1, {'!', ']'}) == Some(stop);
  }

  /** `!alt!` after image-free text is removed when `alt` has no `!` and no `]`. */
  lemma ImageRemoved(pre: string, alt: string, post: string)
    requires '!' !in pre
    requires '!' !in alt && ']' !in alt
    ensures Substitute(Image, pre + "!" + alt + "!" + post) == pre + Substitute(Image, post)
  {
    var m := "!" + alt + "!";
    var s := m + post;
    assert |m| == |alt| + 2;
    assert MatchAt(Image, s) == Some(Hit(|m|, "")) by {
      ImageMatch(alt, post);
    }
    assert s[|m|..] == post;
    assert pre + "!" + alt + "!" + post == pre + s;
    calc {
      Substitute(Image, pre + s);
      { MatchAfterPrefix(Image, pre, s, Hit(|m|, "")); }
      pre + "" + Substitute(Image, post);
      { assert pre + "" == pre; }
      pre + Substitute(Image, post);
    }
  }

  /** A `!` with no second `!` after it starts no image, so a text with a
      single `!` passes the image substitution unchanged ("Done! Bye"). */
  lemma LoneBangKept(pre: string, post: string)
    requires '!' !in pre && '!' !in post
    ensures Substitute(Image, pre + "!" + post) == pre + "!" + post
  {
    var t := pre + "!" + post;
    forall i | 0 <= i < |t|
      ensures MatchAt(Image, t[i..]).None?
    {
      if i == |pre| {
        var u := t[i..];
        assert u == "!" + post;
        var stop := FirstOf(u, 1, {'!', ']'});
        if stop.Some? {
          assert u[stop.value] == post[stop.value - 1];
        }
      } else if i < |pre| {
        assert t[i..][0] == pre[i];
      } else {
        assert t[i..][0] == post[i - |pre| - 1];
      }
    }
    UnmatchedStretch(Image, t, 0, |t|);
    assert t[0..] == t && t[0..|t|] == t && t[|t|..] == [];
  }

  /** The image pattern also matches prose between two exclamation marks:
      everything from the first `!` of a sentence to the second is removed. */
  lemma ProseBetweenBangsRemoved(pre: string, mid: string)
    requires '{' !in pre && '!' !in pre && '[' !in pre
    requires '{' !in mid && '!' !in mid && ']' !in mid
    ensures Clean(pre + "!" + mid + "!") == Strip(CollapseNewlines(pre))
  {
    var text := pre + "!" + mid + "!";
    PlainPassesThrough(ColorStart, text);
    PlainPassesThrough(ColorEnd, text);
    PlainPassesThrough(CodeBlock, text);
    assert Substitute(Image, text) == pre by {
      assert text == pre + "!" + mid + "!" + "";
      ImageRemoved(pre, mid, "");
      assert pre + Substitute(Image, "") == pre;
    }
    PlainPassesThrough(Link, pre);
  }

  /** The image pass turns `Great! Thanks!` into `Great`. */
  lemma GreatThanks()
    ensures Substitute(Image, "Great! Thanks!") == "Great"
  {
    var pre, mid := "Great", " Thanks";
    assert '!' !in pre;
    assert '!' !in mid && ']' !in mid;
    ImageRemoved(pre, mid, "");
    assert pre + "!" + mid + "!" + "" == "Great! Thanks!";
  }

  /** `{{body}}` at the head of a text is a code-block match when the first
      `}}` after the opening is the closing one. */
  lemma CodeBlockMatch(body: string, post: string)
    requires forall k :: !ClosesAt(body + "}", k)
    ensures MatchAt(CodeBlock, "{{" + body + "}}" + post) == Some(Hit(|body| + 4, ""))
  {
    var s := "{{" + body + "}}" + post;
    var close := |body| + 2;
    forall k | 2 <= k < close
      ensures !ClosesAt(s, k)
    {
      var t := body + "}";
      assert s[k] == t[k - 2] && s[k + 1] == t[k - 1];
      assert !ClosesAt(t, k - 2);
    }
    assert ClosesAt(s, close);
    assert FirstClose(s, 2) == Some(close);
    assert s[..2] == "{{";
  }

  /** `{{body}}` after brace-free text is removed when the first `}}` after
      the opening is the closing one. */
  lemma CodeBlockRemoved(pre: string, body: string, post: string)
    requires '{' !in pre
    requires forall k :: !ClosesAt(body + "}", k)
    ensures Substitute(CodeBlock, pre + "{{" + body + "}}" + post) == pre + Substitute(CodeBlock, post)
  {
    var m := "{{" + body + "}}";
    var s := m + post;
    assert |m| == |body| + 4;
    assert MatchAt(CodeBlock, s) == Some(Hit(|m|, "")) by {
      CodeBlockMatch(body, post);
    }
    assert s[|m|..] == post;
    assert pre + "{{" + body + "}}" + post == pre + s;
    calc {
      Substitute(CodeBlock, pre + s);
      { MatchAfterPrefix(CodeBlock, pre, s, Hit(|m|, "")); }
      pre + "" + Substitute(CodeBlock, post);
      { assert pre + "" == pre; }
      pre + Substitute(CodeBlock, post);
    }
  }

  /** `{color:name}` at the head of a text is a colour-tag match when `name`
      is non-empty and has no `}`. */
  lemma ColorTagMatch(name: string, post: string)
    requires name != [] && '}' !in name
    ensures MatchAt(ColorStart, "{color:" + name + "}" + post) == Some(Hit(|name| + 8, ""))
  {
    var s := "{color:" + name + "}" + post;
    var close := |name| + 7;
    forall k | 7 <= k < close
      ensures s[k] !in {'}'}
    {
      assert s[k] == name[k - 7];
    }
    assert s[close] == '}';
    assert FirstOf(s, 7, {'}'}) == Some(close);
    assert s[..7] == "{color:";
  }

  /** `{color:name}` after brace-free text is removed when `name` is non-empty
      and has no `}`. */
  lemma ColorTagRemoved(pre: string, name: string, post: string)
    requires '{' !in pre
    requires name != [] && '}' !in name
    ensures Substitute(ColorStart, pre + "{color:" + name + "}" + post) == pre + Substitute(ColorStart, post)
  {
    var m := "{color:" + name + "}";
    var s := m + post;
    assert |m| == |name| + 8;
    assert MatchAt(ColorStart, s) == Some(Hit(|m|, "")) by {
      ColorTagMatch(name, post);
    }
    assert s[|m|..] == post;
    assert pre + "{color:" + name + "}" + post == pre + s;
    calc {
      Substitute(ColorStart, pre + s);
      { MatchAfterPrefix(ColorStart, pre, s, Hit(|m|, "")); }
      pre + "" + Substitute(ColorStart, post);
      { assert pre + "" == pre; }
      pre + Substitute(ColorStart, post);
    }
  }

  /** A literal `{color}` after brace-free text is removed. */
  lemma ColorEndRemoved(pre: string, post: string)
    requires '{' !in pre
    ensures Substitute(ColorEnd, pre + "{color}" + post) == pre + Substitute(ColorEnd, post)
  {
    var s := "{color}" + post;
    assert MatchAt(ColorEnd, s) == Some(Hit(7, "")) by {
      assert s[..7] == "{color}";
    }
    assert s[7..] == post;
    assert pre + "{color}" + post == pre + s;
    calc {
      Substitute(ColorEnd, pre + s);
      { MatchAfterPrefix(ColorEnd, pre, s, Hit(7, "")); }
      pre + "" + Substitute(ColorEnd, post);
      { assert pre + "" == pre; }
      pre + Substitute(ColorEnd, post);
    }
  }

  /** No colour markup, neither `{color:` nor `{color}`, starts at the head of `u`. */
  predicate NoColorMarkupAt(u: string) {
    !(|u| >= 7 && (u[..7] == "{color:" || u[..7] == "{color}"))
  }

  /** A text in which no colour markup starts passes both colour passes unchanged. */
  lemma ColorFreePassesThrough(p: Pattern, t: string)
    requires p == ColorStart || p == ColorEnd
    requires forall i :: 0 <= i < |t| ==> NoColorMarkupAt(t[i..])
    ensures Substitute(p, t) == t
  {
    forall i | 0 <= i < |t|
      ensures MatchAt(p, t[i..]).None?
    {
      assert NoColorMarkupAt(t[i..]);
    }
    UnmatchedStretch(p, t, 0, |t|);
    assert t[0..] == t && t[0..|t|] == t && t[|t|..] == [];
  }

  /** The second `{` of a code block opens no colour markup when the body
      has no `}` and does not start with `color`. */
  lemma InnerOpenNoColor(body: string, post: string)
    requires '}' !in body
    requires |body| < 5 || body[..5] != "color"
    ensures NoColorMarkupAt("{" + body + "}}" + post)
  {
    var u := "{" + body + "}}" + post;
    if |u| >= 7 {
      var w := u[..7];
      if |body| < 5 {
        assert w[|body| + 1] == '}';
        assert w[|body| + 1] != "{color:"[|body| + 1];
        assert w[|body| + 1] != "{color}"[|body| + 1];
      } else {
        assert w[1..6] == body[..5];
        assert "{color:"[1..6] == "color" && "{color}"[1..6] == "color";
      }
    }
  }

  /** In a code-block text whose other parts have no `{` and whose body does
      not start with `color`, no colour markup starts anywhere. */
  lemma CodeBlockColorFree(pre: string, body: string, post: string)
    requires '{' !in pre && '{' !in post
    requires '{' !in body && '}' !in body
    requires |body| < 5 || body[..5] != "color"
    ensures var text := pre + "{{" + body + "}}" + post;
            forall i :: 0 <= i < |text| ==> NoColorMarkupAt(text[i..])
  {
    var text := pre + "{{" + body + "}}" + post;
    forall i | 0 <= i < |text|
      ensures NoColorMarkupAt(text[i..])
    {
      var u := text[i..];
      if i < |pre| {
        assert u[0] == pre[i];
      } else if i == |pre| {
        assert u[1] == '{';
      } else if i == |pre| + 1 {
        assert u == "{" + body + "}}" + post;
        InnerOpenNoColor(body, post);
      } else if i < |pre| + 2 + |body| {
        assert u[0] == body[i - |pre| - 2];
      } else if i < |pre| + 4 + |body| {
        assert u[0] == '}';
      } else {
        assert u[0] == post[i - |pre| - |body| - 4];
      }
    }
  }

  /** The whole cleaner on a text whose only markup is one code block: the
      block is removed, then newlines are collapsed and the ends stripped. The
      colour passes run first, so a body that starts with `color` is excluded:
      there they would remove a tag inside the block (`{{color:x}}` cleans to
      `{}`). */
  lemma CleanCodeBlock(pre: string, body: string, post: string)
    requires '{' !in pre && '!' !in pre && '[' !in pre
    requires '{' !in post && '!' !in post && '[' !in post
    requires '{' !in body && '}' !in body
    requires |body| < 5 || body[..5] != "color"
    ensures Clean(pre + "{{" + body + "}}" + post) == Strip(CollapseNewlines(pre + post))
  {
    var text := pre + "{{" + body + "}}" + post;
    CodeBlockColorFree(pre, body, post);
    ColorFreePassesThrough(ColorStart, text);
    ColorFreePassesThrough(ColorEnd, text);
    forall k
      ensures !ClosesAt(body + "}", k)
    {
      if 0 <= k < |body| {
        assert (body + "}")[k] == body[k];
      }
    }
    CodeBlockRemoved(pre, body, post);
    PlainPassesThrough(CodeBlock, post);
    PlainPassesThrough(Image, pre + post);
    PlainPassesThrough(Link, pre + post);
  }

  /** A tag of seven characters ending in `}`, such as `{color}`, opens no
      colour tag. */
  lemma ShortTagNoMatch(u: string)
    requires |u| >= 7 && u[6] == '}'
    ensures MatchAt(ColorStart, u).None?
  {
    assert u[..7][6] == '}';
  }

  /** A `{color}` after text without `{` survives the colour-tag pass. */
  lemma ColorEndKept(mid: string, post: string)
    requires '{' !in mid && '{' !in post
    ensures Substitute(ColorStart, mid + "{color}" + post) == mid + "{color}" + post
  {
    var u := "{color}" + post;
    var tail := "color}" + post;
    assert u[6] == '}' && u[0] == '{' && u[1..] == tail;
    ShortTagNoMatch(u);
    SkipUnmatched(ColorStart, u);
    PlainPassesThrough(ColorStart, tail);
    assert [u[0]] + tail == u;
    PlainPrefix(ColorStart, mid, u);
    assert mid + "{color}" + post == mid + u;
  }

  /** Both colour passes remove a coloured span's opening and closing tags. */
  lemma ColorSpanTagsRemoved(pre: string, name: string, mid: string, post: string)
    requires '{' !in pre && '{' !in mid && '{' !in post
    requires name != [] && '}' !in name
    ensures var text := pre + "{color:" + name + "}" + mid + "{color}" + post;
            Substitute(ColorEnd, Substitute(ColorStart, text)) == pre + mid + post
  {
    var rest := mid + "{color}" + post;
    var text := pre + "{color:" + name + "}" + mid + "{color}" + post;
    assert text == pre + "{color:" + name + "}" + rest;
    var tagless := Substitute(ColorStart, text);
    assert tagless == pre + rest by {
      ColorTagRemoved(pre, name, rest);
      ColorEndKept(mid, post);
    }
    assert tagless == (pre + mid) + "{color}" + post;
    ColorEndStep(pre + mid, post);
  }

  /** The `{color}` pass removes the one `{color}` after text without `{`. */
  lemma ColorEndStep(pre: string, post: string)
    requires '{' !in pre && '{' !in post
    ensures Substitute(ColorEnd, pre + "{color}" + post) == pre + post
  {
    ColorEndRemoved(pre, post);
    PlainPassesThrough(ColorEnd, post);
  }

  /** The whole cleaner on a text whose only markup is one coloured span: both
      tags are removed and the coloured text kept, then newlines are collapsed
      and the ends stripped. */
  lemma CleanColorSpan(pre: string, name: string, mid: string, post: string)
    requires '{' !in pre && '!' !in pre && '[' !in pre
    requires name != [] && '}' !in name
    requires '{' !in mid && '!' !in mid && '[' !in mid
    requires '{' !in post && '!' !in post && '[' !in post
    ensures Clean(pre + "{color:" + name + "}" + mid + "{color}" + post)
            == Strip(CollapseNewlines(pre + mid + post))
  {
    ColorSpanTagsRemoved(pre, name, mid, post);
    PlainPassesThrough(CodeBlock, pre + mid + post);
    PlainPassesThrough(Image, pre + mid + post);
    PlainPassesThrough(Link, pre + mid + post);
  }

  /** Collapsing leaves a text without newline runs as it is, so collapsing
      twice is collapsing once. */
  lemma {:induction false} CollapseKeepsSingleNewlines(s: string)
    requires NoDoubleNewline(s)
    ensures CollapseNewlines(s) == s
    decreases |s|
  {
    if |s| > 1 {
      assert !(s[0] == '\n' && s[1] == '\n');
      CollapseKeepsSingleNewlines(s[1..]);
      assert s == [s[0]] + s[1..];
    }
  }

  /** A run of two newlines collapses exactly as a single newline does; with
      the lemma above, every run of newlines becomes one newline and every
      other character is kept. */
  lemma {:induction false} CollapseDoubleNewline(a: string, b: string)
    ensures CollapseNewlines(a + "\n\n" + b) == CollapseNewlines(a + "\n" + b)
    decreases |a|
  {
    var s1 := a + "\n\n" + b;
    var s2 := a + "\n" + b;
    if a == [] {
      assert s1[1..] == s2;
    } else {
      assert s1[0] == s2[0] && s1[1] == s2[1] by {
        if |a| == 1 { assert s1[1] == '\n' == s2[1]; } else { assert s1[1] == a[1] == s2[1]; }
      }
      assert s1[1..] == a[1..] + "\n\n" + b && s2[1..] == a[1..] + "\n" + b;
      CollapseDoubleNewline(a[1..], b);
    }
  }

  /** Stripping a text whose ends are not whitespace changes nothing. */
  lemma StripKeepsTrimmed(s: string)
    requires Trimmed(s)
    ensures Strip(s) == s
  {
  }
}
