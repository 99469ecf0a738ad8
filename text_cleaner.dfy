/** The Jira wiki-markup cleaner: five substitutions applied in a fixed order,
    then newline runs collapsed and surrounding whitespace stripped.

    Each substitution is a leftmost-first scan that replaces non-overlapping
    matches, as Python's `re.sub` and `str.replace` do. Instead of a general
    regular-expression engine, each of the five patterns has a matcher that
    says whether a match starts at the head of a string, how long it is and
    what replaces it. */
module TextCleaner {
  import opened Values

  /** The five markup patterns, in the order the cleaner removes them. */
  datatype Pattern =
    | ColorStart  // `\{color:[^}]+\}`: an opening colour tag (its body may span lines)
    | ColorEnd    // the literal `{color}`
    | CodeBlock   // `\{\{.*?\}\}` with DOTALL: a `{{...}}` block up to its first `}}`
    | Image       // `!\[?[^\]]*?!`: image markup between two `!`
    | Link        // `\[(.*?)\|[^\]]+\]`: a link, replaced by its display text

  /** A match at the head of a string: how many characters it covers and what
      it is replaced by. */
  datatype Hit = Hit(length: nat, replacement: string)

  /** The character every match of the pattern starts with. */
  function Lead(p: Pattern): char {
    match p
    case ColorStart => '{'
    case ColorEnd => '{'
    case CodeBlock => '{'
    case Image => '!'
    case Link => '['
  }

  /** The first index at or after `i` whose character is in `cs`. */
  function FirstOf(s: string, i: nat, cs: set<char>): (r: Option<nat>)
    ensures r.Some? ==> i <= r.value < |s| && s[r.value] in cs
    ensures r.Some? ==> forall k :: i <= k < r.value ==> s[k] !in cs
    ensures r.None? ==> forall k :: i <= k < |s| ==> s[k] !in cs
    decreases |s| - i
  {
    if i >= |s| then None
    else if s[i] in cs then Some(i)
    else FirstOf(s, i + 1, cs)
  }

  /** `}}` starts at index `k`. */
  predicate ClosesAt(s: string, k: int) {
    0 <= k && k + 1 < |s| && s[k] == '}' && s[k + 1] == '}'
  }

  /** The first index at or after `i` where `}}` starts. */
  function FirstClose(s: string, i: nat): (r: Option<nat>)
    ensures r.Some? ==> i <= r.value && ClosesAt(s, r.value)
    ensures r.Some? ==> forall k :: i <= k < r.value ==> !ClosesAt(s, k)
    ensures r.None? ==> forall k :: i <= k ==> !ClosesAt(s, k)
    decreases |s| - i
  {
    if i + 1 >= |s| then None
    else if ClosesAt(s, i) then Some(i)
    else FirstClose(s, i + 1)
  }

  /** Where a link that opens with `[` at index 0 has its `|` and its `]`,
      trying candidate bars from index `j` on. The lazy `(.*?)` takes the
      candidates from left to right and cannot cross a newline; after a
      candidate `|`, the greedy `[^\]]+\]` needs at least one character before
      the first `]` that follows. */
  function LinkFrom(s: string, j: nat): (r: Option<(nat, nat)>)
    ensures r.Some? ==> j <= r.value.0 && r.value.0 + 1 < r.value.1 < |s|
    ensures r.Some? ==> s[r.value.0] == '|' && s[r.value.1] == ']'
    ensures r.Some? ==> forall k :: j <= k < r.value.0 ==> s[k] != '\n'
    ensures r.Some? ==> forall k :: r.value.0 < k < r.value.1 ==> s[k] != ']'
    decreases |s| - j
  {
    if j >= |s| || s[j] == '\n' then None
    else if s[j] == '|' then
      var close := FirstOf(s, j + 1, {']'});
      if close.Some? && close.value > j + 1 then Some((j, close.value))
      else LinkFrom(s, j + 1)
    else LinkFrom(s, j + 1)
  }

  /** The match of `p` at the head of `s`, if there is one. */
  function MatchAt(p: Pattern, s: string): (r: Option<Hit>)
    ensures r.Some? ==> 0 < r.value.length <= |s| && |r.value.replacement| < r.value.length
    ensures r.Some? ==> s[0] == Lead(p)
  {
    match p
    case ColorStart =>
      if |s| >= 7 && s[..7] == "{color:" then
        var close := FirstOf(s, 7, {'}'});
        if close.Some? && close.value > 7 then Some(Hit(close.value + 1, "")) else None
      else None
    case ColorEnd =>
      if |s| >= 7 && s[..7] == "{color}" then Some(Hit(7, "")) else None
    case CodeBlock =>
      if |s| >= 2 && s[..2] == "{{" then
        var close := FirstClose(s, 2);
        if close.Some? then Some(Hit(close.value + 2, "")) else None
      else None
    case Image =>
      // Taking the optional `[` or not gives the same matches: either way the
      // lazy `[^\]]*?` stops at the first `!` and fails at the first `]`.
      if |s| >= 1 && s[0] == '!' then
        var stop := FirstOf(s, 1, {'!', ']'});
        if stop.Some? && s[stop.value] == '!' then Some(Hit(stop.value + 1, "")) else None
      else None
    case Link =>
      if |s| >= 1 && s[0] == '[' then
        var split := LinkFrom(s, 1);
        if split.Some? then Some(Hit(split.value.1 + 1, s[1..split.value.0])) else None
      else None
  }

  /** Every match of `p` in `s`, taken leftmost first and without overlap,
      replaced: Python's `re.sub(p, repl, s)`. */
  function Substitute(p: Pattern, s: string): (r: string)
    ensures |r| <= |s|
    decreases |s|
  {
    if s == [] then []
    else
      match MatchAt(p, s)
      case Some(h) => h.replacement + Substitute(p, s[h.length..])
      case None => [s[0]] + Substitute(p, s[1..])
  }

  /** No `\n` directly follows another. */
  predicate NoDoubleNewline(s: string) {
    forall k :: 0 <= k < |s| - 1 ==> !(s[k] == '\n' && s[k + 1] == '\n')
  }

  /** `re.sub(r'\n+', '\n', s)`: every run of newlines becomes one. */
  function CollapseNewlines(s: string): (r: string)
    ensures |r| <= |s|
    ensures |s| > 0 ==> |r| > 0 && r[0] == s[0]
    ensures NoDoubleNewline(r)
    decreases |s|
  {
    if |s| <= 1 then s
    else if s[0] == '\n' && s[1] == '\n' then CollapseNewlines(s[1..])
    else [s[0]] + CollapseNewlines(s[1..])
  }

  /** The characters Python's `str.isspace` accepts, which `str.strip()`
      removes. */
  predicate IsSpace(c: char) {
    c == ' ' || ('\t' <= c <= '\r') || ('\U{1C}' <= c <= '\U{1F}') ||
    c == '\U{85}' || c == '\U{A0}' || c == '\U{1680}' || ('\U{2000}' <= c <= '\U{200A}') ||
    c == '\U{2028}' || c == '\U{2029}' || c == '\U{202F}' || c == '\U{205F}' || c == '\U{3000}'
  }

  /** `s.lstrip()`: the suffix left after the longest whitespace prefix. */
  function StripLeft(s: string): (r: string)
    ensures |r| <= |s| && r == s[|s| - |r|..]
    ensures forall k :: 0 <= k < |s| - |r| ==> IsSpace(s[k])
    ensures r == [] || !IsSpace(r[0])
    decreases |s|
  {
    if s != [] && IsSpace(s[0]) then StripLeft(s[1..]) else s
  }

  /** `s.rstrip()`: the prefix left after the longest whitespace suffix. */
  function StripRight(s: string): (r: string)
    ensures |r| <= |s| && r == s[..|r|]
    ensures forall k :: |r| <= k < |s| ==> IsSpace(s[k])
    ensures r == [] || !IsSpace(r[|r| - 1])
    decreases |s|
  {
    if s != [] && IsSpace(s[|s| - 1]) then StripRight(s[..|s| - 1]) else s
  }

  /** Neither end of `s` is whitespace. */
  predicate Trimmed(s: string) {
    s == [] || (!IsSpace(s[0]) && !IsSpace(s[|s| - 1]))
  }

  /** `r` is `s` with some whitespace taken off each end and its middle kept
      as it is. */
  ghost predicate Middle(r: string, s: string) {
    exists i, j ::
      0 <= i <= j <= |s| && r == s[i..j] &&
      (forall k :: 0 <= k < i ==> IsSpace(s[k])) &&
      (forall k :: j <= k < |s| ==> IsSpace(s[k]))
  }

  /** Stripping the left end and then the right end keeps the middle. */
  lemma StripsToMiddle(s: string)
    ensures Middle(StripRight(StripLeft(s)), s)
  {
    var left := StripLeft(s);
    var right := StripRight(left);
    var i := |s| - |left|;
    var j := i + |right|;
    assert right == s[i..j] by {
      assert left == s[i..];
    }
    forall k | j <= k < |s|
      ensures IsSpace(s[k])
    {
      assert s[k] == left[k - i];
    }
  }

  /** A suffix of a text free of newline runs is free of them too. */
  lemma SuffixKeepsSingleNewlines(s: string, i: nat)
    requires NoDoubleNewline(s) && i <= |s|
    ensures NoDoubleNewline(s[i..])
  {
    var t := s[i..];
    forall k | 0 <= k < |t| - 1
      ensures !(t[k] == '\n' && t[k + 1] == '\n')
    {
      assert t[k] == s[i + k] && t[k + 1] == s[i + k + 1];
    }
  }

  /** `s.strip()`. What it keeps is stated by `StripKeepsMiddle` below. */
  function Strip(s: string): (r: string)
    ensures |r| <= |s|
    ensures Trimmed(r)
    ensures NoDoubleNewline(s) ==> NoDoubleNewline(r)
  {
    var left := StripLeft(s);
    assert NoDoubleNewline(s) ==> NoDoubleNewline(left) by {
      if NoDoubleNewline(s) {
        SuffixKeepsSingleNewlines(s, |s| - |left|);
      }
    }
    StripRight(left)
  }

  /** `s.strip()` is the middle of `s`, kept as it is, with the whitespace on
      both sides removed. As the result is also trimmed, this is the only
      such middle. */
  lemma StripKeepsMiddle(s: string)
    ensures Middle(Strip(s), s)
  {
    StripsToMiddle(s);
  }

  /** `JiraFetcher._clean_text` on a string: the five substitutions in order,
      then newline runs collapsed and the result stripped. */
  function Clean(text: string): (r: string)
    ensures text == "" ==> r == ""
    ensures |r| <= |text|
    ensures Trimmed(r)
    ensures NoDoubleNewline(r)
  {
    if text == "" then ""
    else
      var noColorTags := Substitute(ColorStart, text);
      var noColorEnds := Substitute(ColorEnd, noColorTags);
      var noCode := Substitute(CodeBlock, noColorEnds);
      var noImages := Substitute(Image, noCode);
      var noLinks := Substitute(Link, noImages);
      Strip(CollapseNewlines(noLinks))
  }

  /** `_clean_text` on whatever a Jira field holds: a falsy value (null, an
      empty string, ...) gives the empty string, any other string is cleaned,
      and any other value makes `re.sub` raise TypeError. */
  function CleanValue(v: Json): (r: Call<string>)
    ensures !Truthy(v) ==> r == Returned("")
    ensures v.Str? ==> r == Returned(Clean(v.s))
    ensures Truthy(v) && !v.Str? ==> r == Raised(TypeError)
  {
    if !Truthy(v) then Returned("")
    else if v.Str? then Returned(Clean(v.s))
    else Raised(TypeError)
  }
}
