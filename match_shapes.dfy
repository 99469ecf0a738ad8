/** What each of the cleaner's five regular expressions matches, written as
    the set of strings it accepts, and the proof that the matcher of the
    cleaner picks the match Python's backtracking engine picks: the shortest
    accepted prefix, and for a link the one with the shortest display text
    (the lazy `(.*?)` tries display texts from the shortest up). */
module MatchShapes {
  import opened Values
  import opened TextCleaner

  /** `\{color:[^}]+\}` accepts `t`. */
  predicate ColorTagShape(t: string) {
    |t| >= 9 && t[..7] == "{color:" && t[|t| - 1] == '}'
    && forall k :: 7 <= k < |t| - 1 ==> t[k] != '}'
  }

  /** `\{\{.*?\}\}` with DOTALL accepts `t`. */
  predicate CodeBlockShape(t: string) {
    |t| >= 4 && t[..2] == "{{" && t[|t| - 2..] == "}}"
  }

  /** `!\[?[^\]]*?!` accepts `t`: the optional `[` is itself not a `]`, so
      what lies between the two `!` is any text without `]`. */
  predicate ImageShape(t: string) {
    |t| >= 2 && t[0] == '!' && t[|t| - 1] == '!'
    && forall k :: 1 <= k < |t| - 1 ==> t[k] != ']'
  }

  /** `\[(.*?)\|[^\]]+\]` accepts `t` with its `|` at index `bar`: the display
      text `t[1..bar]` has no newline, the target is non-empty and has no `]`. */
  predicate LinkShape(t: string, bar: int) {
    1 <= bar && bar + 2 < |t| && t[0] == '[' && t[bar] == '|' && t[|t| - 1] == ']'
    && (forall k :: 1 <= k < bar ==> t[k] != '\n')
    && (forall k :: bar < k < |t| - 1 ==> t[k] != ']')
  }

  /** Pattern `p` accepts `t`, and `t` is replaced by `rep`. */
  ghost predicate Shape(p: Pattern, t: string, rep: string) {
    match p
    case ColorStart => ColorTagShape(t) && rep == ""
    case ColorEnd => t == "{color}" && rep == ""
    case CodeBlock => CodeBlockShape(t) && rep == ""
    case Image => ImageShape(t) && rep == ""
    case Link => exists bar :: LinkShape(t, bar) && rep == t[1..bar]
  }

  /** The first character of `cs` at or after `i` is at `close` when `close`
      holds one and nothing before it does. */
  lemma FirstOfAt(s: string, i: nat, cs: set<char>, close: nat)
    requires i <= close < |s| && s[close] in cs
    requires forall k :: i <= k < close ==> s[k] !in cs
    ensures FirstOf(s, i, cs) == Some(close)
  {
  }

  /** Every match of the matcher is accepted by the pattern, with the
      pattern's replacement. */
  lemma MatchSound(p: Pattern, s: string)
    requires MatchAt(p, s).Some?
    ensures Shape(p, s[..MatchAt(p, s).value.length], MatchAt(p, s).value.replacement)
  {
    var h := MatchAt(p, s).value;
    var t := s[..h.length];
    assert forall k :: 0 <= k < |t| ==> t[k] == s[k];
    match p
    case ColorStart =>
      assert t[..7] == s[..7];
    case ColorEnd =>
      assert t == s[..7];
    case CodeBlock =>
      assert t[..2] == s[..2];
      assert t[|t| - 2..] == "}}";
    case Image =>
    case Link =>
      var split := LinkFrom(s, 1).value;
      assert LinkShape(t, split.0);
      assert t[1..split.0] == s[1..split.0];
  }

  /** The lazy link scan from `j` stops no later than any bar `bar` ahead of
      it that has a valid target ending at `close`, and its target ends no
      later than `close`. */
  lemma {:induction false} LinkFromLeast(s: string, j: nat, bar: nat, close: nat)
    requires j <= bar && bar + 1 < close < |s|
    requires s[bar] == '|' && s[close] == ']'
    requires forall k :: j <= k < bar ==> s[k] != '\n'
    requires forall k :: bar < k < close ==> s[k] != ']'
    ensures LinkFrom(s, j).Some?
    ensures LinkFrom(s, j).value.0 <= bar && LinkFrom(s, j).value.1 <= close
    decreases bar - j
  {
    if j == bar {
      FirstOfAt(s, bar + 1, {']'}, close);
    } else {
      if s[j] == '|' {
        var c := FirstOf(s, j + 1, {']'});
        assert c.Some? && c.value <= close;
        if c.value <= j + 1 {
          LinkFromLeast(s, j + 1, bar, close);
        }
      } else {
        LinkFromLeast(s, j + 1, bar, close);
      }
    }
  }

  /** Whenever the pattern accepts a prefix of `s`, the matcher finds a match
      no longer than that prefix, and for a link one whose display text is no
      longer: the leftmost-shortest choice of the regular-expression engine. */
  lemma MatchLeast(p: Pattern, s: string, n: nat, rep: string)
    requires n <= |s| && Shape(p, s[..n], rep)
    ensures MatchAt(p, s).Some? && MatchAt(p, s).value.length <= n
    ensures p == Link ==> |MatchAt(p, s).value.replacement| <= |rep|
  {
    var t := s[..n];
    assert forall k :: 0 <= k < n ==> t[k] == s[k];
    match p
    case ColorStart =>
      assert s[..7] == t[..7];
      var c := FirstOf(s, 7, {'}'});
      assert s[7] == t[7];
      assert c.Some? && 7 < c.value <= n - 1;
    case ColorEnd =>
      assert s[..7] == t;
    case CodeBlock =>
      assert s[..2] == t[..2];
      assert ClosesAt(s, n - 2) by {
        assert t[|t| - 2..][0] == s[n - 2] && t[|t| - 2..][1] == s[n - 1];
      }
      var c := FirstClose(s, 2);
      assert c.Some? && c.value <= n - 2;
    case Image =>
      var c := FirstOf(s, 1, {'!', ']'});
      assert c.Some? && c.value <= n - 1;
      if c.value < n - 1 {
        assert s[c.value] == t[c.value];
      }
    case Link =>
      var bar :| LinkShape(t, bar) && rep == t[1..bar];
      LinkFromLeast(s, 1, bar, n - 1);
  }

  /** The matcher finds nothing exactly when no prefix of `s` is accepted. */
  lemma NoMatch(p: Pattern, s: string)
    requires MatchAt(p, s).None?
    ensures forall n, rep :: 0 <= n <= |s| ==> !Shape(p, s[..n], rep)
  {
    forall n: nat, rep | n <= |s|
      ensures !Shape(p, s[..n], rep)
    {
      if Shape(p, s[..n], rep) {
        MatchLeast(p, s, n, rep);
      }
    }
  }
}
