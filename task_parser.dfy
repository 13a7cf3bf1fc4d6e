/**
 * The quick-command parser of TasksManager (`parser.js`): a line such as
 * "Buy milk #home @shop !2" becomes a title, a project, contexts and a priority.
 * The three global patterns are scanned left to right as the JavaScript engine
 * does, resuming after each match.
 */
module TaskParser {
  import opened Wrappers
  import opened Text

  /** `/#(\w+|[Ѐ-ӿ]+)/g`, `/@(\w+|[Ѐ-ӿ]+)/g` and `/!([1-3])/g`. */
  datatype Pattern = ProjectTag | ContextTag | PriorityTag

  function Sigil(pat: Pattern): char {
    match pat
    case ProjectTag => '#'
    case ContextTag => '@'
    case PriorityTag => '!'
  }

  /** `\w`. */
  predicate IsWordChar(c: char) { 'a' <= c <= 'z' || 'A' <= c <= 'Z' || '0' <= c <= '9' || c == '_' }

  /** `[Ѐ-ӿ]`. */
  predicate IsCyrillic(c: char) { 'Ѐ' <= c <= 'ӿ' }

  predicate InRun(c: char, cyrillic: bool) { if cyrillic then IsCyrillic(c) else IsWordChar(c) }

  /** The end of the run of word (or Cyrillic) characters from `i`. */
  function RunEnd(s: string, i: nat, cyrillic: bool): (j: nat)
    requires i <= |s|
    ensures i <= j <= |s|
    ensures forall k :: i <= k < j ==> InRun(s[k], cyrillic)
    ensures j == |s| || !InRun(s[j], cyrillic)
    decreases |s| - i
  {
    if i < |s| && InRun(s[i], cyrillic) then RunEnd(s, i + 1, cyrillic) else i
  }

  /**
   * The length of a match of `pat` at the start of `s`: the sigil, then the run
   * of word characters if one follows, else the run of Cyrillic letters; for the
   * priority, one digit 1 to 3.
   */
  function MatchLen(s: string, pat: Pattern): (r: Option<nat>)
    ensures r.Some? ==> 2 <= r.value <= |s| && s[0] == Sigil(pat)
    ensures r.Some? && pat == PriorityTag ==> r.value == 2 && '1' <= s[1] <= '3'
  {
    if |s| < 2 || s[0] != Sigil(pat) then None
    else if pat == PriorityTag then (if '1' <= s[1] <= '3' then Some(2) else None)
    else if IsWordChar(s[1]) then Some(RunEnd(s, 1, false))
    else if IsCyrillic(s[1]) then Some(RunEnd(s, 1, true))
    else None
  }

  /** `s.match(re)` for the global pattern: every full match, left to right. */
  function Matches(s: string, pat: Pattern): (r: seq<string>)
    ensures forall k :: 0 <= k < |r| ==> |r[k]| >= 2 && r[k][0] == Sigil(pat)
    ensures pat == PriorityTag ==> forall k :: 0 <= k < |r| ==> |r[k]| == 2 && '1' <= r[k][1] <= '3'
    decreases |s|
  {
    if s == [] then []
    else
      match MatchLen(s, pat)
      case Some(e) => [s[..e]] + Matches(s[e..], pat)
      case None => Matches(s[1..], pat)
  }

  /** `s.replace(re, '')` for the global pattern. */
  function RemoveMatches(s: string, pat: Pattern): (r: string)
    ensures |r| <= |s|
    decreases |s|
  {
    if s == [] then []
    else
      match MatchLen(s, pat)
      case Some(e) => RemoveMatches(s[e..], pat)
      case None => [s[0]] + RemoveMatches(s[1..], pat)
  }

  /** `.replace(/\s+/g, ' ')`: every run of white space becomes one space. */
  function CollapseSpaces(s: string): (r: string)
    ensures s != [] ==> r != [] && (if IsSpace(s[0]) then r[0] == ' ' else r[0] == s[0])
    ensures Collapsed(r)
    decreases |s|
  {
    if s == [] then []
    else if IsSpace(s[0]) then " " + CollapseSpaces(s[SpacesEnd(s, 0)..])
    else [s[0]] + CollapseSpaces(s[1..])
  }

  /** The only white space is single spaces. */
  predicate Collapsed(s: string) {
    && (forall k :: 0 <= k < |s| && IsSpace(s[k]) ==> s[k] == ' ')
    && (forall k :: 0 <= k < |s| - 1 ==> !(s[k] == ' ' && s[k + 1] == ' '))
  }

  /** A piece of a collapsed text is collapsed. */
  lemma CollapsedInfix(s: string, r: string, k: int)
    requires Collapsed(s) && InfixAt(s, r, k)
    ensures Collapsed(r)
  {
    assert forall i :: 0 <= i < |r| ==> r[i] == s[k + i];
  }

  /** The cleaned title: all tokens removed in turn, white space collapsed, ends trimmed. */
  function Title(text: string): (r: string)
    ensures NoSpaceAtEnds(r) && Collapsed(r)
  {
    var c := CollapseSpaces(RemoveMatches(RemoveMatches(RemoveMatches(text, ProjectTag), ContextTag), PriorityTag));
    var k :| EdgesTrimmed(c, Trim(c), k);
    CollapsedInfix(c, Trim(c), k);
    Trim(c)
  }

  datatype Command = Command(title: string, project: Option<string>, contexts: seq<string>, priority: Num, deadline: Option<string>)

  /**
   * `Parser.parseCommand` as written: nothing for a missing or blank text; the
   * project is the first `#` tag, the contexts are every `@` tag in order, and
   * the priority is `parseInt` of the second full `!n` match.
   */
  function ParseCommand(text: Option<string>): (r: Option<Command>)
    ensures r.None? <==> text.None? || Trim(text.value) == ""
    ensures r.Some? ==>
              && r.value.project == (if Matches(text.value, ProjectTag) == [] then None else Some(Matches(text.value, ProjectTag)[0][1..]))
              && |r.value.contexts| == |Matches(text.value, ContextTag)|
              && (forall k :: 0 <= k < |r.value.contexts| ==> [Sigil(ContextTag)] + r.value.contexts[k] == Matches(text.value, ContextTag)[k])
              && r.value.priority == (if Matches(text.value, PriorityTag) == [] then Int(0) else NaN)
              && r.value.title == Title(text.value)
              && r.value.deadline.None?
  {
    if text.None? || Trim(text.value) == "" then None
    else
      hide Matches, Title, RemoveMatches, CollapseSpaces, MatchLen, PriorityOfMatch, Trim;
      var t := text.value;
      var projects := Matches(t, ProjectTag);
      var contexts := Matches(t, ContextTag);
      var priorities := Matches(t, PriorityTag);
      var project := if projects == [] then None else Some(projects[0][1..]);
      var names := WithoutSigils(contexts, ContextTag);
      var priority :=
        if priorities == [] then Int(0)
        else if |priorities| >= 2 then PriorityOfMatch(priorities[1])
        else NaN;  // `parseInt(undefined)`
      Some(Command(Title(t), project, names, priority, None))
  }

  /** Each match with its leading sigil dropped. */
  function WithoutSigils(ms: seq<string>, pat: Pattern): (r: seq<string>)
    requires forall k :: 0 <= k < |ms| ==> |ms[k]| >= 2 && ms[k][0] == Sigil(pat)
    ensures |r| == |ms| && forall k :: 0 <= k < |ms| ==> [Sigil(pat)] + r[k] == ms[k]
  {
    assert forall k :: 0 <= k < |ms| ==> [ms[k][0]] + ms[k][1..] == ms[k];
    seq(|ms|, k requires 0 <= k < |ms| => ms[k][1..])
  }

  /** `parseInt` of a full priority match, which starts with "!". */
  function PriorityOfMatch(m: string): (r: Num)
    requires |m| == 2 && m[0] == '!'
    ensures r == NaN
  {
    assert TrimStart(m) == m;
    ParseInt(m)
  }

  /** The priority the parser evidently intends: the digit of the first `!n` token, 0 without one. */
  function IntendedPriority(text: string): (r: nat)
    ensures r <= 3
    ensures r == 0 <==> Matches(text, PriorityTag) == []
    ensures r > 0 ==> r == DigitValue(Matches(text, PriorityTag)[0][1])
  {
    var ps := Matches(text, PriorityTag);
    if ps == [] then 0 else DigitValue(ps[0][1])
  }

  // ---------------------------------------------------------------- lemmas

  /** Text before the first sigil contributes no match and is kept by the removal. */
  lemma {:induction false} SkipPlain(a: string, b: string, pat: Pattern)
    requires Sigil(pat) !in a
    ensures Matches(a + b, pat) == Matches(b, pat)
    ensures RemoveMatches(a + b, pat) == a + RemoveMatches(b, pat)
    decreases |a|
  {
    if a != [] {
      assert (a + b)[0] == a[0] && (a + b)[1..] == a[1..] + b;
      SkipPlain(a[1..], b, pat);
      assert a == [a[0]] + a[1..];
    } else {
      assert a + b == b;
    }
  }

  /** A tag of word characters, ended by a non-word character or the end, is one match. */
  lemma TagMatch(w: string, b: string, pat: Pattern)
    requires pat != PriorityTag && w != [] && forall k :: 0 <= k < |w| ==> IsWordChar(w[k])
    requires b == [] || !IsWordChar(b[0])
    ensures Matches([Sigil(pat)] + w + b, pat) == [[Sigil(pat)] + w] + Matches(b, pat)
  {
    var s := [Sigil(pat)] + w + b;
    var e := 1 + |w|;
    assert s[..e] == [Sigil(pat)] + w && s[e..] == b;
    assert forall k :: 1 <= k < e ==> s[k] == w[k - 1];
    RunEndAt(s, 1, e);
    assert MatchLen(s, pat) == Some(e);
    hide MatchLen;
    assert Matches(s, pat) == [s[..e]] + Matches(s[e..], pat);
  }

  lemma {:induction false} RunEndAt(s: string, i: nat, e: nat)
    requires i <= e <= |s| && (forall k :: i <= k < e ==> IsWordChar(s[k])) && (e == |s| || !IsWordChar(s[e]))
    ensures RunEnd(s, i, false) == e
    decreases e - i
  {
    if i < e { RunEndAt(s, i + 1, e); }
  }

  /** The contexts are listed in order of appearance: a leading `@word` comes first, then the contexts of the rest. */
  lemma ContextsInOrder(a: string, w: string, b: string)
    requires '@' !in a && w != [] && (forall k :: 0 <= k < |w| ==> IsWordChar(w[k])) && (b == [] || !IsWordChar(b[0]))
    ensures Matches(a + "@" + w + b, ContextTag) == ["@" + w] + Matches(b, ContextTag)
  {
    assert a + "@" + w + b == a + (['@'] + w + b);
    SkipPlain(a, ['@'] + w + b, ContextTag);
    TagMatch(w, b, ContextTag);
  }

  /** A text without `#` has no project. */
  lemma NoProjectWithoutHash(text: string)
    requires '#' !in text && Trim(text) != ""
    ensures ParseCommand(Some(text)).value.project.None?
  {
    SkipPlain(text, [], ProjectTag);
    assert text + [] == text;
  }

  /** The project is the first `#word`: a later tag does not replace it. */
  lemma ProjectIsFirstTag(a: string, w: string, b: string)
    requires '#' !in a && w != [] && (forall k :: 0 <= k < |w| ==> IsWordChar(w[k])) && (b == [] || !IsWordChar(b[0]))
    requires Trim(a + "#" + w + b) != ""
    ensures ParseCommand(Some(a + "#" + w + b)).value.project == Some(w)
  {
    hide ParseCommand, Matches, Title, Trim, RemoveMatches, CollapseSpaces;
    var s := a + "#" + w + b;
    assert s == a + (['#'] + w + b);
    SkipPlain(a, ['#'] + w + b, ProjectTag);
    TagMatch(w, b, ProjectTag);
    assert Matches(s, ProjectTag)[0] == ['#'] + w;
    assert (['#'] + w)[1..] == w;
  }

  /** A text without any of `#`, `@` and `!` is its own title, white space collapsed and trimmed. */
  lemma PlainTitle(text: string)
    requires '#' !in text && '@' !in text && '!' !in text
    ensures Title(text) == Trim(CollapseSpaces(text))
  {
    SkipPlain(text, [], ProjectTag);
    SkipPlain(text, [], ContextTag);
    SkipPlain(text, [], PriorityTag);
    assert text + [] == text;
  }

  /** As written, a priority token "!d" yields `NaN`, not d. */
  lemma PriorityTokenGivesNaN(a: string, d: char, b: string)
    requires '!' !in a && '1' <= d <= '3'
    ensures ParseCommand(Some(a + ['!', d] + b)).Some? && ParseCommand(Some(a + ['!', d] + b)).value.priority == NaN
    ensures IntendedPriority(a + ['!', d] + b) == DigitValue(d)
  {
    var s := a + ['!', d] + b;
    assert s == a + (['!', d] + b);
    SkipPlain(a, ['!', d] + b, PriorityTag);
    assert MatchLen(['!', d] + b, PriorityTag) == Some(2);
    assert (['!', d] + b)[..2] == ['!', d];
    assert Trim(s) != "" by {
      assert s[|a|] == '!' && !IsSpace(s[|a|]);
    }
  }
}
