/**
 * Lesson kinds and their week annotations (ScheduleBot/src/parsers/schedule.js):
 * `parseType` maps an abbreviation such as "п.з" to a kind name, and
 * `parseTypesAndWeeks` reads parenthesised annotations such as
 * "(л.: 33 нед. п.з.: 24-32,34-40 нед.)" into a list of kinds with week sets.
 */
module LessonKinds {
  import opened Wrappers
  import opened Text
  import WeekSets

  const Lecture: string := "лекция"
  const Practice: string := "практическое занятие"
  const Lab: string := "лабораторная работа"
  const Seminar: string := "семинар"
  const Consultation: string := "консультация"
  const Exam: string := "экзамен"

  predicate IsKindName(k: string) {
    k == Lecture || k == Practice || k == Lab || k == Seminar || k == Consultation || k == Exam
  }

  /** One annotated kind of a lesson and the weeks it takes place in. */
  datatype KindWeeks = KindWeeks(kind: string, weeks: set<int>, rawWeeks: string)

  /**
   * `parseType`: the kind named by an abbreviation, tested in a fixed order on
   * the lower-cased code; an unknown code is returned unchanged.
   */
  function ParseType(code: string): (r: string)
    ensures r == "" <==> code == ""
    ensures IsKindName(r) || r == code
  {
    if code == "" then ""
    else
      var c := Lower(code);
      if Contains(c, "л.") || c == "л" then Lecture
      else if Contains(c, "п.з") || Contains(c, "пз") then Practice
      else if Contains(c, "лаб") then Lab
      else if Contains(c, "сем") then Seminar
      else if Contains(c, "конс") then Consultation
      else if Contains(c, "экз") then Exam
      else code
  }

  // ---------------------------------------------------------------- the abbreviations

  /** The alternatives `л|п\.?з|лаб|сем|конс|экз` of the kind pattern, in the order they are tried. */
  const Codes: seq<string> := ["л", "п.з", "пз", "лаб", "сем", "конс", "экз"]

  /** The kind each alternative stands for. */
  function KindOfCode(code: string): string {
    if code == "л" then Lecture
    else if code == "п.з" || code == "пз" then Practice
    else if code == "лаб" then Lab
    else if code == "сем" then Seminar
    else if code == "конс" then Consultation
    else Exam
  }

  /** Every abbreviation the patterns capture, in any letter case, names its kind. */
  lemma {:induction false} ParseTypeOfCode(x: string, code: string)
    requires code in Codes && Lower(x) == code
    ensures ParseType(x) == KindOfCode(code)
  {
    if code == "л" { CodeL(); }
    else if code == "п.з" { CodePZDot(); }
    else if code == "пз" { CodePZ(); }
    else if code == "лаб" { CodeLab(); }
    else if code == "сем" { CodeSem(); }
    else if code == "конс" { CodeKons(); }
    else { CodeEkz(); }
  }

  lemma CodeL() ensures !Contains("л", "л.") { NotContainsChar("л", "л.", 1); }
  lemma CodePZDot() ensures !Contains("п.з", "л.") && Contains("п.з", "п.з")
  {
    NotContainsChar("п.з", "л.", 0);
    StartsWithContains("п.з", "п.з");
  }
  lemma CodePZ() ensures !Contains("пз", "л.") && Contains("пз", "пз")
  {
    NotContainsChar("пз", "л.", 0);
    StartsWithContains("пз", "пз");
  }
  lemma CodeLab()
    ensures !Contains("лаб", "л.") && !Contains("лаб", "п.з") && !Contains("лаб", "пз") && Contains("лаб", "лаб")
  {
    NotContainsChar("лаб", "л.", 1);
    NotContainsChar("лаб", "п.з", 0);
    NotContainsChar("лаб", "пз", 0);
    StartsWithContains("лаб", "лаб");
  }
  lemma CodeSem()
    ensures !Contains("сем", "л.") && !Contains("сем", "п.з") && !Contains("сем", "пз") && !Contains("сем", "лаб")
    ensures Contains("сем", "сем")
  {
    NotContainsChar("сем", "л.", 0);
    NotContainsChar("сем", "п.з", 0);
    NotContainsChar("сем", "пз", 0);
    NotContainsChar("сем", "лаб", 0);
    StartsWithContains("сем", "сем");
  }
  lemma CodeKons()
    ensures !Contains("конс", "л.") && !Contains("конс", "п.з") && !Contains("конс", "пз") && !Contains("конс", "лаб")
    ensures !Contains("конс", "сем") && Contains("конс", "конс")
  {
    NotContainsChar("конс", "л.", 0);
    NotContainsChar("конс", "п.з", 0);
    NotContainsChar("конс", "пз", 0);
    NotContainsChar("конс", "лаб", 0);
    NotContainsChar("конс", "сем", 1);
    StartsWithContains("конс", "конс");
  }
  lemma CodeEkz()
    ensures !Contains("экз", "л.") && !Contains("экз", "п.з") && !Contains("экз", "пз") && !Contains("экз", "лаб")
    ensures !Contains("экз", "сем") && !Contains("экз", "конс") && Contains("экз", "экз")
  {
    NotContainsChar("экз", "л.", 0);
    NotContainsChar("экз", "п.з", 0);
    NotContainsChar("экз", "пз", 0);
    NotContainsChar("экз", "лаб", 0);
    NotContainsChar("экз", "сем", 0);
    NotContainsChar("экз", "конс", 1);
    StartsWithContains("экз", "экз");
  }

  // ---------------------------------------------------------------- formatDetailedWeeks

  /** The short label `formatDetailedWeeks` prints for a kind. */
  function DetailPrefix(kind: string): string {
    if kind == Lecture then "л." else if kind == Practice then "п.з." else kind
  }

  /** One annotation rendered as "label: weeks". */
  function Detail(info: KindWeeks): string {
    DetailPrefix(info.kind) + ": " + WeekSets.NormalizeWeeks(info.weeks)
  }

  function Details(infos: seq<KindWeeks>): (r: seq<string>)
    ensures |r| == |infos|
    ensures forall i :: 0 <= i < |infos| ==> r[i] == Detail(infos[i])
  {
    if infos == [] then [] else [Detail(infos[0])] + Details(infos[1..])
  }

  /** `formatDetailedWeeks`: the annotations rendered one after another, separated by a space. */
  function FormatDetailedWeeks(infos: seq<KindWeeks>): (r: string)
    ensures r == "" <==> infos == []
  {
    if infos == [] then ""
    else
      var parts := Details(infos);
      JoinStartsWithFirst(parts, " ");
      Join(parts, " ")
  }

  lemma {:induction false} JoinStartsWithFirst(parts: seq<string>, sep: string)
    requires parts != []
    ensures StartsWith(Join(parts, sep), parts[0])
  {
    if |parts| > 1 {
      PrefixAndSuffix(parts[0], sep + Join(parts[1..], sep));
      assert parts[0] + sep + Join(parts[1..], sep) == parts[0] + (sep + Join(parts[1..], sep));
    }
  }

  /** A lecture's annotation is printed under the short label "л." followed by its normalised weeks. */
  lemma {:induction false} FormatLectureDetail(weeks: set<int>)
    ensures FormatDetailedWeeks([KindWeeks(Lecture, weeks, "")]) == "л.: " + WeekSets.NormalizeWeeks(weeks)
  {
    hide WeekSets.NormalizeWeeks;
    assert Details([KindWeeks(Lecture, weeks, "")]) == [Detail(KindWeeks(Lecture, weeks, ""))];
  }

  /** Each annotation is printed under its label, in order: the rendering of a longer list extends that of its first element. */
  lemma {:induction false} FormatDetailedWeeksCons(info: KindWeeks, rest: seq<KindWeeks>)
    requires rest != []
    ensures FormatDetailedWeeks([info] + rest) == Detail(info) + " " + FormatDetailedWeeks(rest)
  {
    var parts := Details([info] + rest);
    assert parts[1..] == Details(rest);
  }

  // ---------------------------------------------------------------- the parenthesised groups

  /** The contents of the groups `\(([^)]+)\)` found scanning from `i`, left to right. */
  function ParenGroupsFrom(text: string, i: nat): (r: seq<string>)
    requires i <= |text|
    ensures forall k :: 0 <= k < |r| ==> r[k] != [] && ')' !in r[k]
    decreases |text| - i
  {
    if i == |text| then []
    else if text[i] != '(' then ParenGroupsFrom(text, i + 1)
    else
      match IndexOfFrom(text, ")", i + 1)
      case None => []
      case Some(j) =>
        if j == i + 1 then ParenGroupsFrom(text, i + 1)
        else
          NoCloseBefore(text, i + 1, j);
          [text[i + 1..j]] + ParenGroupsFrom(text, j + 1)
  }

  lemma {:induction false} NoCloseBefore(text: string, from: nat, j: nat)
    requires from <= j <= |text|
    requires forall k :: from <= k < j ==> !OccursAt(text, ")", k)
    ensures forall k :: from <= k < j ==> text[k] != ')'
  {
    forall k | from <= k < j ensures text[k] != ')' {
      if text[k] == ')' {
        assert text[k..k + 1] == [text[k]];
        assert OccursAt(text, ")", k);
      }
    }
  }

  function ParenGroups(text: string): seq<string> { ParenGroupsFrom(text, 0) }

  /** Text holding no '(' carries no annotation group. */
  lemma {:induction false} NoParenNoGroups(text: string, i: nat)
    requires i <= |text| && '(' !in text
    ensures ParenGroupsFrom(text, i) == []
    decreases |text| - i
  {
    if i < |text| {
      assert text[i] in text;
      NoParenNoGroups(text, i + 1);
    }
  }

  /** A single group wrapped in parentheses is read back whole. */
  lemma {:induction false} ParenGroupsOfWrapped(g: string)
    requires g != [] && ')' !in g
    ensures ParenGroups("(" + g + ")") == [g]
  {
    var t := "(" + g + ")";
    var e := |g| + 1;
    assert OccursAt(t, ")", e);
    forall k | 1 <= k < e ensures !OccursAt(t, ")", k) {
      assert t[k] == g[k - 1];
      assert t[k..k + 1][0] == t[k];
    }
    IndexOfFromFirst(t, ")", 1, e);
    assert t[0] == '(' && t[1..e] == g;
    assert ParenGroupsFrom(t, e + 1) == [];
  }

  lemma {:induction false} IndexOfFromFirst(s: string, p: string, from: nat, e: nat)
    requires from <= e && OccursAt(s, p, e)
    requires forall k :: from <= k < e ==> !OccursAt(s, p, k)
    ensures IndexOfFrom(s, p, from) == Some(e)
  {
  }

  // ---------------------------------------------------------------- the kind pattern

  /** The characters outside `[a-zа-я]` under case-insensitive matching: ASCII and basic Cyrillic letters are excluded. */
  predicate IsPatternLetter(c: char) {
    'a' <= c <= 'z' || 'A' <= c <= 'Z' || 'А' <= c <= 'я'
  }

  /** The end of the run of non-letters starting at `i`. */
  function NonLetterEnd(s: string, i: nat): (j: nat)
    requires i <= |s|
    ensures i <= j <= |s|
    ensures forall k :: i <= k < j ==> !IsPatternLetter(s[k])
    ensures j == |s| || IsPatternLetter(s[j])
    decreases |s| - i
  {
    if i == |s| || IsPatternLetter(s[i]) then i else NonLetterEnd(s, i + 1)
  }

  /** "нед" in any letter case at `r`. */
  predicate NedAt(c: string, r: nat) {
    MatchesAt(c, r, "нед")
  }

  /** Where the match ends after "нед" and its optional '.'. */
  function NedEnd(c: string, r: nat): (e: nat)
    requires NedAt(c, r)
    ensures r + 3 <= e <= |c|
  {
    if r + 3 < |c| && c[r + 3] == '.' then r + 4 else r + 3
  }

  /** One match of the kind pattern: the abbreviation as written, the week text and where the match ends. */
  datatype KindMatch = KindMatch(code: string, weeks: string, end: nat)

  /**
   * The kind pattern `code\.?\s*:\s*([^a-zа-я]+)нед\.?` with the alternative
   * `code` at `p`. The week text is the maximal run of non-letters after the
   * spaces; when that run is empty the pattern backtracks to give it the last space.
   */
  function TypedAt(c: string, p: nat, code: string): (r: Option<KindMatch>)
    requires p <= |c|
    ensures r.Some? ==> p < r.value.end <= |c| && Lower(r.value.code) == code && r.value.weeks != []
  {
    if !MatchesAt(c, p, code) then None
    else
      var q := p + |code|;
      var q1 := if q < |c| && c[q] == '.' then q + 1 else q;
      var q2 := SpacesEnd(c, q1);
      if !(q2 < |c| && c[q2] == ':') then None
      else
        var q3 := SpacesEnd(c, q2 + 1);
        var e := NonLetterEnd(c, q3);
        if e > q3 then
          if NedAt(c, e) then Some(KindMatch(c[p..q], c[q3..e], NedEnd(c, e))) else None
        else if q3 > q2 + 1 && NedAt(c, q3) then Some(KindMatch(c[p..q], c[q3 - 1..q3], NedEnd(c, q3)))
        else None
  }

  /** The alternatives tried in order at `p`; the first that completes the pattern wins. */
  function TypedAtAny(c: string, p: nat, codes: seq<string>): (r: Option<KindMatch>)
    requires p <= |c|
    ensures r.Some? ==> p < r.value.end <= |c| && Lower(r.value.code) in codes && r.value.weeks != []
  {
    if codes == [] then None
    else match TypedAt(c, p, codes[0])
      case Some(m) => Some(m)
      case None => TypedAtAny(c, p, codes[1..])
  }

  /** All matches of the global kind pattern from `p`, each search resuming where the previous match ended. */
  function KindMatchesFrom(c: string, p: nat): (r: seq<KindMatch>)
    requires p <= |c|
    ensures forall k :: 0 <= k < |r| ==> IsCode(r[k].code)
    decreases |c| - p
  {
    if p == |c| then []
    else match TypedAtAny(c, p, Codes)
      case Some(m) => [m] + KindMatchesFrom(c, m.end)
      case None => KindMatchesFrom(c, p + 1)
  }

  // ---------------------------------------------------------------- the single-kind fallback

  /** The first alternative, in the order given, that matches at the start. */
  function FirstCodeAt(c: string, codes: seq<string>): (r: Option<string>)
    ensures r.Some? ==> r.value in codes && MatchesAt(c, 0, r.value)
    ensures r.None? ==> forall k :: 0 <= k < |codes| ==> !MatchesAt(c, 0, codes[k])
  {
    if codes == [] then None
    else if MatchesAt(c, 0, codes[0]) then Some(codes[0])
    else FirstCodeAt(c, codes[1..])
  }

  /** The end of the line starting at `i`: where `.*` stops. */
  function LineEnd(s: string, i: nat): (j: nat)
    requires i <= |s|
    ensures i <= j <= |s|
    ensures forall k :: i <= k < j ==> !IsLineTerminator(s[k])
    ensures j == |s| || IsLineTerminator(s[j])
    decreases |s| - i
  {
    if i == |s| || IsLineTerminator(s[i]) then i else LineEnd(s, i + 1)
  }

  /** `replace(/нед\.?$/, '')`: a trailing "нед." or "нед" is dropped. */
  function StripNed(s: string): (r: string)
    ensures |r| <= |s| && r == s[..|r|]
  {
    if EndsWith(s, "нед.") then s[..|s| - 4]
    else if EndsWith(s, "нед") then s[..|s| - 3]
    else s
  }

  /**
   * The anchored pattern `^code\.?\s*[:\s]?\s*(.*)`: the abbreviation (the first
   * alternative in `codes` that matches at the start) and the trimmed rest of the
   * first line without its trailing "нед".
   */
  function SingleMatch(c: string, codes: seq<string>): (r: Option<(string, string)>)
    ensures r.Some? ==> Lower(r.value.0) in codes && NoSpaceAtEnds(r.value.1)
  {
    match FirstCodeAt(c, codes)
    case None => None
    case Some(code) =>
      var q := |code|;
      var q1 := if q < |c| && c[q] == '.' then q + 1 else q;
      var q2 := SpacesEnd(c, q1);
      var q3 := if q2 < |c| && c[q2] == ':' then q2 + 1 else q2;
      var q4 := SpacesEnd(c, q3);
      Some((c[..q], Trim(StripNed(c[q4..LineEnd(c, q4)]))))
  }

  /** `x` is one of the abbreviations, in any letter case. */
  predicate IsCode(x: string) { Lower(x) in Codes }

  /** The annotation of one typed match. */
  function MatchKind(m: KindMatch): (kw: KindWeeks)
    requires IsCode(m.code)
    ensures IsKindName(kw.kind) && NonNegative(kw.weeks)
  {
    hide ParseType, WeekSets.WeeksOf, Trim;
    ParseTypeOfCode(m.code, Lower(m.code));
    KindWeeks(ParseType(m.code), WeekSets.WeeksOf(m.weeks), Trim(m.weeks))
  }

  /** The annotations of the typed matches, in order. */
  function MatchKinds(ms: seq<KindMatch>): (r: seq<KindWeeks>)
    requires forall k :: 0 <= k < |ms| ==> IsCode(ms[k].code)
    ensures |r| == |ms|
    ensures forall k :: 0 <= k < |r| ==> r[k] == MatchKind(ms[k])
  {
    seq(|ms|, k requires 0 <= k < |ms| => MatchKind(ms[k]))
  }

  /** The annotation of the single kind at the start of a group. */
  function SingleKind(code: string, ws: string): (kw: KindWeeks)
    requires IsCode(code)
    ensures IsKindName(kw.kind) && NonNegative(kw.weeks)
  {
    hide ParseType, WeekSets.WeeksOf;
    ParseTypeOfCode(code, Lower(code));
    KindWeeks(ParseType(code), WeekSets.WeeksOf(ws), ws)
  }

  predicate NonNegative(ws: set<int>) { forall w :: w in ws ==> w >= 0 }

  /**
   * The annotations of one group: every typed match, or failing any, the single
   * kind at its start (with `codes` as the order of the alternatives).
   */
  function GroupKinds(content: string, codes: seq<string>): (r: seq<KindWeeks>)
    requires forall k :: 0 <= k < |codes| ==> codes[k] in Codes
    ensures forall k :: 0 <= k < |r| ==> IsKindName(r[k].kind) && NonNegative(r[k].weeks)
  {
    hide KindMatchesFrom, MatchKinds, MatchKind, SingleMatch, SingleKind, ParseType;
    var ms := KindMatchesFrom(content, 0);
    if ms != [] then MatchKinds(ms)
    else match SingleMatch(content, codes)
      case None => []
      case Some((code, ws)) => [SingleKind(code, ws)]
  }

  function GroupsKinds(groups: seq<string>, codes: seq<string>): (r: seq<KindWeeks>)
    requires forall k :: 0 <= k < |codes| ==> codes[k] in Codes
    ensures forall k :: 0 <= k < |r| ==> IsKindName(r[k].kind) && NonNegative(r[k].weeks)
  {
    if groups == [] then [] else GroupKinds(groups[0], codes) + GroupsKinds(groups[1..], codes)
  }

  /**
   * `parseTypesAndWeeks`: every annotation found in the parenthesised groups of
   * `text`, in order; each names a known kind and only non-negative weeks. The
   * fallback tries the alternatives in pattern order, so "л" shadows "лаб".
   */
  function ParseTypesAndWeeks(text: string): (r: seq<KindWeeks>)
    ensures forall k :: 0 <= k < |r| ==> IsKindName(r[k].kind) && NonNegative(r[k].weeks)
  {
    GroupsKinds(ParenGroups(text), Codes)
  }

  /** The fallback's alternatives with "лаб" ahead of its prefix "л". */
  const SingleCodes: seq<string> := ["лаб", "л", "п.з", "пз", "сем", "конс", "экз"]

  /** The parse the fallback evidently intends: "лаб" tried before "л". */
  function IntendedTypesAndWeeks(text: string): (r: seq<KindWeeks>)
    ensures forall k :: 0 <= k < |r| ==> IsKindName(r[k].kind) && NonNegative(r[k].weeks)
  {
    GroupsKinds(ParenGroups(text), SingleCodes)
  }

  /** Text without parentheses has no annotations. */
  lemma NoParenNoKinds(text: string)
    requires '(' !in text
    ensures ParseTypesAndWeeks(text) == []
  {
    NoParenNoGroups(text, 0);
  }

  // ---------------------------------------------------------------- the fallback order

  /** Without a ':' no typed annotation can match, so a group falls back to the single-kind form. */
  lemma {:induction false} NoColonNoKindMatches(c: string, p: nat)
    requires p <= |c| && ':' !in c
    ensures KindMatchesFrom(c, p) == []
    decreases |c| - p
  {
    if p < |c| {
      NoColonNoTypedAt(c, p, Codes);
      NoColonNoKindMatches(c, p + 1);
    }
  }

  lemma {:induction false} NoColonNoTypedAt(c: string, p: nat, codes: seq<string>)
    requires p <= |c| && ':' !in c
    ensures TypedAtAny(c, p, codes) == None
  {
    if codes != [] {
      var code := codes[0];
      if MatchesAt(c, p, code) {
        var q := p + |code|;
        var q1 := if q < |c| && c[q] == '.' then q + 1 else q;
        var q2 := SpacesEnd(c, q1);
        if q2 < |c| { assert c[q2] in c; }
      }
      NoColonNoTypedAt(c, p, codes[1..]);
    }
  }

  /** An alternative whose `i`-th letter differs from the text's does not match at the start. */
  lemma {:induction false} Mismatch(c: string, code: string, i: nat)
    requires i < |code| && (i >= |c| || LowerChar(c[i]) != code[i])
    ensures !MatchesAt(c, 0, code)
  {
  }

  lemma {:induction false} LowerOfCode(x: string)
    requires x in Codes
    ensures Lower(x) == x
  {
    assert forall i :: 0 <= i < |x| ==> LowerChar(x[i]) == x[i];
  }

  lemma {:induction false} CodeAtOwnStart(x: string, rest: string)
    requires x in Codes
    ensures MatchesAt(x + rest, 0, x)
  {
    LowerOfCode(x);
    assert (x + rest)[..|x|] == x;
  }

  /** The first alternative that matches is the one found. */
  lemma {:induction false} FirstCodeAtIndex(c: string, codes: seq<string>, k: nat)
    requires k < |codes| && MatchesAt(c, 0, codes[k])
    requires forall j :: 0 <= j < k ==> !MatchesAt(c, 0, codes[j])
    ensures FirstCodeAt(c, codes) == Some(codes[k])
  {
    if k > 0 {
      FirstCodeAtIndex(c, codes[1..], k - 1);
    }
  }

  /**
   * With "лаб" tried before "л", the fallback picks the abbreviation actually
   * written at the start of the group, whatever non-letter follows it.
   */
  lemma {:induction false} SingleCodesPickWrittenCode(x: string, rest: string)
    requires x in Codes
    requires rest == [] || !IsPatternLetter(rest[0])
    ensures FirstCodeAt(x + rest, SingleCodes) == Some(x)
  {
    CodeAtOwnStart(x, rest);
    if x == "лаб" { FirstCodeAtIndex(x + rest, SingleCodes, 0); }
    else if x == "л" { PickL(rest); }
    else if x == "п.з" { PickPZDot(rest); }
    else if x == "пз" { PickPZ(rest); }
    else if x == "сем" { PickSem(rest); }
    else if x == "конс" { PickKons(rest); }
    else { PickEkz(rest); }
  }

  lemma {:induction false} PickL(rest: string)
    requires rest == [] || !IsPatternLetter(rest[0])
    ensures FirstCodeAt("л" + rest, SingleCodes) == Some("л")
  {
    var c := "л" + rest;
    CodeAtOwnStart("л", rest);
    if rest != [] { assert c[1] == rest[0]; }
    Mismatch(c, "лаб", 1);
    FirstCodeAtIndex(c, SingleCodes, 1);
  }

  /** The text starts with a letter other than 'л', so neither "лаб" nor "л" match. */
  lemma {:induction false} NotL(c: string)
    requires c != [] && LowerChar(c[0]) != 'л'
    ensures !MatchesAt(c, 0, SingleCodes[0]) && !MatchesAt(c, 0, SingleCodes[1])
  {
    Mismatch(c, "лаб", 0);
    Mismatch(c, "л", 0);
  }

  lemma {:induction false} PickPZDot(rest: string)
    ensures FirstCodeAt("п.з" + rest, SingleCodes) == Some("п.з")
  {
    var c := "п.з" + rest;
    CodeAtOwnStart("п.з", rest);
    NotL(c);
    FirstCodeAtIndex(c, SingleCodes, 2);
  }

  lemma {:induction false} PickPZ(rest: string)
    ensures FirstCodeAt("пз" + rest, SingleCodes) == Some("пз")
  {
    var c := "пз" + rest;
    CodeAtOwnStart("пз", rest);
    NotL(c);
    Mismatch(c, "п.з", 1);
    FirstCodeAtIndex(c, SingleCodes, 3);
  }

  /** The text starts with a letter other than 'л' and 'п', so the first four alternatives fail. */
  lemma {:induction false} NotLP(c: string)
    requires c != [] && LowerChar(c[0]) != 'л' && LowerChar(c[0]) != 'п'
    ensures forall j :: 0 <= j < 4 ==> !MatchesAt(c, 0, SingleCodes[j])
  {
    NotL(c);
    Mismatch(c, "п.з", 0);
    Mismatch(c, "пз", 0);
  }

  lemma {:induction false} PickSem(rest: string)
    ensures FirstCodeAt("сем" + rest, SingleCodes) == Some("сем")
  {
    var c := "сем" + rest;
    CodeAtOwnStart("сем", rest);
    NotLP(c);
    FirstCodeAtIndex(c, SingleCodes, 4);
  }

  lemma {:induction false} PickKons(rest: string)
    ensures FirstCodeAt("конс" + rest, SingleCodes) == Some("конс")
  {
    var c := "конс" + rest;
    CodeAtOwnStart("конс", rest);
    NotLP(c);
    Mismatch(c, "сем", 0);
    FirstCodeAtIndex(c, SingleCodes, 5);
  }

  lemma {:induction false} PickEkz(rest: string)
    ensures FirstCodeAt("экз" + rest, SingleCodes) == Some("экз")
  {
    var c := "экз" + rest;
    CodeAtOwnStart("экз", rest);
    NotLP(c);
    Mismatch(c, "сем", 0);
    Mismatch(c, "конс", 0);
    FirstCodeAtIndex(c, SingleCodes, 6);
  }

  /** A wrapped group without ':' yields exactly the fallback's single annotation. */
  lemma {:induction false} WrappedSingle(g: string, codes: seq<string>, code: string, ws: string)
    requires forall k :: 0 <= k < |codes| ==> codes[k] in Codes
    requires g != [] && ')' !in g && ':' !in g
    requires SingleMatch(g, codes) == Some((code, ws))
    ensures IsCode(code)
    ensures GroupsKinds(ParenGroups("(" + g + ")"), codes) == [SingleKind(code, ws)]
  {
    hide GroupKinds, ParenGroups, SingleMatch, SingleKind, FirstCodeAt;
    var i :| 0 <= i < |codes| && codes[i] == Lower(code);
    assert IsCode(code);
    ParenGroupsOfWrapped(g);
    GroupOfSingle(g, codes, code, ws);
    assert GroupsKinds([g], codes) == GroupKinds(g, codes) + GroupsKinds([], codes);
  }

  /** A group without ':' is read by the single-kind fallback alone. */
  lemma GroupOfSingle(g: string, codes: seq<string>, code: string, ws: string)
    requires forall k :: 0 <= k < |codes| ==> codes[k] in Codes
    requires ':' !in g && IsCode(code)
    requires SingleMatch(g, codes) == Some((code, ws))
    ensures GroupKinds(g, codes) == [SingleKind(code, ws)]
  {
    NoColonNoKindMatches(g, 0);
    hide SingleMatch, SingleKind, KindMatchesFrom, MatchKinds;
  }

  /** A wrapped group without ':' whose start matches `c` first is one annotation of kind `c`. */
  lemma {:induction false} WrappedCode(g: string, codes: seq<string>, c: string) returns (ws: string)
    requires forall k :: 0 <= k < |codes| ==> codes[k] in Codes
    requires g != [] && ')' !in g && ':' !in g
    requires FirstCodeAt(g, codes) == Some(c)
    ensures c in Codes && |c| <= |g| && Lower(g[..|c|]) == c
    ensures GroupsKinds(ParenGroups("(" + g + ")"), codes) == [SingleKind(g[..|c|], ws)]
  {
    var m := SingleMatch(g, codes);
    assert m.Some? && m.value.0 == g[..|c|];
    ws := m.value.1;
    hide SingleMatch, FirstCodeAt, GroupsKinds, GroupKinds, ParenGroups;
    WrappedSingle(g, codes, m.value.0, ws);
  }

  /** In pattern order "л" is tried first, so it wins on any text starting with 'л'. */
  lemma {:induction false} PatternOrderPicksL(rest: string)
    ensures FirstCodeAt("л" + rest, Codes) == Some("л")
  {
    CodeAtOwnStart("л", rest);
    FirstCodeAtIndex("л" + rest, Codes, 0);
  }

  /**
   * As written, a group "(лаб…)" without a ':' is always read as a lecture: the
   * fallback tries "л" before "лаб", and "л" matches the start of "лаб".
   */
  lemma {:induction false} LabReadAsLectureAsWritten(rest: string)
    requires ')' !in rest && ':' !in rest
    ensures |ParseTypesAndWeeks("(" + ("лаб" + rest) + ")")| == 1
    ensures ParseTypesAndWeeks("(" + ("лаб" + rest) + ")")[0].kind == Lecture
  {
    var g := "лаб" + rest;
    PatternOrderPicksL("аб" + rest);
    assert "л" + ("аб" + rest) == g;
    assert ')' !in g && ':' !in g;
    var ws := WrappedCode(g, Codes, "л");
    ParseTypeOfCode(g[..1], "л");
  }

  /**
   * With "лаб" tried first, a group "(лаб…)" whose abbreviation is followed by a
   * non-letter and that has no ':' is one laboratory-session annotation.
   */
  lemma {:induction false} LabReadAsLab(rest: string)
    requires ')' !in rest && ':' !in rest
    requires rest == [] || !IsPatternLetter(rest[0])
    ensures |IntendedTypesAndWeeks("(" + ("лаб" + rest) + ")")| == 1
    ensures IntendedTypesAndWeeks("(" + ("лаб" + rest) + ")")[0].kind == Lab
  {
    var g := "лаб" + rest;
    SingleCodesPickWrittenCode("лаб", rest);
    assert ')' !in g && ':' !in g;
    hide FirstCodeAt, ParenGroups, GroupsKinds, MatchesAt;
    var ws := WrappedCode(g, SingleCodes, "лаб");
    ParseTypeOfCode(g[..3], "лаб");
  }

  // ---------------------------------------------------------------- a typed annotation

  /** Week text as the typed pattern captures it whole: non-empty, no letter, no ')' and no leading white space. */
  predicate WeekText(w: string) {
    w != [] && !IsSpace(w[0]) && forall i :: 0 <= i < |w| ==> !IsPatternLetter(w[i]) && w[i] != ')'
  }

  /** `g` is "k:wнед": the abbreviation, a ':', the week text and "нед". */
  predicate TypedShape(g: string, k: string, w: string) {
    && |g| == |k| + |w| + 4 && g[..|k|] == k && g[|k|] == ':'
    && (forall i :: 0 <= i < |w| ==> g[|k| + 1 + i] == w[i])
    && g[|k| + 1 + |w|..] == "нед"
  }

  lemma TypedLayout(k: string, w: string, g: string)
    requires k in Codes && g == k + ":" + w + "нед"
    ensures TypedShape(g, k, w)
    ensures WeekText(w) ==> g != [] && ')' !in g
  {
    var e := |k| + 1 + |w|;
    assert forall i :: 0 <= i < |k| ==> g[i] == k[i];
    assert forall i :: 0 <= i < |w| ==> g[|k| + 1 + i] == w[i];
    assert forall i :: e <= i < |g| ==> g[i] == "нед"[i - e];
    assert ')' !in k;
  }

  lemma SpacesEndAt(s: string, i: nat)
    requires i < |s| && !IsSpace(s[i])
    ensures SpacesEnd(s, i) == i
  {
  }

  /** Over such a group the alternative `k` matches from the start to the end, capturing `w`. */
  lemma TypedAtOwnCode(k: string, w: string, g: string)
    requires Lower(k) == k && WeekText(w) && TypedShape(g, k, w)
    ensures TypedAt(g, 0, k) == Some(KindMatch(k, w, |g|))
  {
    hide MatchesAt, SpacesEnd, NonLetterEnd, NedAt, NedEnd, Lower, IsSpace, IsPatternLetter;
    var q := |k|;
    var e := q + 1 + |w|;
    TypedPieces(k, w, g);
    assert TypedAt(g, 0, k) == Some(KindMatch(g[0..q], g[q + 1..e], NedEnd(g, e)));
  }

  /** The positions the pattern passes over "k:wнед". */
  lemma TypedPieces(k: string, w: string, g: string)
    requires Lower(k) == k && WeekText(w) && TypedShape(g, k, w)
    ensures MatchesAt(g, 0, k) && g[0..|k|] == k
    ensures SpacesEnd(g, |k|) == |k| && g[|k|] == ':' && SpacesEnd(g, |k| + 1) == |k| + 1
    ensures NonLetterEnd(g, |k| + 1) == |k| + 1 + |w| && g[|k| + 1..|k| + 1 + |w|] == w
    ensures NedAt(g, |k| + 1 + |w|) && NedEnd(g, |k| + 1 + |w|) == |g|
  {
    TypedHead(k, w, g);
    TypedWeeks(k, w, g);
  }

  /** The abbreviation, then ':' with no white space around it. */
  lemma TypedHead(k: string, w: string, g: string)
    requires Lower(k) == k && WeekText(w) && TypedShape(g, k, w)
    ensures MatchesAt(g, 0, k) && g[0..|k|] == k
    ensures SpacesEnd(g, |k|) == |k| && g[|k|] == ':' && SpacesEnd(g, |k| + 1) == |k| + 1
  {
    var q := |k|;
    assert g[0..|k|] == g[..|k|];
    SpacesEndAt(g, q);
    assert g[q + 1] == w[0];
    SpacesEndAt(g, q + 1);
  }

  /** The week text runs up to "нед", which ends the group. */
  lemma TypedWeeks(k: string, w: string, g: string)
    requires WeekText(w) && TypedShape(g, k, w)
    ensures NonLetterEnd(g, |k| + 1) == |k| + 1 + |w| && g[|k| + 1..|k| + 1 + |w|] == w
    ensures NedAt(g, |k| + 1 + |w|) && NedEnd(g, |k| + 1 + |w|) == |g|
  {
    var q := |k|;
    var e := q + 1 + |w|;
    assert g[e] == "нед"[0];
    assert forall j :: q + 1 <= j < e ==> g[j] == w[j - q - 1];
    NonLetterRun(g, q + 1, e);
    assert g[q + 1..e] == w;
    NedAtEnd(g, e);
  }

  lemma NedAtEnd(g: string, e: nat)
    requires e + 3 == |g| && g[e..] == "нед"
    ensures NedAt(g, e) && NedEnd(g, e) == |g|
  {
    assert g[e..e + 3] == "нед";
    assert Lower("нед") == "нед";
  }

  /** The run of non-letters from `i` stops at `e` when `e` holds a letter. */
  lemma {:induction false} NonLetterRun(s: string, i: nat, e: nat)
    requires i <= e < |s| && IsPatternLetter(s[e])
    requires forall j :: i <= j < e ==> !IsPatternLetter(s[j])
    ensures NonLetterEnd(s, i) == e
    decreases e - i
  {
    if i < e {
      NonLetterRun(s, i + 1, e);
    }
  }

  /** An alternative that does not match at the start gives no typed match there. */
  lemma NoTypedAt(g: string, c: string, i: nat)
    requires i < |c| && (i >= |g| || LowerChar(g[i]) != c[i])
    ensures TypedAt(g, 0, c) == None
  {
    Mismatch(g, c, i);
  }

  /** The alternatives are tried in order: the first that yields a match gives it. */
  lemma {:induction false} TypedAtAnyIndex(c: string, p: nat, codes: seq<string>, j: nat)
    requires p <= |c| && j < |codes|
    requires forall i :: 0 <= i < j ==> TypedAt(c, p, codes[i]) == None
    requires TypedAt(c, p, codes[j]).Some?
    ensures TypedAtAny(c, p, codes) == TypedAt(c, p, codes[j])
  {
    if j > 0 {
      TypedAtAnyIndex(c, p, codes[1..], j - 1);
    }
  }

  /**
   * Over text starting with `k` and then ':', the alternatives ahead of `k` in
   * pattern order all fail, so a match of `k` is the one the pattern takes.
   */
  lemma FirstTypedCode(k: string, g: string)
    requires k in Codes && |g| > |k| && g[..|k|] == k && g[|k|] == ':'
    requires TypedAt(g, 0, k).Some?
    ensures TypedAtAny(g, 0, Codes) == TypedAt(g, 0, k)
  {
    hide TypedAt, TypedAtAny;
    if k == "л" {
      TypedAtAnyIndex(g, 0, Codes, 0);
    } else if k == "п.з" {
      FirstTypedPZDot(g);
    } else if k == "пз" {
      FirstTypedPZ(g);
    } else if k == "лаб" {
      FirstTypedLab(g);
    } else if k == "сем" {
      FirstTypedSem(g);
    } else if k == "конс" {
      FirstTypedKons(g);
    } else {
      FirstTypedEkz(g);
    }
  }

  lemma FirstTypedPZDot(g: string)
    requires |g| > 3 && g[..3] == "п.з" && TypedAt(g, 0, "п.з").Some?
    ensures TypedAtAny(g, 0, Codes) == TypedAt(g, 0, "п.з")
  {
    hide TypedAt, TypedAtAny, LowerChar, MatchesAt;
    assert g[0] == 'п';
    NoTypedAt(g, "л", 0);
    TypedAtAnyIndex(g, 0, Codes, 1);
  }

  lemma FirstTypedPZ(g: string)
    requires |g| > 2 && g[..2] == "пз" && TypedAt(g, 0, "пз").Some?
    ensures TypedAtAny(g, 0, Codes) == TypedAt(g, 0, "пз")
  {
    hide TypedAt, TypedAtAny, LowerChar, MatchesAt;
    assert g[0] == 'п' && g[1] == 'з';
    NoTypedAt(g, "л", 0);
    NoTypedAt(g, "п.з", 1);
    TypedAtAnyIndex(g, 0, Codes, 2);
  }

  lemma FirstTypedLab(g: string)
    requires |g| > 3 && g[..3] == "лаб" && TypedAt(g, 0, "лаб").Some?
    ensures TypedAtAny(g, 0, Codes) == TypedAt(g, 0, "лаб")
  {
    hide TypedAt, TypedAtAny, LowerChar, MatchesAt;
    assert g[0] == 'л';
    LabNotL(g);
    NoTypedAt(g, "п.з", 0);
    NoTypedAt(g, "пз", 0);
    TypedAtAnyIndex(g, 0, Codes, 3);
  }

  lemma FirstTypedSem(g: string)
    requires |g| > 3 && g[..3] == "сем" && TypedAt(g, 0, "сем").Some?
    ensures TypedAtAny(g, 0, Codes) == TypedAt(g, 0, "сем")
  {
    hide TypedAt, TypedAtAny, LowerChar, MatchesAt;
    assert g[0] == 'с';
    NotLPL(g);
    TypedAtAnyIndex(g, 0, Codes, 4);
  }

  lemma FirstTypedKons(g: string)
    requires |g| > 4 && g[..4] == "конс" && TypedAt(g, 0, "конс").Some?
    ensures TypedAtAny(g, 0, Codes) == TypedAt(g, 0, "конс")
  {
    hide TypedAt, TypedAtAny, LowerChar, MatchesAt;
    assert g[0] == 'к';
    NotLPL(g);
    NoTypedAt(g, "сем", 0);
    TypedAtAnyIndex(g, 0, Codes, 5);
  }

  lemma FirstTypedEkz(g: string)
    requires |g| > 3 && g[..3] == "экз" && TypedAt(g, 0, "экз").Some?
    ensures TypedAtAny(g, 0, Codes) == TypedAt(g, 0, "экз")
  {
    hide TypedAt, TypedAtAny, LowerChar, MatchesAt;
    assert g[0] == 'э';
    NotLPL(g);
    NoTypedAt(g, "сем", 0);
    NoTypedAt(g, "конс", 0);
    TypedAtAnyIndex(g, 0, Codes, 6);
  }

  /** Text starting with neither 'л' nor 'п' fails the first four alternatives. */
  lemma NotLPL(g: string)
    requires g != [] && LowerChar(g[0]) != 'л' && LowerChar(g[0]) != 'п'
    ensures TypedAt(g, 0, "л") == None && TypedAt(g, 0, "п.з") == None
    ensures TypedAt(g, 0, "пз") == None && TypedAt(g, 0, "лаб") == None
  {
    NoTypedAt(g, "л", 0);
    NoTypedAt(g, "п.з", 0);
    NoTypedAt(g, "пз", 0);
    NoTypedAt(g, "лаб", 0);
  }

  /** On "лаб:" the alternative "л" matches a letter but is followed by 'а', not by ':'. */
  lemma LabNotL(g: string)
    requires |g| > 3 && g[..3] == "лаб"
    ensures TypedAt(g, 0, "л") == None
  {
    assert g[1] == 'а';
    SpacesEndAt(g, 1);
  }

  /** The scan over "k:wнед" finds exactly the one match of `k`. */
  lemma TypedGroupMatches(k: string, w: string, g: string)
    requires k in Codes && WeekText(w) && g == k + ":" + w + "нед"
    ensures KindMatchesFrom(g, 0) == [KindMatch(k, w, |g|)]
  {
    TypedLayout(k, w, g);
    LowerOfCode(k);
    TypedAtOwnCode(k, w, g);
    hide TypedAt;
    FirstTypedCode(k, g);
    hide TypedAtAny;
    assert KindMatchesFrom(g, |g|) == [];
  }

  /** The group of a typed annotation gives the kind of its abbreviation and the weeks of its text. */
  lemma TypedGroupKinds(k: string, w: string, g: string)
    requires k in Codes && WeekText(w) && g == k + ":" + w + "нед"
    ensures GroupKinds(g, Codes) == [KindWeeks(KindOfCode(k), WeekSets.WeeksOf(w), Trim(w))]
  {
    TypedGroupMatches(k, w, g);
    LowerOfCode(k);
    ParseTypeOfCode(k, k);
    hide KindMatchesFrom, ParseType, WeekSets.WeeksOf, Trim;
    assert IsCode(k);
    var m := KindMatch(k, w, |g|);
    assert MatchKinds([m]) == [MatchKind(m)];
  }

  /**
   * A typed annotation "(k:w нед)" is read as the kind `k` stands for, with the
   * weeks of `w` and the raw week text trimmed.
   */
  lemma TypedGroup(k: string, w: string)
    requires k in Codes && WeekText(w)
    ensures ParseTypesAndWeeks("(" + k + ":" + w + "нед)") == [KindWeeks(KindOfCode(k), WeekSets.WeeksOf(w), Trim(w))]
  {
    hide ParenGroups, GroupKinds, WeekSets.WeeksOf, Trim, KindOfCode;
    var g := k + ":" + w + "нед";
    WrapTyped(k, w);
    TypedLayout(k, w, g);
    ParenGroupsOfWrapped(g);
    TypedGroupKinds(k, w, g);
    assert GroupsKinds([g], Codes) == GroupKinds(g, Codes) + GroupsKinds([], Codes);
  }

  lemma WrapTyped(k: string, w: string)
    ensures "(" + k + ":" + w + "нед)" == "(" + (k + ":" + w + "нед") + ")"
  {
  }
}
