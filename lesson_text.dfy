/**
 * The text-level steps of `parseLessonFromCell` (ScheduleBot/src/parsers/schedule.js):
 * the teacher-title, room and fallback-weeks patterns as scanners, and the
 * chain of removals that turns a fragment's text into a subject.
 */
module LessonText {
  import opened Wrappers
  import opened Text
  import WeekSets

  /** Where an optional '.' after position `e` ends. */
  function OptDot(s: string, e: nat): (r: nat)
    requires e <= |s|
    ensures e <= r <= |s|
  {
    if e < |s| && s[e] == '.' then e + 1 else e
  }

  // ---------------------------------------------------------------- teacher titles

  /**
   * The title pattern at `p`, its alternatives tried in order:
   * `доц\.?|проф\.?|ассист\.?|ст\.\s*препод\.?|ст\.\s*преп\.?|преп\.?|преподаватель`.
   * Gives where the match ends. ("преп" is tried before "преподаватель", so the
   * last alternative never wins.)
   */
  function TitleAt(s: string, p: nat): (r: Option<nat>)
    requires p <= |s|
    ensures r.Some? ==> p < r.value <= |s|
  {
    if MatchesAt(s, p, "доц") then Some(OptDot(s, p + 3))
    else if MatchesAt(s, p, "проф") then Some(OptDot(s, p + 4))
    else if MatchesAt(s, p, "ассист") then Some(OptDot(s, p + 6))
    else if MatchesAt(s, p, "ст.") && MatchesAt(s, SpacesEnd(s, p + 3), "препод") then
      Some(OptDot(s, SpacesEnd(s, p + 3) + 6))
    else if MatchesAt(s, p, "ст.") && MatchesAt(s, SpacesEnd(s, p + 3), "преп") then
      Some(OptDot(s, SpacesEnd(s, p + 3) + 4))
    else if MatchesAt(s, p, "преп") then Some(OptDot(s, p + 4))
    else if MatchesAt(s, p, "преподаватель") then Some(p + 13)
    else None
  }

  /** Every match of the global title pattern from `p`, left to right. */
  function TitlesFrom(s: string, p: nat): (r: seq<string>)
    requires p <= |s|
    ensures forall k :: 0 <= k < |r| ==> r[k] != []
    decreases |s| - p
  {
    if p == |s| then []
    else match TitleAt(s, p)
      case Some(e) => [s[p..e]] + TitlesFrom(s, e)
      case None => TitlesFrom(s, p + 1)
  }

  /** The title taken for a teacher link: the last title in the text before it, or "". */
  function LastTitle(prevText: string): (r: string)
    ensures r == "" <==> TitlesFrom(prevText, 0) == []
  {
    var ts := TitlesFrom(prevText, 0);
    if ts == [] then "" else
      var t := ts[|ts| - 1];
      assert !IsSpace(t[0]) by { TitleStartsWithLetter(prevText, 0, |ts| - 1); }
      Trim(t)
  }

  /** Every title match starts with a letter, so none is blank. */
  lemma {:induction false} TitleStartsWithLetter(s: string, p: nat, k: nat)
    requires p <= |s| && k < |TitlesFrom(s, p)|
    ensures !IsSpace(TitlesFrom(s, p)[k][0])
    decreases |s| - p
  {
    if p < |s| {
      match TitleAt(s, p)
      case Some(e) =>
        if k == 0 {
          assert TitlesFrom(s, p)[0] == s[p..e];
          TitleAtLetter(s, p);
        } else {
          TitleStartsWithLetter(s, e, k - 1);
        }
      case None => TitleStartsWithLetter(s, p + 1, k);
    }
  }

  lemma {:induction false} TitleAtLetter(s: string, p: nat)
    requires p <= |s| && TitleAt(s, p).Some?
    ensures !IsSpace(s[p])
  {
    hide OptDot, SpacesEnd, MatchesAt, Lower;
    if MatchesAt(s, p, "доц") { MatchHead(s, p, "доц"); }
    else if MatchesAt(s, p, "проф") { MatchHead(s, p, "проф"); }
    else if MatchesAt(s, p, "ассист") { MatchHead(s, p, "ассист"); }
    else if MatchesAt(s, p, "ст.") { MatchHead(s, p, "ст."); }
    else if MatchesAt(s, p, "преп") { MatchHead(s, p, "преп"); }
    else { MatchHead(s, p, "преподаватель"); }
  }

  /** A case-insensitive match starts with the lower-cased first character of the text. */
  lemma MatchHead(s: string, p: nat, w: string)
    requires w != [] && MatchesAt(s, p, w)
    ensures p < |s| && LowerChar(s[p]) == w[0]
  {
    assert Lower(s[p..p + |w|])[0] == LowerChar(s[p..p + |w|][0]);
  }

  /** Text holding no title has the empty title. */
  lemma {:induction false} NoTitleFrom(s: string, p: nat)
    requires p <= |s|
    requires forall k :: p <= k <= |s| ==> TitleAt(s, k).None?
    ensures TitlesFrom(s, p) == []
    decreases |s| - p
  {
    if p < |s| { NoTitleFrom(s, p + 1); }
  }

  /** The teacher's display name: the title, a space and the name, or the name alone. */
  function FullTeacher(title: string, name: string): (r: string)
    ensures title == "" ==> r == name
    ensures title != "" ==> StartsWith(r, title) && EndsWith(r, name)
  {
    PrefixAndSuffix(title + " ", name);
    PrefixAndSuffix(title, " ");
    assert StartsWith(title + " " + name, title + " ");
    if title != "" then title + " " + name else name
  }

  // ---------------------------------------------------------------- the room number

  /** Letters of `[а-яА-Я]` under case-insensitive matching. */
  predicate IsCyrillicLetter(c: char) { 'А' <= c <= 'я' }

  /** `\d+[а-яА-Я]?(?:\/\d+)?` at a digit `k`: where the room number ends. */
  function RoomNumberEnd(t: string, k: nat): (e: nat)
    requires k < |t| && IsDigit(t[k])
    ensures k < e <= |t|
  {
    var d := DigitsEnd(t, k);
    var l := if d < |t| && IsCyrillicLetter(t[d]) then d + 1 else d;
    if l + 1 < |t| && t[l] == '/' && IsDigit(t[l + 1]) then DigitsEnd(t, l + 1) else l
  }

  /** The room pattern `(?:а\.|ауд\.?)\s*(number)` at `p`: the captured number. */
  function RoomAt(t: string, p: nat): (r: Option<string>)
    requires p <= |t|
    ensures r.Some? ==> r.value != [] && IsDigit(r.value[0])
  {
    var q :=
      if MatchesAt(t, p, "а.") then p + 2
      else if MatchesAt(t, p, "ауд") then OptDot(t, p + 3)
      else |t| + 1;
    if q > |t| then None
    else
      var k := SpacesEnd(t, q);
      if k < |t| && IsDigit(t[k]) then Some(t[k..RoomNumberEnd(t, k)]) else None
  }

  /** The leftmost room number written in the text. */
  function FirstRoomFrom(t: string, p: nat): (r: Option<string>)
    requires p <= |t|
    ensures r.Some? ==> r.value != [] && IsDigit(r.value[0])
    decreases |t| - p
  {
    if p == |t| then None
    else match RoomAt(t, p)
      case Some(n) => Some(n)
      case None => FirstRoomFrom(t, p + 1)
  }

  /** The room: the trimmed room-link text, or else "а. " and the number written after "а." or "ауд". */
  function Room(roomLink: string, text: string): (r: string)
    ensures Trim(roomLink) != "" ==> r == Trim(roomLink)
    ensures Trim(roomLink) == "" && FirstRoomFrom(text, 0).None? ==> r == ""
    ensures Trim(roomLink) == "" && FirstRoomFrom(text, 0).Some? ==> StartsWith(r, "а. ") && |r| > 3 && IsDigit(r[3])
  {
    var link := Trim(roomLink);
    if link != "" then link
    else match FirstRoomFrom(text, 0)
      case None => ""
      case Some(n) =>
        PrefixAndSuffix("а. ", n);
        "а. " + n
  }

  // ---------------------------------------------------------------- fallback weeks

  /** `\d+(?:[-–]\d+)?` at a digit `p`. */
  function ItemEnd(t: string, p: nat): (e: nat)
    requires p < |t| && IsDigit(t[p])
    ensures p < e <= |t| && IsDigit(t[e - 1])
    ensures forall k :: p <= k < e ==> IsDigit(t[k]) || WeekSets.IsDash(t[k])
  {
    var d := DigitsEnd(t, p);
    if d + 1 < |t| && WeekSets.IsDash(t[d]) && IsDigit(t[d + 1]) then DigitsEnd(t, d + 1) else d
  }

  /** `(?:,\s*item)*` from `e`, greedily. */
  function ListEnd(t: string, e: nat): (r: nat)
    requires 0 < e <= |t| && IsDigit(t[e - 1])
    ensures e <= r <= |t| && IsDigit(t[r - 1])
    ensures forall k :: e <= k < r ==> IsWeekListChar(t[k])
    decreases |t| - e
  {
    hide SpacesEnd, ItemEnd;
    if e < |t| && t[e] == ',' then
      var k := SpacesEnd(t, e + 1);
      if k < |t| && IsDigit(t[k]) then ListEnd(t, ItemEnd(t, k)) else e
    else e
  }

  /** The characters a fallback week list is made of. */
  predicate IsWeekListChar(c: char) { IsDigit(c) || WeekSets.IsDash(c) || c == ',' || IsSpace(c) }

  /** The fallback pattern `(list)\s*нед` at `p` (case-sensitive "нед"): the captured list. */
  function WeeksListAt(t: string, p: nat): (r: Option<string>)
    requires p <= |t|
    ensures r.Some? ==> r.value != [] && IsDigit(r.value[0]) && IsDigit(r.value[|r.value| - 1])
    ensures r.Some? ==> forall k :: 0 <= k < |r.value| ==> IsWeekListChar(r.value[k])
  {
    hide ItemEnd, ListEnd, OccursAt, SpacesEnd;
    if p < |t| && IsDigit(t[p]) then
      var i := ItemEnd(t, p);
      var e := ListEnd(t, i);
      if OccursAt(t, "нед", SpacesEnd(t, e)) then
        ListChars(t, p, i, e);
        Some(t[p..e])
      else None
    else None
  }

  /** An item followed by a list tail is made of week-list characters. */
  lemma ListChars(t: string, p: nat, i: nat, e: nat)
    requires p < i <= e <= |t|
    requires forall k :: p <= k < i ==> IsDigit(t[k]) || WeekSets.IsDash(t[k])
    requires forall k :: i <= k < e ==> IsWeekListChar(t[k])
    requires IsDigit(t[p]) && IsDigit(t[e - 1])
    ensures t[p..e] != [] && IsDigit(t[p..e][0]) && IsDigit(t[p..e][|t[p..e]| - 1])
    ensures forall k :: 0 <= k < |t[p..e]| ==> IsWeekListChar(t[p..e][k])
  {
    assert t[p..e][0] == t[p] && t[p..e][e - p - 1] == t[e - 1];
    forall k | 0 <= k < |t[p..e]| ensures IsWeekListChar(t[p..e][k]) {
      assert t[p..e][k] == t[p + k];
      if p + k < i {} else {}
    }
  }

  /** The leftmost match of the fallback week pattern. */
  function FirstWeeksListFrom(t: string, p: nat): (r: Option<string>)
    requires p <= |t|
    ensures r.Some? ==> r.value != [] && IsDigit(r.value[0]) && IsDigit(r.value[|r.value| - 1])
    ensures r.Some? ==> forall k :: 0 <= k < |r.value| ==> IsWeekListChar(r.value[k])
    decreases |t| - p
  {
    hide WeeksListAt;
    if p == |t| then None
    else match WeeksListAt(t, p)
      case Some(w) => Some(w)
      case None => FirstWeeksListFrom(t, p + 1)
  }

  // ---------------------------------------------------------------- the subject

  /** The characters of `r` all occur in `s`. */
  predicate CharsFrom(r: string, s: string) { forall c :: c in r ==> c in s }

  /** Every case-insensitive occurrence of the lower-case `w`, from `p` on, removed (left to right, not overlapping). */
  function RemoveAllFrom(s: string, w: string, p: nat): (r: string)
    requires w != [] && p <= |s|
    ensures |r| <= |s| - p && CharsFrom(r, s[p..])
    ensures (forall k :: p <= k < |s| ==> !MatchesAt(s, k, w)) ==> r == s[p..]
    decreases |s| - p
  {
    if p == |s| then []
    else if MatchesAt(s, p, w) then RemoveAllFrom(s, w, p + |w|)
    else
      var rest := RemoveAllFrom(s, w, p + 1);
      assert s[p..] == [s[p]] + s[p + 1..];
      [s[p]] + rest
  }

  /** `s.replace(new RegExp(escaped t, 'gi'), '')`: an empty `t` changes nothing. */
  function RemoveAllIgnoringCase(s: string, t: string): (r: string)
    ensures |r| <= |s| && CharsFrom(r, s)
    ensures t == "" ==> r == s
    ensures (forall k :: 0 <= k < |s| ==> !MatchesAt(s, k, Lower(t))) ==> r == s
  {
    if t == "" then s else RemoveAllFrom(s, Lower(t), 0)
  }

  /** The names and titles of the teacher links removed one after another. */
  function RemoveNodes(s: string, nodes: seq<string>): (r: string)
    ensures |r| <= |s| && CharsFrom(r, s)
    decreases nodes
  {
    if nodes == [] then s else RemoveNodes(RemoveAllIgnoringCase(s, nodes[0]), nodes[1..])
  }

  /** `s.replace(t, '')` with a string `t`: only the first occurrence is removed. */
  function RemoveFirst(s: string, t: string): (r: string)
    ensures !Contains(s, t) ==> r == s
    ensures Contains(s, t) ==> |r| == |s| - |t|
    ensures CharsFrom(r, s)
  {
    match IndexOf(s, t)
    case None => s
    case Some(i) => s[..i] + s[i + |t|..]
  }

  /** `replace(/(?:а\.|ауд\.?|ауд)\s*\/gi, '')` from `p`: every room prefix and the spaces after it removed. */
  function RemoveRoomPrefixesFrom(s: string, p: nat): (r: string)
    requires p <= |s|
    ensures |r| <= |s| - p && CharsFrom(r, s[p..])
    decreases |s| - p
  {
    if p == |s| then []
    else if MatchesAt(s, p, "а.") then RemoveRoomPrefixesFrom(s, SpacesEnd(s, p + 2))
    else if MatchesAt(s, p, "ауд") then RemoveRoomPrefixesFrom(s, SpacesEnd(s, OptDot(s, p + 3)))
    else
      assert s[p..] == [s[p]] + s[p + 1..];
      [s[p]] + RemoveRoomPrefixesFrom(s, p + 1)
  }

  /** The room step: the room text and then every room prefix removed, when there is a room. */
  function RemoveRoom(s: string, room: string): (r: string)
    ensures room == "" ==> r == s
    ensures CharsFrom(r, s)
  {
    if room == "" then s else RemoveRoomPrefixesFrom(RemoveFirst(s, room), 0)
  }

  /** `replace(/\([^)]*\)/g, '')` from `p`: each '(' that has a ')' after it goes, through that ')'. */
  function RemoveParenGroupsFrom(s: string, p: nat): (r: string)
    requires p <= |s|
    ensures CharsFrom(r, s[p..])
    ensures forall i, j :: 0 <= i < j < |r| && r[i] == '(' ==> r[j] != ')'
    decreases |s| - p
  {
    if p == |s| then []
    else if s[p] == '(' && IndexOfFrom(s, ")", p + 1).Some? then
      RemoveParenGroupsFrom(s, IndexOfFrom(s, ")", p + 1).value + 1)
    else
      var rest := RemoveParenGroupsFrom(s, p + 1);
      assert s[p..] == [s[p]] + s[p + 1..];
      assert s[p] == '(' ==> ')' !in rest by {
        if s[p] == '(' { NoCloseAfter(s, p + 1, rest); }
      }
      [s[p]] + rest
  }

  lemma {:induction false} NoCloseAfter(s: string, from: nat, rest: string)
    requires from <= |s| && IndexOfFrom(s, ")", from).None? && CharsFrom(rest, s[from..])
    ensures ')' !in rest
  {
    if ')' in rest {
      var k :| from <= k < |s| && s[k] == ')';
      assert s[k..k + 1] == ")";
      assert OccursAt(s, ")", k);
    }
  }

  /** `replace(/\*\/g, '')`. */
  function RemoveStars(s: string): (r: string)
    ensures '*' !in r && CharsFrom(r, s)
    ensures '*' !in s ==> r == s
  {
    if s == [] then []
    else
      assert s == [s[0]] + s[1..];
      (if s[0] == '*' then [] else [s[0]]) + RemoveStars(s[1..])
  }

  /** Two spaces in a row at `i`. */
  predicate DoubleSpaceAt(s: string, i: nat) { i + 1 < |s| && s[i] == ' ' && s[i + 1] == ' ' }

  /** White space in `s` is single ' ' characters only. */
  predicate SpacesNormal(s: string) {
    (forall i :: 0 <= i < |s| && IsSpace(s[i]) ==> s[i] == ' ') &&
    (forall i :: 0 <= i < |s| ==> !DoubleSpaceAt(s, i))
  }

  lemma {:induction false} ConsKeepsNormal(c: char, rest: string)
    requires SpacesNormal(rest) && (IsSpace(c) ==> c == ' ')
    requires c == ' ' && rest != [] ==> rest[0] != ' '
    ensures SpacesNormal([c] + rest)
  {
    var r := [c] + rest;
    forall i | 0 <= i < |r| ensures !DoubleSpaceAt(r, i) {
      if i > 0 { assert r[i] == rest[i - 1]; assert !DoubleSpaceAt(rest, i - 1); }
    }
  }

  /** `replace(/\s+/g, ' ')`: every run of white space becomes one ' '. */
  function CollapseSpaces(s: string): (r: string)
    ensures SpacesNormal(r)
    ensures forall c :: c in r ==> c in s || c == ' '
    ensures r != [] <==> s != []
    ensures r != [] ==> (r[0] == ' ' <==> IsSpace(s[0]))
    decreases |s|
  {
    if s == [] then []
    else if IsSpace(s[0]) then
      var e := SpacesEnd(s, 0);
      var rest := CollapseSpaces(s[e..]);
      assert forall c :: c in rest ==> c in s || c == ' ';
      assert e < |s| ==> !IsSpace(s[e..][0]);
      ConsKeepsNormal(' ', rest);
      [' '] + rest
    else
      assert s == [s[0]] + s[1..];
      var rest := CollapseSpaces(s[1..]);
      ConsKeepsNormal(s[0], rest);
      [s[0]] + rest
  }

  /** The characters `[\s,;.-]` stripped from both ends of the subject. */
  predicate IsEdgeJunk(c: char) { IsSpace(c) || c == ',' || c == ';' || c == '.' || c == '-' }

  function StripJunkStart(s: string): (r: string)
    ensures |r| <= |s| && r == s[|s| - |r|..]
    ensures r == [] || !IsEdgeJunk(r[0])
  {
    if s != [] && IsEdgeJunk(s[0]) then StripJunkStart(s[1..]) else s
  }

  function StripJunkEnd(s: string): (r: string)
    ensures |r| <= |s| && r == s[..|r|]
    ensures r == [] || !IsEdgeJunk(r[|r| - 1])
  {
    if s != [] && IsEdgeJunk(s[|s| - 1]) then StripJunkEnd(s[..|s| - 1]) else s
  }

  /** `replace(/^[\s,;.-]+|[\s,;.-]+$/g, '')`: the result is a piece of `s` with no junk at either end. */
  function StripEdgeJunk(s: string): (r: string)
    ensures exists k :: InfixAt(s, r, k)
    ensures r == [] || (!IsEdgeJunk(r[0]) && !IsEdgeJunk(r[|r| - 1]))
  {
    hide StripJunkStart, StripJunkEnd;
    var a := StripJunkStart(s);
    var r := StripJunkEnd(a);
    if r == [] then
      assert InfixAt(s, [], 0);
      []
    else
      assert r[0] == a[0];
      assert InfixAt(s, r, |s| - |a|);
      r
  }

  /** A piece of a string keeps its star-freeness and normal spacing. */
  lemma {:induction false} InfixKeepsClean(s: string, r: string, k: int)
    requires InfixAt(s, r, k) && '*' !in s && SpacesNormal(s)
    ensures '*' !in r && SpacesNormal(r)
  {
    forall i | 0 <= i < |r| ensures r[i] != '*' && (IsSpace(r[i]) ==> r[i] == ' ') && !DoubleSpaceAt(r, i) {
      assert r[i] == s[k + i];
      if i + 1 < |r| {
        assert r[i + 1] == s[k + i + 1];
        assert !DoubleSpaceAt(s, k + i);
      }
    }
  }

  /**
   * The subject of a fragment: the text with the teachers' names and titles, the
   * room, the parenthesised annotations and '*' removed, white space collapsed
   * and junk stripped from both ends. The result has no '*', only single
   * spaces as white space, and neither white space nor ",;.-" at its ends.
   */
  function CleanSubject(text: string, nodes: seq<string>, room: string): (r: string)
    ensures '*' !in r && SpacesNormal(r)
    ensures r == [] || (!IsEdgeJunk(r[0]) && !IsEdgeJunk(r[|r| - 1]))
  {
    var s0 := RemoveRoom(RemoveNodes(text, nodes), room);
    var s1 := RemoveStars(RemoveParenGroupsFrom(s0, 0));
    var s2 := CollapseSpaces(s1);
    var s3 := StripEdgeJunk(s2);
    var k :| InfixAt(s2, s3, k);
    InfixKeepsClean(s2, s3, k);
    TrimOfJunkFree(s3);
    Trim(s3)
  }

  /** Text with no white space at its ends is its own trim. */
  lemma {:induction false} TrimOfJunkFree(s: string)
    requires s == [] || (!IsEdgeJunk(s[0]) && !IsEdgeJunk(s[|s| - 1]))
    ensures Trim(s) == s
  {
    TrimOfClean(s);
  }

  lemma {:induction false} TrimKeepsSpacing(c: string)
    requires SpacesNormal(c)
    ensures SpacesNormal(Trim(c))
  {
    hide Trim;
    var r := Trim(c);
    var k :| EdgesTrimmed(c, r, k);
    forall i | 0 <= i < |r| ensures (IsSpace(r[i]) ==> r[i] == ' ') && !DoubleSpaceAt(r, i) {
      assert r[i] == c[k + i];
      if i + 1 < |r| {
        assert r[i + 1] == c[k + i + 1];
        assert !DoubleSpaceAt(c, k + i);
      }
    }
  }

  /** The final clean-up of a merged subject: `replace(/\s+/g, ' ').trim()`. */
  function TidySubject(s: string): (r: string)
    ensures NoSpaceAtEnds(r) && SpacesNormal(r)
  {
    var c := CollapseSpaces(s);
    TrimKeepsSpacing(c);
    Trim(c)
  }
}
