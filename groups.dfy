/**
 * The group list of the timetable site (`groups.js`): group names split into
 * code and short name, the links kept from the index page, the list cache, and
 * the search and lookup over the list.
 */
module Groups {
  import opened Wrappers
  import opened Text
  import Sorting

  /** Twenty-four hours: the age past which the group list is fetched again. */
  const GroupsTTL: int := 24 * 60 * 60 * 1000

  const BaseUrl: string := "https://schedule.nspu.ru"

  datatype Group = Group(id: string, code: string, shortName: string, fullName: string, url: string)

  datatype GroupName = GroupName(code: string, shortName: string)

  // ---------------------------------------------------------------- parseGroupName

  predicate IsCodeChar(c: char) { IsDigit(c) || c == '.' }

  /** The end of the run of digits and dots that starts at `i`. */
  function CodeEnd(s: string, i: nat): (j: nat)
    requires i <= |s|
    ensures i <= j <= |s|
    ensures forall k :: i <= k < j ==> IsCodeChar(s[k])
    ensures j == |s| || !IsCodeChar(s[j])
    decreases |s| - i
  {
    if i < |s| && IsCodeChar(s[i]) then CodeEnd(s, i + 1) else i
  }

  /** The first `)` at or after `i`, or the end of the string. */
  function CloseAt(s: string, i: nat): (j: nat)
    requires i <= |s|
    ensures i <= j <= |s|
    ensures forall k :: i <= k < j ==> s[k] != ')'
    ensures j == |s| || s[j] == ')'
    decreases |s| - i
  {
    if i < |s| && s[i] != ')' then CloseAt(s, i + 1) else i
  }

  /**
   * The pattern `^([\d.]+)\s*\(([^)]+)\)`: a code of digits and dots at the start,
   * optional white space, then a parenthesised short name. The result is the end
   * of the code and the bounds of the short name.
   */
  function NameMatch(s: string): (r: Option<(nat, nat, nat)>)
    ensures r.Some? ==> 0 < r.value.0 < r.value.1 < r.value.2 < |s|
    ensures r.Some? ==> forall k :: 0 <= k < r.value.0 ==> IsCodeChar(s[k])
    ensures r.Some? ==> forall k :: r.value.1 <= k < r.value.2 ==> s[k] != ')'
  {
    var d := CodeEnd(s, 0);
    if d == 0 then None
    else
      var o := SpacesEnd(s, d);
      if o == |s| || s[o] != '(' then None
      else
        var c := CloseAt(s, o + 1);
        if c == o + 1 || c == |s| then None else Some((d, o + 1, c))
  }

  /**
   * `parseGroupName`: "code (short)" gives the trimmed code and short name;
   * any other text gives its trimmed self as both.
   */
  function ParseGroupName(text: string): (r: GroupName)
    ensures NoSpaceAtEnds(r.code) && NoSpaceAtEnds(r.shortName)
    ensures NameMatch(text).None? ==> r.code == Trim(text) && r.shortName == Trim(text)
    ensures NameMatch(text).Some? ==> r.code != [] && forall k :: 0 <= k < |r.code| ==> IsCodeChar(r.code[k])
    ensures NameMatch(text).Some? ==> ')' !in r.shortName
  {
    match NameMatch(text)
    case None => GroupName(Trim(text), Trim(text))
    case Some((d, a, b)) =>
      CodeIsClean(text[..d]);
      NoCloseInTrim(text[a..b]);
      GroupName(text[..d], Trim(text[a..b]))
  }

  /** Trimming adds no `)`. */
  lemma NoCloseInTrim(s: string)
    requires forall k :: 0 <= k < |s| ==> s[k] != ')'
    ensures ')' !in Trim(s)
  {
    var k :| EdgesTrimmed(s, Trim(s), k);
    assert forall j :: 0 <= j < |Trim(s)| ==> Trim(s)[j] == s[k + j];
  }

  /** A code of digits and dots has no white space to trim. */
  lemma CodeIsClean(code: string)
    requires code != [] && forall k :: 0 <= k < |code| ==> IsCodeChar(code[k])
    ensures Trim(code) == code && NoSpaceAtEnds(code)
  {
    TrimOfClean(code);
  }

  /** "code (short)" splits back into the code and the trimmed short name. */
  lemma {:induction false} ParseGroupNameOf(code: string, short: string)
    requires code != [] && forall k :: 0 <= k < |code| ==> IsCodeChar(code[k])
    requires short != [] && ')' !in short
    ensures ParseGroupName(code + " (" + short + ")") == GroupName(code, Trim(short))
  {
    hide Trim;
    var s := code + " (" + short + ")";
    var d := |code|;
    NameLayout(code, short);
    CodeRun(s, d);
    assert SpacesEnd(s, d) == d + 1 by { assert SpacesEnd(s, d + 1) == d + 1; }
    CloseRun(s, d + 2, |s| - 1);
    assert NameMatch(s) == Some((d as nat, (d + 2) as nat, (|s| - 1) as nat));
  }

  lemma NameLayout(code: string, short: string)
    ensures var s := code + " (" + short + ")";
            && |s| == |code| + |short| + 3
            && s[..|code|] == code && s[|code|] == ' ' && s[|code| + 1] == '('
            && s[|code| + 2..|s| - 1] == short && s[|s| - 1] == ')'
  {
  }

  /** A run of code characters that stops at a space ends there. */
  lemma {:induction false} CodeRun(s: string, d: nat)
    requires 0 < d < |s| && (forall k :: 0 <= k < d ==> IsCodeChar(s[k])) && s[d] == ' '
    ensures CodeEnd(s, 0) == d
  {
    CodeRunFrom(s, 0, d);
  }

  lemma {:induction false} CodeRunFrom(s: string, i: nat, d: nat)
    requires i <= d < |s| && (forall k :: i <= k < d ==> IsCodeChar(s[k])) && s[d] == ' '
    ensures CodeEnd(s, i) == d
    decreases d - i
  {
    if i < d { CodeRunFrom(s, i + 1, d); }
  }

  /** A run without `)` that stops at one ends there. */
  lemma {:induction false} CloseRun(s: string, i: nat, c: nat)
    requires i <= c < |s| && (forall k :: i <= k < c ==> s[k] != ')') && s[c] == ')'
    ensures CloseAt(s, i) == c
    decreases c - i
  {
    if i < c { CloseRun(s, i + 1, c); }
  }

  /** Text that does not start with a digit or a dot is its own code and short name. */
  lemma {:induction false} ParseGroupNameFallback(text: string)
    requires text == [] || !IsCodeChar(text[0])
    ensures ParseGroupName(text) == GroupName(Trim(text), Trim(text))
  {
    assert CodeEnd(text, 0) == 0;
  }

  // ---------------------------------------------------------------- fetchGroups

  /** A link of the index page: its `href` attribute, if any, and its text. */
  datatype Link = Link(href: Option<string>, text: string)

  /** The id digits of `/id=(\d+)/` when the pattern matches at `p`. */
  function IdAt(href: string, p: nat): (r: Option<string>)
    ensures r.Some? ==> r.value != [] && AllDigits(r.value)
  {
    if OccursAt(href, "id=", p) && p + 3 < |href| && IsDigit(href[p + 3]) then
      Some(href[p + 3..DigitsEnd(href, p + 3)])
    else None
  }

  /** The leftmost match of `/id=(\d+)/` at or after `from`. */
  function FirstId(href: string, from: nat): (r: Option<string>)
    requires from <= |href| + 1
    ensures r.Some? ==> r.value != [] && AllDigits(r.value)
    ensures r.None? ==> forall p :: from <= p <= |href| ==> IdAt(href, p).None?
    decreases |href| + 1 - from
  {
    if from == |href| + 1 then None
    else if IdAt(href, from).Some? then IdAt(href, from)
    else FirstId(href, from + 1)
  }

  /** The group a link gives: none without an `href` or a text, for a practice group, or without an id. */
  function GroupOfLink(link: Link): (r: Option<Group>)
    ensures r.Some? <==>
              && link.href.Some? && link.href.value != "" && Trim(link.text) != ""
              && !Contains(Lower(Trim(link.text)), "практика")
              && FirstId(link.href.value, 0).Some?
    ensures r.Some? ==>
              && r.value.fullName == Trim(link.text)
              && r.value.id == FirstId(link.href.value, 0).value
              && r.value.url == BaseUrl + "/" + link.href.value
  {
    var text := Trim(link.text);
    if link.href.None? || link.href.value == "" || text == "" then None
    else if Contains(Lower(text), "практика") then None
    else
      match FirstId(link.href.value, 0)
      case None => None
      case Some(id) =>
        var name := ParseGroupName(text);
        Some(Group(id, name.code, name.shortName, text, BaseUrl + "/" + link.href.value))
  }

  /** The groups of the index page's links, in link order. */
  function GroupsOf(links: seq<Link>): (r: seq<Group>)
    ensures |r| <= |links|
    ensures forall k :: 0 <= k < |r| ==>
              r[k].id != [] && AllDigits(r[k].id) && r[k].fullName != []
              && !Contains(Lower(r[k].fullName), "практика")
    decreases |links|
  {
    if links == [] then []
    else
      var init := GroupsOf(links[..|links| - 1]);
      match GroupOfLink(links[|links| - 1])
      case None => init
      case Some(g) => init + [g]
  }

  /** A link is kept exactly when it gives a group, in which case it adds one at the end. */
  lemma {:induction false} GroupsOfSnoc(links: seq<Link>, link: Link)
    ensures GroupsOf(links + [link]) == GroupsOf(links) + (if GroupOfLink(link).Some? then [GroupOfLink(link).value] else [])
  {
    assert (links + [link])[..|links|] == links;
  }

  /** The `each` loop of `fetchGroups`, pushing one group per kept link. */
  method CollectGroups(links: seq<Link>) returns (groups: seq<Group>)
    ensures groups == GroupsOf(links)
  {
    hide GroupOfLink, GroupsOf;
    groups := [];
    for i := 0 to |links|
      invariant groups == GroupsOf(links[..i])
    {
      Sorting.PrefixSnoc(links, i);
      GroupsOfSnoc(links[..i], links[i]);
      var g := GroupOfLink(links[i]);
      if g.Some? {
        groups := groups + [g.value];
      }
    }
    assert links[..|links|] == links;
  }

  /** The outcome of the request for the index page. */
  datatype Download = Failed(message: string) | Loaded(links: seq<Link>)

  /** The module state of `groups.js`: the cached list and when it was fetched. */
  class GroupsCache {
    var groups: Option<seq<Group>>
    var timestamp: int

    constructor ()
      ensures groups.None? && timestamp == 0
    {
      groups := None;
      timestamp := 0;
    }

    /**
     * `fetchGroups` at time `now`: the cached list while younger than 24 hours;
     * otherwise the page's groups, stored with the time; on an error the cached
     * list however old, or the error.
     */
    method Fetch(now: int, download: Download) returns (r: Result<seq<Group>, string>)
      modifies this
      ensures old(groups).Some? && now - old(timestamp) < GroupsTTL ==>
                r == Ok(old(groups).value) && groups == old(groups) && timestamp == old(timestamp)
      ensures !(old(groups).Some? && now - old(timestamp) < GroupsTTL) && download.Loaded? ==>
                r == Ok(GroupsOf(download.links)) && groups == Some(GroupsOf(download.links)) && timestamp == now
      ensures !(old(groups).Some? && now - old(timestamp) < GroupsTTL) && download.Failed? ==>
                groups == old(groups) && timestamp == old(timestamp)
                && r == (if old(groups).Some? then Ok(old(groups).value) else Err(download.message))
    {
      if groups.Some? && now - timestamp < GroupsTTL {
        return Ok(groups.value);
      }
      match download
      case Failed(message) =>
        if groups.Some? {
          return Ok(groups.value);
        }
        return Err(message);
      case Loaded(links) =>
        var found := CollectGroups(links);
        groups := Some(found);
        timestamp := now;
        return Ok(found);
    }
  }

  // ---------------------------------------------------------------- searchGroups, findGroupById

  /** A group matches a lower-cased query when its code, short name or full name contains it. */
  predicate MatchesQuery(g: Group, q: string) {
    Contains(Lower(g.code), q) || Contains(Lower(g.shortName), q) || Contains(Lower(g.fullName), q)
  }

  /** The groups matching `q`, in list order. */
  function Matching(groups: seq<Group>, q: string): (r: seq<Group>)
    ensures |r| <= |groups|
    ensures forall g :: g in r <==> g in groups && MatchesQuery(g, q)
  {
    if groups == [] then []
    else (if MatchesQuery(groups[0], q) then [groups[0]] else []) + Matching(groups[1..], q)
  }

  /** `searchGroups(query, groups)`: the groups matching the lower-cased, trimmed query, in list order. */
  function SearchGroups(query: string, groups: seq<Group>): (r: seq<Group>)
    ensures forall g :: g in r <==> g in groups && MatchesQuery(g, Trim(Lower(query)))
  {
    Matching(groups, Trim(Lower(query)))
  }

  /** The search keeps list order: searching two lists one after the other is searching their concatenation. */
  lemma {:induction false} MatchingAppend(a: seq<Group>, b: seq<Group>, q: string)
    ensures Matching(a + b, q) == Matching(a, q) + Matching(b, q)
    decreases |a|
  {
    hide MatchesQuery;
    Sorting.ConcatAssoc(a, [], b);
    if a != [] {
      Sorting.ConsConcat(a, b);
      MatchingAppend(a[1..], b, q);
      var h := if MatchesQuery(a[0], q) then [a[0]] else [];
      Sorting.ConcatAssoc(h, Matching(a[1..], q), Matching(b, q));
    }
  }

  /** Every string contains the empty string. */
  lemma ContainsEmpty(s: string)
    ensures Contains(s, "")
  {
    assert OccursAt(s, "", 0);
  }

  /** An empty or blank query matches every group. */
  lemma {:induction false} BlankQueryMatchesAll(query: string, groups: seq<Group>)
    requires Trim(Lower(query)) == ""
    ensures SearchGroups(query, groups) == groups
  {
    MatchingAll(groups, "");
  }

  lemma {:induction false} MatchingAll(groups: seq<Group>, q: string)
    requires q == ""
    ensures Matching(groups, q) == groups
    decreases |groups|
  {
    if groups != [] {
      ContainsEmpty(Lower(groups[0].code));
      MatchingAll(groups[1..], q);
    }
  }

  /** `groups.find(g => g.id === groupId) || null`: the first group with that id. */
  function FindGroupById(groups: seq<Group>, groupId: string): (r: Option<Group>)
    ensures r.Some? ==> r.value in groups && r.value.id == groupId
    ensures r.None? ==> forall g :: g in groups ==> g.id != groupId
    ensures r.Some? ==> exists k :: 0 <= k < |groups| && groups[k] == r.value && forall j :: 0 <= j < k ==> groups[j].id != groupId
  {
    if groups == [] then None
    else if groups[0].id == groupId then (assert groups[0] == groups[0]; Some(groups[0]))
    else
      var r := FindGroupById(groups[1..], groupId);
      if r.Some? then
        var k :| 0 <= k < |groups[1..]| && groups[1..][k] == r.value && forall j :: 0 <= j < k ==> groups[1..][j].id != groupId;
        assert groups[k + 1] == r.value;
        r
      else r
  }

  /** `findGroupByCode`: the first group with that code. */
  function FindGroupByCode(groups: seq<Group>, code: string): (r: Option<Group>)
    ensures r.Some? ==> r.value in groups && r.value.code == code
    ensures r.None? ==> forall g :: g in groups ==> g.code != code
    ensures r.Some? ==> exists k :: 0 <= k < |groups| && groups[k] == r.value && forall j :: 0 <= j < k ==> groups[j].code != code
  {
    if groups == [] then None
    else if groups[0].code == code then (assert groups[0] == groups[0]; Some(groups[0]))
    else
      var r := FindGroupByCode(groups[1..], code);
      if r.Some? then
        var k :| 0 <= k < |groups[1..]| && groups[1..][k] == r.value && forall j :: 0 <= j < k ==> groups[1..][j].code != code;
        assert groups[k + 1] == r.value;
        r
      else r
  }
}
