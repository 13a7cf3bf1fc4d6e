/**
 * `parseLessonFromCell` (ScheduleBot/src/parsers/schedule.js) at text level:
 * a cell arrives as its fragments (the pieces between `<br>` tags), each with
 * its extracted text, its teacher links and its room-link text.
 */
module LessonCells {
  import opened Wrappers
  import opened Text
  import WeekSets
  import LessonKinds
  import LessonText
  import Sorting

  /** A teacher link: its text and the text node just before it ("" when there is none). */
  datatype TeacherLink = TeacherLink(name: string, prevText: string)

  /** One `<br>`-separated fragment of a cell, already reduced to text. */
  datatype Fragment = Fragment(text: string, teachers: seq<TeacherLink>, roomLink: string)

  /**
   * A lesson. `typeInfo == []` stands for the source's `null`; `kind` is the
   * source's `type`; `weekRange` is [] until the lesson is resolved, and `time`
   * is "" until the row assembly stamps it.
   */
  datatype Lesson = Lesson(
    subject: string, teacher: string, room: string,
    typeInfo: seq<LessonKinds.KindWeeks>, kind: string,
    weeks: string, activeWeeks: set<int>, weekRange: seq<int>,
    rawText: string, time: string)

  /** A fragment is skipped when its trimmed text is empty, "-", "—" or shorter than five characters. */
  predicate Skipped(text: string) {
    text == "" || text == "-" || text == "—" || Utf16Length(text) < 5
  }

  /** The title found before a teacher link. */
  function TitleOf(link: TeacherLink): string { LessonText.LastTitle(link.prevText) }

  /** The displayed teachers of a fragment, in link order. */
  function TeacherNames(links: seq<TeacherLink>): (r: seq<string>)
    ensures |r| == |links|
    ensures forall k :: 0 <= k < |links| ==> r[k] == LessonText.FullTeacher(TitleOf(links[k]), Trim(links[k].name))
  {
    seq(|links|, k requires 0 <= k < |links| => LessonText.FullTeacher(TitleOf(links[k]), Trim(links[k].name)))
  }

  /** What is removed from the subject for the teachers: each name, then its title when there is one. */
  function TeacherNodes(links: seq<TeacherLink>): seq<string>
  {
    if links == [] then []
    else
      var title := TitleOf(links[0]);
      [Trim(links[0].name)] + (if title != "" then [title] else []) + TeacherNodes(links[1..])
  }

  /** The fallback weeks: only without annotations, the first "list нед" written in the text. */
  function FallbackWeeks(text: string, typeInfo: seq<LessonKinds.KindWeeks>): (r: set<int>)
    ensures typeInfo != [] ==> r == {}
  {
    if typeInfo != [] then {}
    else match LessonText.FirstWeeksListFrom(text, 0)
      case None => {}
      case Some(w) => WeekSets.WeeksOf(w)
  }

  /**
   * One fragment of the cell: None when it is skipped, otherwise the lesson its
   * text describes.
   */
  function ParseFragment(f: Fragment): (r: Option<Lesson>)
    ensures r.None? <==> Skipped(Trim(f.text))
    ensures r.Some? ==> r.value.rawText == Trim(f.text) && Utf16Length(r.value.rawText) >= 5
    ensures r.Some? ==> r.value.typeInfo == [] || r.value.activeWeeks == {}
    ensures r.Some? ==> r.value.weeks == WeekSets.NormalizeWeeks(r.value.activeWeeks)
    ensures r.Some? ==> '*' !in r.value.subject && LessonText.SpacesNormal(r.value.subject)
  {
    var text := Trim(f.text);
    if Skipped(text) then None
    else
      var room := LessonText.Room(f.roomLink, text);
      var typeInfo := LessonKinds.ParseTypesAndWeeks(text);
      var active := FallbackWeeks(text, typeInfo);
      var subject := LessonText.CleanSubject(text, TeacherNodes(f.teachers), room);
      Some(Lesson(subject, Join(TeacherNames(f.teachers), ", "), room, typeInfo, "",
                  WeekSets.NormalizeWeeks(active), active, [], text, ""))
  }

  /** The lessons of the fragments that are not skipped, in order. */
  function Parsed(frags: seq<Fragment>): (r: seq<Lesson>)
    ensures |r| <= |frags|
  {
    if frags == [] then []
    else
      (match ParseFragment(frags[0]) case Some(l) => [l] case None => []) + Parsed(frags[1..])
  }

  // ---------------------------------------------------------------- orphans

  /** A lesson with neither fallback weeks nor annotations. */
  predicate IsOrphan(l: Lesson) { l.activeWeeks == {} && l.typeInfo == [] }

  /** The teacher kept when `from` is merged into `into`: `into`'s own, unless it has none. */
  function MergedTeacher(from: Lesson, into: Lesson): string {
    if from.teacher != "" && into.teacher == "" then from.teacher else into.teacher
  }

  /** An orphan merged into the next lesson: its subject goes in front. */
  function Prepend(orphan: Lesson, next: Lesson): (r: Lesson)
    ensures r.typeInfo == next.typeInfo && r.activeWeeks == next.activeWeeks
  {
    next.(subject := orphan.subject + " " + next.subject, teacher := MergedTeacher(orphan, next))
  }

  /** An orphan merged into the previous lesson: its subject goes behind. */
  function AppendTo(prev: Lesson, orphan: Lesson): (r: Lesson)
    ensures r.typeInfo == prev.typeInfo && r.activeWeeks == prev.activeWeeks
  {
    prev.(subject := prev.subject + " " + orphan.subject, teacher := MergedTeacher(orphan, prev))
  }

  /**
   * The orphan merge, from the lessons already kept (`merged`) and the lessons
   * still to visit: an orphan goes into the next lesson, or failing one into the
   * last kept lesson, or failing both is kept itself.
   */
  function MergeFrom(merged: seq<Lesson>, ls: seq<Lesson>): seq<Lesson>
    decreases |ls|
  {
    if ls == [] then merged
    else if IsOrphan(ls[0]) && |ls| > 1 then MergeFrom(merged, [Prepend(ls[0], ls[1])] + ls[2..])
    else if IsOrphan(ls[0]) && merged != [] then
      MergeFrom(merged[..|merged| - 1] + [AppendTo(merged[|merged| - 1], ls[0])], ls[1..])
    else MergeFrom(merged + [ls[0]], ls[1..])
  }

  /** The loop of `parseLessonFromCell` that merges orphans, changing the later lessons as it goes. */
  method MergeOrphans(parsed: seq<Lesson>) returns (merged: seq<Lesson>)
    ensures merged == MergeFrom([], parsed)
  {
    var work := parsed;
    merged := [];
    var i := 0;
    while i < |work|
      invariant 0 <= i <= |work|
      invariant MergeFrom(merged, work[i..]) == MergeFrom([], parsed)
      decreases |work| - i
    {
      var cur := work[i];
      if IsOrphan(cur) && i + 1 < |work| {
        var next := Prepend(cur, work[i + 1]);
        assert work[i..][1] == work[i + 1] && work[i..][2..] == work[i + 2..];
        work := work[i + 1 := next];
        assert work[i + 1..] == [next] + work[i + 2..];
      } else if IsOrphan(cur) && merged != [] {
        assert work[i..][1..] == work[i + 1..];
        merged := merged[..|merged| - 1] + [AppendTo(merged[|merged| - 1], cur)];
      } else {
        assert work[i..][1..] == work[i + 1..];
        merged := merged + [cur];
      }
      i := i + 1;
    }
  }

  // ---------------------------------------------------------------- what the merge keeps

  /** The lessons that carry weeks or annotations, in order. */
  function Scheduled(ls: seq<Lesson>): (r: seq<Lesson>)
    ensures |r| <= |ls|
  {
    if ls == [] then [] else (if IsOrphan(ls[0]) then [] else [ls[0]]) + Scheduled(ls[1..])
  }

  /** The week data of each lesson, in order. */
  function WeekData(ls: seq<Lesson>): (r: seq<(seq<LessonKinds.KindWeeks>, set<int>)>)
    ensures |r| == |ls|
    ensures forall k :: 0 <= k < |ls| ==> r[k] == (ls[k].typeInfo, ls[k].activeWeeks)
  {
    if ls == [] then [] else [(ls[0].typeInfo, ls[0].activeWeeks)] + WeekData(ls[1..])
  }

  lemma {:induction false} WeekDataAppend(a: seq<Lesson>, b: seq<Lesson>)
    ensures WeekData(a + b) == WeekData(a) + WeekData(b)
  {
  }

  /**
   * Merging orphans changes no lesson's weeks and drops none that has weeks:
   * there is one result per scheduled lesson, in order, carrying its weeks.
   */
  lemma {:induction false} MergeKeepsScheduled(merged: seq<Lesson>, ls: seq<Lesson>)
    requires merged != [] || Scheduled(ls) != []
    ensures WeekData(MergeFrom(merged, ls)) == WeekData(merged) + WeekData(Scheduled(ls))
    decreases |ls|, 1
  {
    if ls == [] {
      assert WeekData(merged) + WeekData([]) == WeekData(merged);
    } else if IsOrphan(ls[0]) && |ls| > 1 {
      MergeKeepsScheduledPrepend(merged, ls);
    } else if IsOrphan(ls[0]) && merged != [] {
      MergeKeepsScheduledAppend(merged, ls);
    } else {
      MergeKeepsScheduledKeep(merged, ls);
    }
  }

  lemma {:induction false} MergeKeepsScheduledPrepend(merged: seq<Lesson>, ls: seq<Lesson>)
    requires merged != [] || Scheduled(ls) != []
    requires |ls| > 1 && IsOrphan(ls[0])
    ensures WeekData(MergeFrom(merged, ls)) == WeekData(merged) + WeekData(Scheduled(ls))
    decreases |ls|, 0
  {
    var ls' := [Prepend(ls[0], ls[1])] + ls[2..];
    assert MergeFrom(merged, ls) == MergeFrom(merged, ls');
    assert ls[1..] == [ls[1]] + ls[2..];
    assert Scheduled(ls) == Scheduled(ls[1..]);
    PrependKeepsScheduled(ls[0], ls[1], ls[2..]);
    MergeKeepsScheduled(merged, ls');
  }

  lemma {:induction false} MergeKeepsScheduledAppend(merged: seq<Lesson>, ls: seq<Lesson>)
    requires merged != [] && ls != [] && IsOrphan(ls[0]) && |ls| == 1
    ensures WeekData(MergeFrom(merged, ls)) == WeekData(merged) + WeekData(Scheduled(ls))
    decreases |ls|, 0
  {
    var m' := merged[..|merged| - 1] + [AppendTo(merged[|merged| - 1], ls[0])];
    MergeLastOrphan(merged, ls);
    assert WeekData(Scheduled(ls)) == [] by {
      assert ls == [ls[0]];
      assert Scheduled(ls) == [];
    }
    hide MergeFrom, Scheduled, AppendTo;
    SameWeekData(m', merged);
    assert WeekData(merged) + [] == WeekData(merged);
  }

  /** A lesson with weeks is kept as it is and the merge goes on with the next one. */
  lemma MergeKeepStep(merged: seq<Lesson>, ls: seq<Lesson>)
    requires ls != [] && !IsOrphan(ls[0])
    ensures MergeFrom(merged, ls) == MergeFrom(merged + [ls[0]], ls[1..])
    ensures Scheduled(ls) == [ls[0]] + Scheduled(ls[1..])
  {
  }

  /** A last orphan is merged into the previous lesson and the merge ends. */
  lemma MergeLastOrphan(merged: seq<Lesson>, ls: seq<Lesson>)
    requires merged != [] && ls != [] && IsOrphan(ls[0]) && |ls| == 1
    ensures MergeFrom(merged, ls) == merged[..|merged| - 1] + [AppendTo(merged[|merged| - 1], ls[0])]
  {
    assert ls[1..] == [];
  }

  /** Lessons with the same weeks, position by position, have the same week data. */
  lemma SameWeekData(a: seq<Lesson>, b: seq<Lesson>)
    requires |a| == |b|
    requires forall k :: 0 <= k < |a| ==> a[k].typeInfo == b[k].typeInfo && a[k].activeWeeks == b[k].activeWeeks
    ensures WeekData(a) == WeekData(b)
  {
  }

  lemma {:induction false} MergeKeepsScheduledKeep(merged: seq<Lesson>, ls: seq<Lesson>)
    requires merged != [] || Scheduled(ls) != []
    requires ls != [] && !(IsOrphan(ls[0]) && |ls| > 1) && !(IsOrphan(ls[0]) && merged != [])
    ensures WeekData(MergeFrom(merged, ls)) == WeekData(merged) + WeekData(Scheduled(ls))
    decreases |ls|, 0
  {
    if IsOrphan(ls[0]) {
      assert false;
    }
    MergeKeepStep(merged, ls);
    var rest := Scheduled(ls[1..]);
    hide MergeFrom, Scheduled;
    MergeKeepsScheduled(merged + [ls[0]], ls[1..]);
    assert WeekData(merged + [ls[0]]) + WeekData(rest) == WeekData(merged) + WeekData([ls[0]] + rest) by {
      WeekDataAppend(merged, [ls[0]]);
      WeekDataAppend([ls[0]], rest);
    }
  }

  lemma {:induction false} PrependKeepsScheduled(o: Lesson, n: Lesson, rest: seq<Lesson>)
    ensures WeekData(Scheduled([Prepend(o, n)] + rest)) == WeekData(Scheduled([n] + rest))
    ensures Scheduled([Prepend(o, n)] + rest) == [] <==> Scheduled([n] + rest) == []
  {
    assert ([Prepend(o, n)] + rest)[1..] == rest && ([n] + rest)[1..] == rest;
    var a := if IsOrphan(n) then [] else [Prepend(o, n)];
    var b := if IsOrphan(n) then [] else [n];
    WeekDataAppend(a, Scheduled(rest));
    WeekDataAppend(b, Scheduled(rest));
  }

  /** When every fragment is an orphan, the merge leaves exactly one lesson: the orphans are never all dropped. */
  lemma {:induction false} AllOrphansKeepOne(merged: seq<Lesson>, ls: seq<Lesson>)
    requires Scheduled(ls) == []
    ensures |MergeFrom(merged, ls)| == (if merged == [] && ls != [] then 1 else |merged|)
    decreases |ls|
  {
    if ls != [] {
      assert IsOrphan(ls[0]);
      if |ls| > 1 {
        var ls' := [Prepend(ls[0], ls[1])] + ls[2..];
        assert ls[1..] == [ls[1]] + ls[2..];
        PrependKeepsScheduled(ls[0], ls[1], ls[2..]);
        AllOrphansKeepOne(merged, ls');
      } else if merged != [] {
        AllOrphansKeepOne(merged[..|merged| - 1] + [AppendTo(merged[|merged| - 1], ls[0])], ls[1..]);
      } else {
        AllOrphansKeepOne(merged + [ls[0]], ls[1..]);
      }
    }
  }

  /** An orphan followed by a lesson is prepended to that lesson's subject, lending it its teacher if it has none. */
  lemma {:induction false} OrphanJoinsNext(o: Lesson, n: Lesson)
    requires IsOrphan(o) && !IsOrphan(n)
    ensures MergeFrom([], [o, n]) == [n.(subject := o.subject + " " + n.subject, teacher := MergedTeacher(o, n))]
  {
    assert [o, n][2..] == [];
    assert [Prepend(o, n)][1..] == [];
    assert MergeFrom([], [o, n]) == MergeFrom([], [Prepend(o, n)]);
    assert MergeFrom([], [Prepend(o, n)]) == MergeFrom([Prepend(o, n)], []);
  }

  /** A trailing orphan is appended to the previous lesson's subject. */
  lemma {:induction false} OrphanJoinsPrevious(p: Lesson, o: Lesson)
    requires !IsOrphan(p) && IsOrphan(o)
    ensures MergeFrom([], [p, o]) == [p.(subject := p.subject + " " + o.subject, teacher := MergedTeacher(o, p))]
  {
    assert [p, o][1..] == [o];
    assert [o][1..] == [];
    assert MergeFrom([], [p, o]) == MergeFrom([p], [o]);
    assert MergeFrom([p], [o]) == MergeFrom([AppendTo(p, o)], []);
  }

  /** An orphan with no neighbour is kept as it is. */
  lemma {:induction false} LoneOrphanKept(o: Lesson)
    requires IsOrphan(o)
    ensures MergeFrom([], [o]) == [o]
  {
    assert [o][1..] == [];
  }

  // ---------------------------------------------------------------- the final filter

  /** A lesson with its subject tidied. */
  function Tidied(l: Lesson): Lesson
  {
    l.(subject := LessonText.TidySubject(l.subject))
  }

  /** The last pass, first half: every subject tidied, nothing else changed. */
  function TidyAll(ls: seq<Lesson>): (r: seq<Lesson>)
    ensures |r| == |ls|
    ensures forall k :: 0 <= k < |ls| ==> r[k] == Tidied(ls[k])
  {
    seq(|ls|, k requires 0 <= k < |ls| => Tidied(ls[k]))
  }

  /** The last pass, second half: lessons whose subject has fewer than two characters are dropped. */
  function KeepNamed(ls: seq<Lesson>): (r: seq<Lesson>)
    ensures |r| <= |ls|
    ensures forall k :: 0 <= k < |r| ==> Utf16Length(r[k].subject) >= 2
  {
    if ls == [] then []
    else (if Utf16Length(ls[0].subject) >= 2 then [ls[0]] else []) + KeepNamed(ls[1..])
  }

  /** The last pass of `parseLessonFromCell`. */
  function Finalize(ls: seq<Lesson>): seq<Lesson> {
    KeepNamed(TidyAll(ls))
  }

  /** The lessons of a cell. */
  function CellLessons(frags: seq<Fragment>): seq<Lesson> {
    Finalize(MergeFrom([], Parsed(frags)))
  }

  /** The first loop of `parseLessonFromCell`: the lessons of the fragments that are not skipped. */
  method ParseFragments(frags: seq<Fragment>) returns (parsed: seq<Lesson>)
    ensures parsed == Parsed(frags)
  {
    hide ParseFragment, Parsed;
    parsed := [];
    var i := 0;
    while i < |frags|
      invariant 0 <= i <= |frags|
      invariant parsed + Parsed(frags[i..]) == Parsed(frags)
    {
      ParsedCons(frags[i..]);
      assert frags[i..][1..] == frags[i + 1..];
      var tail := Parsed(frags[i + 1..]);
      var l := ParseFragment(frags[i]);
      if l.Some? {
        Sorting.ConcatAssoc(parsed, [l.value], tail);
        parsed := parsed + [l.value];
      } else {
        Sorting.ConcatAssoc(parsed, [], tail);
      }
      i := i + 1;
    }
    assert frags[i..] == [];
    ParsedNil();
    Sorting.ConcatAssoc(parsed, [], []);
  }

  lemma ParsedCons(frags: seq<Fragment>)
    requires frags != []
    ensures Parsed(frags) == (match ParseFragment(frags[0]) case Some(l) => [l] case None => []) + Parsed(frags[1..])
  {
  }

  lemma ParsedNil()
    ensures Parsed([]) == []
  {
  }

  /** The last pass of `parseLessonFromCell`, first half: tidies every subject in place. */
  method TidyLessons(merged: seq<Lesson>) returns (work: seq<Lesson>)
    ensures work == TidyAll(merged)
  {
    hide LessonText.TidySubject, Tidied;
    work := merged;
    var j := 0;
    while j < |work|
      invariant 0 <= j <= |work| == |merged|
      invariant forall k :: 0 <= k < j ==> work[k] == Tidied(merged[k])
      invariant forall k :: j <= k < |work| ==> work[k] == merged[k]
    {
      work := work[j := Tidied(work[j])];
      j := j + 1;
    }
  }

  /** The last pass of `parseLessonFromCell`, second half: keeps the lessons whose subject has two characters or more. */
  method KeepNamedLessons(work: seq<Lesson>) returns (lessons: seq<Lesson>)
    ensures lessons == KeepNamed(work)
  {
    hide KeepNamed;
    lessons := [];
    var j := 0;
    while j < |work|
      invariant 0 <= j <= |work|
      invariant lessons + KeepNamed(work[j..]) == KeepNamed(work)
    {
      KeepNamedCons(work[j..]);
      assert work[j..][1..] == work[j + 1..];
      var tail := KeepNamed(work[j + 1..]);
      if Utf16Length(work[j].subject) >= 2 {
        Sorting.ConcatAssoc(lessons, [work[j]], tail);
        lessons := lessons + [work[j]];
      } else {
        Sorting.ConcatAssoc(lessons, [], tail);
      }
      j := j + 1;
    }
    assert work[j..] == [];
    KeepNamedNil();
    Sorting.ConcatAssoc(lessons, [], []);
  }

  lemma KeepNamedCons(ls: seq<Lesson>)
    requires ls != []
    ensures KeepNamed(ls) == (if Utf16Length(ls[0].subject) >= 2 then [ls[0]] else []) + KeepNamed(ls[1..])
  {
  }

  lemma KeepNamedNil()
    ensures KeepNamed([]) == []
  {
  }

  /**
   * `parseLessonFromCell`: parses each fragment, merges the orphans and drops
   * lessons whose subject is too short.
   */
  method ParseLessonFromCell(frags: seq<Fragment>) returns (lessons: seq<Lesson>)
    ensures lessons == CellLessons(frags)
    ensures forall k :: 0 <= k < |lessons| ==> Utf16Length(lessons[k].subject) >= 2
  {
    var parsed := ParseFragments(frags);
    var merged := MergeOrphans(parsed);
    var tidied := TidyLessons(merged);
    lessons := KeepNamedLessons(tidied);
  }
}
