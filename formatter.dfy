/**
 * The message formatter of the bot (`formatter.js`). Every message is a list of
 * lines joined with line breaks; the model states each message by its lines.
 */
module Formatter {
  import opened Wrappers
  import opened Text
  import opened LessonCells
  import opened ScheduleRows

  const ClockMark: string := "\U{1F550}"
  const BookMark: string := "\U{1F4DA}"
  const TeacherMark: string := "\U{1F468}\U{200D}\U{1F3EB}"
  const RoomMark: string := "\U{1F6AA}"
  const PinMark: string := "\U{1F4CC}"
  const CalendarMark: string := "\U{1F4C5}"
  const WeekMark: string := "\U{1F4C6}"
  const CrossMark: string := "\U{274C}"

  /** `'─'.repeat(25)`. */
  const Rule: string := "─────────────────────────"

  const NoLessonsInSlot: string := "<i>Занятий нет</i>"
  const NoLessonsInDay: string := "<i>Нет занятий</i>"
  const NoLessonsToday: string := "<i>Сегодня нет занятий по расписанию</i>"
  const NotFound: string := "\n<i>Расписание не найдено</i>"
  const DefaultError: string := "Произошла ошибка. Попробуйте позже."

  /** The Russian weekday names indexed by `getDay()`, Sunday first. */
  const DayNamesRu: seq<string> := ["Воскресенье", "Понедельник", "Вторник", "Среда", "Четверг", "Пятница", "Суббота"]

  // ---------------------------------------------------------------- formatLesson

  function TimeLine(time: string): string { ClockMark + " <b>" + time + "</b>" }

  /** The subject, with the lesson kind in parentheses only when there is one. */
  function SubjectLine(subject: string, kind: string): (r: string)
    ensures kind == "" ==> r == BookMark + " " + subject
    ensures kind != "" ==> StartsWith(r, BookMark + " " + subject) && EndsWith(r, " <i>(" + kind + ")</i>")
  {
    var head := BookMark + " " + subject;
    var tail := if kind != "" then " <i>(" + kind + ")</i>" else "";
    assert (head + tail)[..|head|] == head;
    assert (head + tail)[|head + tail| - |tail|..] == tail;
    head + tail
  }

  /** A line when `present`, nothing otherwise. */
  function Opt(present: bool, line: string): (r: seq<string>)
    ensures |r| == (if present then 1 else 0)
    ensures present ==> r[0] == line
  {
    if present then [line] else []
  }

  /** The position of the subject line: after the time line when there is one. */
  function SubjectAt(l: Lesson): nat { if l.time != "" then 1 else 0 }

  /**
   * The lines of `formatLesson`: for a free slot its time and "no lessons";
   * for a lesson the time, the subject, the teacher, the room and the weeks, in
   * that order, each but the subject only when non-empty.
   */
  function EntryLines(e: Entry): (r: seq<string>)
    ensures e.Free? ==> r == [TimeLine(e.time), NoLessonsInSlot]
    ensures e.Taken? ==>
              |r| == SubjectAt(e.lesson) + 1 + (if e.lesson.teacher != "" then 1 else 0)
                     + (if e.lesson.room != "" then 1 else 0) + (if e.lesson.weeks != "" then 1 else 0)
    ensures e.Taken? && e.lesson.time != "" ==> r[0] == TimeLine(e.lesson.time)
    ensures e.Taken? ==> r[SubjectAt(e.lesson)] == SubjectLine(e.lesson.subject, e.lesson.kind)
    ensures e.Taken? && e.lesson.teacher != "" ==> r[SubjectAt(e.lesson) + 1] == TeacherMark + " " + e.lesson.teacher
    ensures e.Taken? && e.lesson.room != "" ==>
              r[SubjectAt(e.lesson) + 1 + (if e.lesson.teacher != "" then 1 else 0)] == RoomMark + " " + e.lesson.room
    ensures e.Taken? && e.lesson.weeks != "" ==> r[|r| - 1] == PinMark + " " + e.lesson.weeks
  {
    match e
    case Free(time) => [TimeLine(time), NoLessonsInSlot]
    case Taken(l) =>
      var t := Opt(l.time != "", TimeLine(l.time));
      var s := [SubjectLine(l.subject, l.kind)];
      var te := Opt(l.teacher != "", TeacherMark + " " + l.teacher);
      var ro := Opt(l.room != "", RoomMark + " " + l.room);
      var we := Opt(l.weeks != "", PinMark + " " + l.weeks);
      assert t + s + te + ro + we == t + (s + (te + (ro + we)));
      t + s + te + ro + we
  }

  /** `formatLesson`. */
  function FormatLesson(e: Entry): string { Join(EntryLines(e), "\n") }

  /** No field of the entry holds a line break. */
  predicate SingleLineFields(e: Entry) {
    match e
    case Free(time) => '\n' !in time
    case Taken(l) => '\n' !in l.time && '\n' !in l.subject && '\n' !in l.kind && '\n' !in l.teacher
                     && '\n' !in l.room && '\n' !in l.weeks
  }

  /** The message of one lesson splits back into exactly its lines. */
  lemma FormatLessonLines(e: Entry)
    requires SingleLineFields(e)
    ensures Split(FormatLesson(e), '\n') == EntryLines(e)
  {
    var r := EntryLines(e);
    forall k | 0 <= k < |r|
      ensures '\n' !in r[k]
    {
      EntryLineSingle(e, k);
    }
    SplitJoin(r, '\n');
  }

  lemma EntryLineSingle(e: Entry, k: nat)
    requires SingleLineFields(e) && k < |EntryLines(e)|
    ensures '\n' !in EntryLines(e)[k]
  {
    match e
    case Free(time) =>
      TimeLineUnbroken(time);
      assert '\n' !in NoLessonsInSlot;
    case Taken(l) =>
      var t := Opt(l.time != "", TimeLine(l.time));
      var s := [SubjectLine(l.subject, l.kind)];
      var te := Opt(l.teacher != "", TeacherMark + " " + l.teacher);
      var ro := Opt(l.room != "", RoomMark + " " + l.room);
      var we := Opt(l.weeks != "", PinMark + " " + l.weeks);
      hide SubjectLine, TimeLine;
      TimeLineUnbroken(l.time);
      SubjectLineUnbroken(l.subject, l.kind);
      MarkedUnbroken(TeacherMark, l.teacher);
      MarkedUnbroken(RoomMark, l.room);
      MarkedUnbroken(PinMark, l.weeks);
      OptUnbroken(l.time != "", TimeLine(l.time));
      OptUnbroken(l.teacher != "", TeacherMark + " " + l.teacher);
      OptUnbroken(l.room != "", RoomMark + " " + l.room);
      OptUnbroken(l.weeks != "", PinMark + " " + l.weeks);
      assert Unbroken(s);
      hide Opt;
      UnbrokenJoin(t, s);
      UnbrokenJoin(t + s, te);
      UnbrokenJoin(t + s + te, ro);
      UnbrokenJoin(t + s + te + ro, we);
      assert EntryLines(e) == t + s + te + ro + we;
  }

  lemma TimeLineUnbroken(time: string)
    requires '\n' !in time
    ensures '\n' !in TimeLine(time)
  {
    assert '\n' !in ClockMark + " <b>" && '\n' !in "</b>";
  }

  lemma SubjectLineUnbroken(subject: string, kind: string)
    requires '\n' !in subject && '\n' !in kind
    ensures '\n' !in SubjectLine(subject, kind)
  {
    assert '\n' !in BookMark + " " && '\n' !in " <i>(" && '\n' !in ")</i>";
  }

  lemma MarkedUnbroken(mark: string, field: string)
    requires mark in {TeacherMark, RoomMark, PinMark} && '\n' !in field
    ensures '\n' !in mark + " " + field
  {
    assert '\n' !in TeacherMark + " " && '\n' !in RoomMark + " " && '\n' !in PinMark + " ";
  }

  lemma OptUnbroken(present: bool, line: string)
    requires '\n' !in line
    ensures Unbroken(Opt(present, line))
  {
  }

  /** No line of `lines` holds a line break. */
  predicate Unbroken(lines: seq<string>) {
    forall k :: 0 <= k < |lines| ==> '\n' !in lines[k]
  }

  lemma UnbrokenJoin(a: seq<string>, b: seq<string>)
    requires Unbroken(a) && Unbroken(b)
    ensures Unbroken(a + b)
  {
    assert forall k :: 0 <= k < |a + b| ==> (a + b)[k] == if k < |a| then a[k] else b[k - |a|];
  }

  /** A free slot is shown as exactly two lines: its time, then "no lessons". */
  lemma FreeSlotTwoLines(time: string)
    requires '\n' !in time
    ensures Split(FormatLesson(Free(time)), '\n') == [TimeLine(time), NoLessonsInSlot]
  {
    FormatLessonLines(Free(time));
  }

  // ---------------------------------------------------------------- formatDay

  /** The day name with the date in parentheses when there is one. */
  function NameAndDate(name: string, date: string): (r: string)
    ensures date == "" ==> r == name
    ensures date != "" ==> StartsWith(r, name) && EndsWith(r, " (" + date + ")")
  {
    var tail := if date != "" then " (" + date + ")" else "";
    assert (name + tail)[..|name|] == name;
    assert (name + tail)[|name + tail| - |tail|..] == tail;
    name + tail
  }

  /** The header of `formatDay`, marked as today only for today. */
  function DayHeader(d: Day): (r: string)
    ensures !d.isToday ==> r == NameAndDate(d.dayName, d.date)
    ensures d.isToday ==> StartsWith(r, PinMark + " " + NameAndDate(d.dayName, d.date)) && EndsWith(r, " — СЕГОДНЯ")
  {
    var h := NameAndDate(d.dayName, d.date);
    if d.isToday then
      var r := PinMark + " " + h + " — СЕГОДНЯ";
      assert r[..|PinMark + " " + h|] == PinMark + " " + h;
      assert r[|r| - |" — СЕГОДНЯ"|..] == " — СЕГОДНЯ";
      r
    else h
  }

  /** Lesson blocks, each but the first preceded by one blank line. */
  function Separated(es: seq<Entry>): (r: seq<string>)
    requires es != []
    ensures |r| == 2 * |es| - 1
    decreases |es|
  {
    if |es| == 1 then [FormatLesson(es[0])]
    else Separated(es[..|es| - 1]) + ["", FormatLesson(es[|es| - 1])]
  }

  /** Lesson k sits on line 2k, and every line between two lessons is blank. */
  lemma {:induction false} SeparatedLayout(es: seq<Entry>)
    requires es != []
    ensures forall j :: 0 <= j < |es| ==> Separated(es)[2 * j] == FormatLesson(es[j])
    ensures forall j :: 0 <= j < |es| - 1 ==> Separated(es)[2 * j + 1] == ""
    decreases |es|
  {
    if |es| > 1 {
      hide FormatLesson;
      var init := es[..|es| - 1];
      SeparatedLayout(init);
      var r := Separated(es);
      assert r == Separated(init) + ["", FormatLesson(es[|es| - 1])];
      forall j | 0 <= j < |es| - 1
        ensures r[2 * j] == FormatLesson(es[j]) && r[2 * j + 1] == ""
      {
        assert r[2 * j] == Separated(init)[2 * j];
        assert init[j] == es[j];
        if j < |es| - 2 {
          assert r[2 * j + 1] == Separated(init)[2 * j + 1];
        }
      }
    }
  }

  /**
   * The lines of `formatDay`: the header, the 25-character rule, then the
   * placeholder for a day without lessons or the lesson blocks.
   */
  function DayLines(d: Day): (r: seq<string>)
    ensures |r| >= 3 && r[0] == "\n<b>" + DayHeader(d) + "</b>" && r[1] == Rule
    ensures d.lessons == [] ==> r[2..] == [NoLessonsInDay]
    ensures d.lessons != [] ==> r[2..] == Separated(d.lessons)
  {
    var head := ["\n<b>" + DayHeader(d) + "</b>", Rule];
    var body := if d.lessons == [] then [NoLessonsInDay] else Separated(d.lessons);
    assert (head + body)[2..] == body;
    head + body
  }

  /** `formatDay`. */
  function FormatDay(d: Day): string { Join(DayLines(d), "\n") }

  // ---------------------------------------------------------------- formatWeekHeader, formatSchedule, formatToday

  /** `formatWeekHeader`: empty unless the week is positive, and then ending with the week number. */
  function WeekHeader(currentWeek: int): (r: string)
    ensures r == "" <==> currentWeek <= 0
    ensures currentWeek > 0 ==> EndsWith(r, NatToString(currentWeek) + "</b>")
  {
    if currentWeek > 0 then
      var head := WeekMark + " <b>Текущая неделя: ";
      var tail := NatToString(currentWeek) + "</b>";
      assert (head + tail)[|head + tail| - |tail|..] == tail;
      head + tail
    else ""
  }

  /** The title, the group line, and the week header when there is one. */
  function Heading(title: string, currentWeek: int, groupName: string): (r: seq<string>)
    ensures |r| == (if currentWeek > 0 then 3 else 2)
    ensures r[0] == title && r[1] == "<b>Группа:</b> " + groupName
    ensures currentWeek > 0 ==> r[2] == WeekHeader(currentWeek)
  {
    [title, "<b>Группа:</b> " + groupName] + (if WeekHeader(currentWeek) != "" then [WeekHeader(currentWeek)] else [])
  }

  function Days(days: seq<Day>): (r: seq<string>)
    ensures |r| == |days| && forall k :: 0 <= k < |days| ==> r[k] == FormatDay(days[k])
  {
    seq(|days|, k requires 0 <= k < |days| => FormatDay(days[k]))
  }

  /**
   * The lines of `formatSchedule`: the heading, then "not found" for an absent or
   * empty schedule, or one day block per day in order.
   */
  function ScheduleLines(schedule: Option<seq<Day>>, currentWeek: int, groupName: string): (r: seq<string>)
    ensures var h := if currentWeek > 0 then 3 else 2;
            && |r| >= h + 1
            && r[..h] == Heading("<b>" + CalendarMark + " Расписание на неделю</b>", currentWeek, groupName)
            && (schedule.None? || schedule.value == [] ==> r[h..] == [NotFound])
            && (schedule.Some? && schedule.value != [] ==>
                  |r| == h + |schedule.value| && forall k :: 0 <= k < |schedule.value| ==> r[h + k] == FormatDay(schedule.value[k]))
  {
    var head := Heading("<b>" + CalendarMark + " Расписание на неделю</b>", currentWeek, groupName);
    var body := if schedule.None? || schedule.value == [] then [NotFound] else Days(schedule.value);
    assert (head + body)[..|head|] == head && (head + body)[|head|..] == body;
    head + body
  }

  /** `formatSchedule`. */
  function FormatSchedule(schedule: Option<seq<Day>>, currentWeek: int, groupName: string): string {
    Join(ScheduleLines(schedule, currentWeek, groupName), "\n")
  }

  /**
   * The day part of `formatToday` on weekday `weekday` (0 for Sunday): for no
   * day or a day without lessons, the day's name (or, lacking one, today's), the
   * rule and "no lessons today"; otherwise the name and date, the rule and the
   * lesson blocks.
   */
  function TodayBody(today: Option<Day>, weekday: nat): (r: seq<string>)
    requires weekday < 7
    ensures |r| >= 3 && r[1] == Rule
    ensures today.None? || today.value.lessons == [] ==>
              && r[0] == "<b>" + (if today.Some? && today.value.dayName != "" then today.value.dayName else DayNamesRu[weekday]) + "</b>"
              && r[2..] == [NoLessonsToday]
    ensures today.Some? && today.value.lessons != [] ==>
              && r[0] == "<b>" + NameAndDate(today.value.dayName, today.value.date) + "</b>"
              && r[2..] == Separated(today.value.lessons)
  {
    if today.None? || today.value.lessons == [] then
      var name := if today.Some? && today.value.dayName != "" then today.value.dayName else DayNamesRu[weekday];
      ["<b>" + name + "</b>", Rule, NoLessonsToday]
    else
      var head := ["<b>" + NameAndDate(today.value.dayName, today.value.date) + "</b>", Rule];
      assert (head + Separated(today.value.lessons))[2..] == Separated(today.value.lessons);
      head + Separated(today.value.lessons)
  }

  /** The lines of `formatToday`: the heading, a blank line, then the day part. */
  function TodayLines(today: Option<Day>, currentWeek: int, groupName: string, weekday: nat): (r: seq<string>)
    requires weekday < 7
    ensures var h := if currentWeek > 0 then 3 else 2;
            && |r| == h + 1 + |TodayBody(today, weekday)|
            && r[..h] == Heading("<b>" + PinMark + " Расписание на сегодня</b>", currentWeek, groupName)
            && r[h] == ""
            && r[h + 1..] == TodayBody(today, weekday)
  {
    var head := Heading("<b>" + PinMark + " Расписание на сегодня</b>", currentWeek, groupName);
    var body := TodayBody(today, weekday);
    hide TodayBody, Heading;
    assert (head + [""] + body)[..|head|] == head;
    assert (head + [""] + body)[|head| + 1..] == body;
    head + [""] + body
  }

  /** `formatToday`. */
  function FormatToday(today: Option<Day>, currentWeek: int, groupName: string, weekday: nat): string
    requires weekday < 7
  {
    Join(TodayLines(today, currentWeek, groupName, weekday), "\n")
  }

  /** The week header is among the heading lines exactly when the week is known. */
  lemma WeekHeaderShown(title: string, currentWeek: int, groupName: string)
    requires title != ""
    ensures WeekHeader(currentWeek) in Heading(title, currentWeek, groupName) <==> currentWeek > 0
  {
    var h := Heading(title, currentWeek, groupName);
    if currentWeek <= 0 {
      assert h == [h[0], h[1]];
      assert h[1] != "" by { assert h[1][0] == '<'; }
    }
  }

  // ---------------------------------------------------------------- formatError

  /** `formatError`: the given message, or the default one when it is absent or empty. */
  function FormatError(message: Option<string>): (r: string)
    ensures message.Some? && message.value != "" ==> EndsWith(r, "\n\n" + message.value)
    ensures message.None? || message.value == "" ==> EndsWith(r, "\n\n" + DefaultError)
    ensures StartsWith(r, CrossMark + " <b>Ошибка</b>\n\n")
  {
    var head := CrossMark + " <b>Ошибка</b>\n\n";
    var text := if message.Some? && message.value != "" then message.value else DefaultError;
    assert (head + text)[..|head|] == head;
    assert (head + text)[|head + text| - |"\n\n" + text|..] == "\n\n" + text;
    head + text
  }
}
