/**
 * The row scan of `fetchSchedule`: the current week read from the page header,
 * and the days assembled from the rows of the timetable, one entry per time slot.
 */
module ScheduleRows {
  import opened Wrappers
  import opened Text
  import LessonCells
  import LessonVariants
  import Sorting

  type Lesson = LessonCells.Lesson

  // ---------------------------------------------------------------- extractCurrentWeek

  /**
   * The digits of a "текущая неделя [номер] N" header that starts at `p`, letter
   * case ignored and each gap a non-empty run of white space: where they start and
   * end. The digit run is the longest one, as the greedy `\d+` takes it.
   */
  function WeekDigitsAt(s: string, p: nat): (r: Option<(nat, nat)>)
    ensures r.Some? ==> MatchesAt(s, p, "текущая") && p < r.value.0 < r.value.1 <= |s|
    ensures r.Some? ==> forall k :: r.value.0 <= k < r.value.1 ==> IsDigit(s[k])
    ensures r.Some? ==> r.value.1 == |s| || !IsDigit(s[r.value.1])
  {
    if !MatchesAt(s, p, "текущая") then None
    else
      var e1 := SpacesEnd(s, p + 7);
      if e1 == p + 7 || !MatchesAt(s, e1, "неделя") then None
      else
        var e2 := SpacesEnd(s, e1 + 6);
        if e2 == e1 + 6 then None
        else if MatchesAt(s, e2, "номер") && SpacesEnd(s, e2 + 5) > e2 + 5
                && SpacesEnd(s, e2 + 5) < |s| && IsDigit(s[SpacesEnd(s, e2 + 5)]) then
          var d := SpacesEnd(s, e2 + 5);
          Some((d, DigitsEnd(s, d)))
        else if e2 < |s| && IsDigit(s[e2]) then
          Some((e2, DigitsEnd(s, e2)))
        else None
  }

  /** The leftmost position, from `from` on, where the week header matches. */
  function FirstWeekMatch(s: string, from: nat): (r: Option<nat>)
    requires from <= |s| + 1
    ensures r.Some? ==> from <= r.value <= |s| && WeekDigitsAt(s, r.value).Some?
    ensures forall q :: from <= q < (if r.Some? then r.value else |s| + 1) ==> WeekDigitsAt(s, q).None?
    decreases |s| + 1 - from
  {
    if from == |s| + 1 then None
    else if WeekDigitsAt(s, from).Some? then Some(from)
    else FirstWeekMatch(s, from + 1)
  }

  /** `extractCurrentWeek`: the number of the leftmost week header in the page text, 0 without one. */
  function CurrentWeek(bodyText: string): (r: nat)
    ensures FirstWeekMatch(bodyText, 0).None? ==> r == 0
    ensures r != 0 ==> FirstWeekMatch(bodyText, 0).Some?
  {
    match FirstWeekMatch(bodyText, 0)
    case None => 0
    case Some(p) =>
      var (d, e) := WeekDigitsAt(bodyText, p).value;
      DigitsValue(bodyText[d..e])
  }

  /**
   * A header made of the two words, one space each, and a number, read from the
   * start: whatever the letter case of the words, the week is the number.
   */
  lemma {:induction false} HeaderWeek(t: string, g: string, w: string)
    requires |t| == 7 && Lower(t) == "текущая" && |g| == 6 && Lower(g) == "неделя"
    requires w != [] && AllDigits(w)
    ensures CurrentWeek(t + " " + g + " " + w) == DigitsValue(w)
  {
    var s := t + " " + g + " " + w;
    hide Lower, DigitsValue, SpacesEnd, DigitsEnd;
    assert s[..7] == t && s[7] == ' ' && s[8..14] == g && s[14] == ' ' && s[15..] == w;
    assert MatchesAt(s, 0, "текущая");
    WordStartNotSpace(g, "неделя");
    SpacesRun(s, 7, 8);
    assert MatchesAt(s, 8, "неделя");
    SpacesRun(s, 14, 15);
    if |s| >= 20 {
      DigitNotWord(s[15..20], "номер");
    }
    DigitsEndRun(s, 15, |s|);
    assert WeekDigitsAt(s, 0) == Some((15 as nat, |s| as nat));
    assert FirstWeekMatch(s, 0) == Some(0);
    assert s[15..|s|] == w;
  }

  /** The same with the optional word "номер" between the words and the number. */
  lemma {:induction false} NumberedHeaderWeek(t: string, g: string, m: string, w: string)
    requires |t| == 7 && Lower(t) == "текущая" && |g| == 6 && Lower(g) == "неделя"
    requires |m| == 5 && Lower(m) == "номер"
    requires w != [] && AllDigits(w)
    ensures CurrentWeek(t + " " + g + " " + m + " " + w) == DigitsValue(w)
  {
    var s := t + " " + g + " " + m + " " + w;
    hide Lower, DigitsValue, SpacesEnd, DigitsEnd;
    assert s[..7] == t && s[7] == ' ' && s[8..14] == g && s[14] == ' '
      && s[15..20] == m && s[20] == ' ' && s[21..] == w;
    assert MatchesAt(s, 0, "текущая");
    WordStartNotSpace(g, "неделя");
    SpacesRun(s, 7, 8);
    assert MatchesAt(s, 8, "неделя");
    WordStartNotSpace(m, "номер");
    SpacesRun(s, 14, 15);
    assert MatchesAt(s, 15, "номер");
    SpacesRun(s, 20, 21);
    DigitsEndRun(s, 21, |s|);
    assert WeekDigitsAt(s, 0) == Some((21 as nat, |s| as nat));
    assert FirstWeekMatch(s, 0) == Some(0);
    assert s[21..|s|] == w;
  }

  /** A word that lower-cases to a word starting with a letter does not start with white space. */
  lemma WordStartNotSpace(g: string, word: string)
    requires g != [] && Lower(g) == word && word[0] == 'н'
    ensures !IsSpace(g[0])
  {
    assert LowerChar(g[0]) == word[0];
  }

  /** A single space before a character that is not one is a run of white space of length one. */
  lemma SpacesRun(s: string, i: nat, j: nat)
    requires j == i + 1 && j < |s| && IsSpace(s[i]) && !IsSpace(s[j])
    ensures SpacesEnd(s, i) == j
  {
  }

  /** A string that starts with a digit is no word that starts with a letter. */
  lemma DigitNotWord(x: string, word: string)
    requires x != [] && IsDigit(x[0]) && word != [] && word[0] == 'н'
    ensures Lower(x) != word
  {
    assert Lower(x)[0] == LowerChar(x[0]) == x[0];
  }

  /** The header words, lower-cased. */
  lemma LowerWords()
    ensures Lower("Текущая") == "текущая" && Lower("текущая") == "текущая"
    ensures Lower("неделя") == "неделя" && Lower("номер") == "номер"
  {
    hide Lower;
    LowerCurrent();
    LowerCurrentCapital();
    LowerWeek();
    LowerNumber();
  }

  lemma LowerCurrent() ensures Lower("текущая") == "текущая" { LowerWord("текущая", "текущая"); }
  lemma LowerCurrentCapital() ensures Lower("Текущая") == "текущая" { LowerWord("Текущая", "текущая"); }
  lemma LowerWeek() ensures Lower("неделя") == "неделя" { LowerWord("неделя", "неделя"); }
  lemma LowerNumber() ensures Lower("номер") == "номер" { LowerWord("номер", "номер"); }

  /** Lower-casing letter by letter. */
  lemma LowerWord(u: string, l: string)
    requires |u| == |l| && forall i :: 0 <= i < |u| ==> LowerChar(u[i]) == l[i]
    ensures Lower(u) == l
  {
  }

  /** A page whose text starts with "Текущая неделя N" is in week N. */
  lemma {:induction false} CurrentWeekOfHeader(n: nat)
    ensures CurrentWeek("Текущая" + " " + "неделя" + " " + NatToString(n)) == n
  {
    LowerWords();
    HeaderWeek("Текущая", "неделя", NatToString(n));
    NatToStringValue(n);
  }

  /** A page whose text starts with "текущая неделя номер N" is in week N. */
  lemma {:induction false} CurrentWeekOfNumberedHeader(n: nat)
    ensures CurrentWeek("текущая" + " " + "неделя" + " " + "номер" + " " + NatToString(n)) == n
  {
    LowerWords();
    NumberedHeaderWeek("текущая", "неделя", "номер", NatToString(n));
    NatToStringValue(n);
  }

  /** A page with no week header is in week 0. */
  lemma {:induction false} CurrentWeekWithoutHeader(s: string)
    requires forall p :: 0 <= p <= |s| ==> !MatchesAt(s, p, "текущая")
    ensures CurrentWeek(s) == 0
  {
    forall p | 0 <= p <= |s| ensures WeekDigitsAt(s, p).None? {
    }
  }

  // ---------------------------------------------------------------- rows and days

  /** A table cell, already extracted: its text, its `bgcolor` and `colspan` attributes and its lesson fragments. */
  datatype Cell = Cell(text: string, bgcolor: Option<string>, colspan: Option<string>, frags: seq<LessonCells.Fragment>)

  /** A table row: the text of the whole row and its `td` cells. */
  datatype Row = Row(text: string, cells: seq<Cell>)

  /** An entry of a day: a lesson stamped with the slot's time, or the empty slot `{time, isEmpty: true}`. */
  datatype Entry = Taken(lesson: Lesson) | Free(time: string)

  datatype Day = Day(dayName: string, date: string, isToday: bool, lessons: seq<Entry>)

  /** The six day names a day row is recognised by, Monday first. */
  const DayNames: seq<string> := ["Понедельник", "Вторник", "Среда", "Четверг", "Пятница", "Суббота"]

  /** `cells.eq(k)` past the last cell: no text, no attributes, no fragments. */
  function CellAt(cells: seq<Cell>, k: nat): (c: Cell)
    ensures k < |cells| ==> c == cells[k]
    ensures k >= |cells| ==> c.text == "" && c.bgcolor.None? && c.colspan.None? && c.frags == []
  {
    if k < |cells| then cells[k] else Cell("", None, None, [])
  }

  /** `attr || fallback`: an absent or empty attribute reads as the fallback. */
  function AttrOr(a: Option<string>, fallback: string): (r: string)
    ensures a.None? ==> r == fallback
    ensures a.Some? ==> r == (if a.value == "" then fallback else a.value)
  {
    if a.Some? && a.value != "" then a.value else fallback
  }

  /** `parseInt(colspan || '1') === 2`: the cell serves both week parities. */
  predicate SpansBoth(c: Cell) { ParseInt(AttrOr(c.colspan, "1")) == Int(2) }

  /** The first cell of a day row is highlighted in yellow on the current day. */
  predicate MarkedToday(c: Cell) { Lower(AttrOr(c.bgcolor, "")) == "yellow" }

  /** Odd weeks, and week 0 when the page shows none, read the numerator column. */
  predicate IsNumeratorWeek(cw: nat) { cw == 0 || cw % 2 != 0 }

  /** The first of `names` contained in `text`. */
  function FirstDayIn(text: string, names: seq<string>): (r: Option<string>)
    ensures r.Some? ==> r.value in names && Contains(text, r.value)
    ensures r.None? ==> forall k :: 0 <= k < |names| ==> !Contains(text, names[k])
  {
    if names == [] then None
    else if Contains(text, names[0]) then Some(names[0])
    else FirstDayIn(text, names[1..])
  }

  /** `dayNames.find(d => firstText.includes(d))`. */
  function DayIn(text: string): (r: Option<string>)
    ensures r.Some? ==> r.value in DayNames && Contains(text, r.value)
    ensures r.None? ==> forall d :: d in DayNames ==> !Contains(text, d)
  {
    FirstDayIn(text, DayNames)
  }

  /** A row starts a day when its first cell names one. */
  predicate IsDayRow(row: Row) { row.cells != [] && DayIn(Trim(row.cells[0].text)).Some? }

  /** The lessons of a cell stamped with the slot's time (`lesson.time = timeText`). */
  function Stamped(ls: seq<Lesson>, time: string): (r: seq<Entry>)
    ensures |r| == |ls|
    ensures forall k :: 0 <= k < |ls| ==> r[k] == Taken(ls[k].(time := time))
  {
    seq(|ls|, k requires 0 <= k < |ls| => Taken(ls[k].(time := time)))
  }

  /**
   * The entries one time slot contributes: the lesson selected from the column of
   * the current parity, stamped with the time, or the empty slot. A cell spanning
   * both columns serves both parities.
   */
  function SlotEntries(time: string, numCell: Cell, denCell: Cell, cw: nat): (r: seq<Entry>)
    ensures |r| == 1
  {
    hide LessonCells.CellLessons, LessonVariants.ResolveLessonDetails, LessonVariants.FirstNearest;
    var numerator := LessonCells.CellLessons(numCell.frags);
    var denominator := if SpansBoth(numCell) then numerator else LessonCells.CellLessons(denCell.frags);
    var isNumerator := IsNumeratorWeek(cw);
    var chosen := LessonVariants.Selected(if isNumerator then numerator else [], if isNumerator then [] else denominator, cw);
    SlotOf(time, chosen)
  }

  /** The selected lessons stamped with the time, or the empty slot when none was selected. */
  function SlotOf(time: string, chosen: seq<Lesson>): seq<Entry> {
    if chosen == [] then [Free(time)] else Stamped(chosen, time)
  }

  /** The lessons of the column a week reads: numerator in odd weeks and week 0, denominator otherwise. */
  function ParityLessons(numCell: Cell, denCell: Cell, cw: nat): seq<Lesson> {
    if IsNumeratorWeek(cw) || SpansBoth(numCell) then LessonCells.CellLessons(numCell.frags)
    else LessonCells.CellLessons(denCell.frags)
  }

  /**
   * A slot is empty exactly when the column of the current parity has no lesson,
   * and otherwise holds a lesson of that column's selection at the slot's time.
   */
  lemma {:induction false} SlotEntryParity(time: string, numCell: Cell, denCell: Cell, cw: nat)
    ensures SlotEntries(time, numCell, denCell, cw)[0].Free? <==> ParityLessons(numCell, denCell, cw) == []
    ensures SlotEntries(time, numCell, denCell, cw)[0].Free? ==> SlotEntries(time, numCell, denCell, cw)[0].time == time
    ensures SlotEntries(time, numCell, denCell, cw)[0].Taken? ==>
              SlotEntries(time, numCell, denCell, cw)[0].lesson.time == time
              && SlotEntries(time, numCell, denCell, cw)[0].lesson
                 == LessonVariants.Selected(ParityLessons(numCell, denCell, cw), [], cw)[0].(time := time)
  {
    hide LessonCells.CellLessons;
    var p := ParityLessons(numCell, denCell, cw);
    if IsNumeratorWeek(cw) {
      assert SlotEntries(time, numCell, denCell, cw) == (if LessonVariants.Selected(p, [], cw) == [] then [Free(time)] else Stamped(LessonVariants.Selected(p, [], cw), time));
    } else {
      SelectedSides(p, cw);
      assert SlotEntries(time, numCell, denCell, cw) == (if LessonVariants.Selected([], p, cw) == [] then [Free(time)] else Stamped(LessonVariants.Selected([], p, cw), time));
    }
  }

  /** Which side of `selectLessons` the single column is passed on does not matter. */
  lemma {:induction false} SelectedSides(p: seq<Lesson>, cw: nat)
    ensures LessonVariants.Selected([], p, cw) == LessonVariants.Selected(p, [], cw)
  {
    hide LessonVariants.SelectedFrom;
    Sorting.ConcatAssoc(p, [], p);
  }

  /** In a numerator week the denominator cell is never read. */
  lemma {:induction false} NumeratorWeekIgnoresDenominator(time: string, numCell: Cell, den1: Cell, den2: Cell, cw: nat)
    requires IsNumeratorWeek(cw)
    ensures SlotEntries(time, numCell, den1, cw) == SlotEntries(time, numCell, den2, cw)
  {
  }

  /** A cell spanning both columns decides the slot alone, in every week. */
  lemma {:induction false} SpanningCellServesBoth(time: string, numCell: Cell, den1: Cell, den2: Cell, cw: nat)
    requires SpansBoth(numCell)
    ensures SlotEntries(time, numCell, den1, cw) == SlotEntries(time, numCell, den2, cw)
  {
  }

  /** In a denominator week only the spanning attribute of the numerator cell is read, not its lessons. */
  lemma {:induction false} DenominatorWeekIgnoresNumerator(time: string, num1: Cell, num2: Cell, denCell: Cell, cw: nat)
    requires !IsNumeratorWeek(cw) && !SpansBoth(num1) && !SpansBoth(num2)
    ensures SlotEntries(time, num1, denCell, cw) == SlotEntries(time, num2, denCell, cw)
  {
  }

  // ---------------------------------------------------------------- the row scan

  /** The state of the scan: the days pushed so far and the day being filled. */
  datatype Scan = Scan(days: seq<Day>, current: Option<Day>)

  /** Push the day being filled when it has entries. */
  function Flush(sc: Scan): (r: seq<Day>)
    ensures sc.current.Some? && sc.current.value.lessons != [] ==> r == sc.days + [sc.current.value]
    ensures sc.current.None? || sc.current.value.lessons == [] ==> r == sc.days
  {
    if sc.current.Some? && sc.current.value.lessons != [] then sc.days + [sc.current.value] else sc.days
  }

  /**
   * One row: an empty row is skipped; a day row pushes the open day and opens a
   * new one with the slot of cells 1 (time), 2 and 3; any other row of at least
   * two cells adds the slot of cells 0 (time), 1 and 2 to the open day.
   */
  function Step(sc: Scan, row: Row, cw: nat): Scan {
    hide SlotEntries, DayIn, Trim, MarkedToday, CellAt;
    var cells := row.cells;
    if cells == [] then sc
    else
      match DayIn(Trim(cells[0].text))
      case Some(name) =>
        Scan(Flush(sc), Some(Day(name, "", MarkedToday(cells[0]),
          SlotEntries(Trim(CellAt(cells, 1).text), CellAt(cells, 2), CellAt(cells, 3), cw))))
      case None =>
        if sc.current.Some? && |cells| >= 2 then
          var d := sc.current.value;
          Scan(sc.days, Some(d.(lessons := d.lessons + SlotEntries(Trim(cells[0].text), cells[1], CellAt(cells, 2), cw))))
        else sc
  }

  /** The scan of `rows` from the state `sc`, first row first. */
  function ScanFrom(sc: Scan, rows: seq<Row>, cw: nat): Scan
    decreases |rows|
  {
    hide Step;
    if rows == [] then sc else ScanFrom(Step(sc, rows[0], cw), rows[1..], cw)
  }

  /** The days of a timetable: the scan from no day, then the last day pushed. */
  function Days(rows: seq<Row>, cw: nat): seq<Day> {
    hide Step;
    Flush(ScanFrom(Scan([], None), rows, cw))
  }

  /** Scanning `a + b` is scanning `a`, then `b`. */
  lemma {:induction false} ScanAppend(sc: Scan, a: seq<Row>, b: seq<Row>, cw: nat)
    ensures ScanFrom(sc, a + b, cw) == ScanFrom(ScanFrom(sc, a, cw), b, cw)
    decreases |a|
  {
    hide Step;
    Sorting.ConcatAssoc(a, [], b);
    if a != [] {
      Sorting.ConsConcat(a, b);
      assert ScanFrom(sc, a + b, cw) == ScanFrom(Step(sc, a[0], cw), a[1..] + b, cw);
      assert ScanFrom(sc, a, cw) == ScanFrom(Step(sc, a[0], cw), a[1..], cw);
      ScanAppend(Step(sc, a[0], cw), a[1..], b, cw);
    }
  }

  /** Scanning one more row is one more step. */
  lemma {:induction false} ScanSnoc(sc: Scan, a: seq<Row>, row: Row, cw: nat)
    ensures ScanFrom(sc, a + [row], cw) == Step(ScanFrom(sc, a, cw), row, cw)
  {
    hide Step;
    ScanAppend(sc, a, [row], cw);
    assert ScanFrom(Step(ScanFrom(sc, a, cw), row, cw), [], cw) == Step(ScanFrom(sc, a, cw), row, cw);
  }

  /** The number of rows that give an entry: day rows, and rows of two cells or more once a day is open. */
  function EntryRows(rows: seq<Row>, open: bool): nat
    decreases |rows|
  {
    if rows == [] then 0
    else if IsDayRow(rows[0]) then 1 + EntryRows(rows[1..], true)
    else if open && |rows[0].cells| >= 2 then 1 + EntryRows(rows[1..], open)
    else EntryRows(rows[1..], open)
  }

  /** The number of day rows, counted first to last. */
  function CountDayRows(rows: seq<Row>): nat
    decreases |rows|
  {
    if rows == [] then 0 else (if IsDayRow(rows[0]) then 1 else 0) + CountDayRows(rows[1..])
  }

  /** The number of entries of some days. */
  function TotalEntries(days: seq<Day>): nat {
    if days == [] then 0 else |days[0].lessons| + TotalEntries(days[1..])
  }

  lemma {:induction false} TotalEntriesAppend(a: seq<Day>, b: seq<Day>)
    ensures TotalEntries(a + b) == TotalEntries(a) + TotalEntries(b)
    decreases |a|
  {
    Sorting.ConcatAssoc(a, [], b);
    if a != [] {
      Sorting.ConsConcat(a, b);
      assert TotalEntries(a + b) == |a[0].lessons| + TotalEntries(a[1..] + b);
      TotalEntriesAppend(a[1..], b);
    }
  }

  /** The scan's invariant: every pushed day and the open day have at least one entry. */
  predicate Filled(sc: Scan) {
    (forall k :: 0 <= k < |sc.days| ==> sc.days[k].lessons != [])
    && (sc.current.Some? ==> sc.current.value.lessons != [])
  }

  /** What the scan has gathered: its days and entries, the open day included. */
  function ScanDays(sc: Scan): nat { |sc.days| + if sc.current.Some? then 1 else 0 }
  function ScanEntries(sc: Scan): nat {
    TotalEntries(sc.days) + if sc.current.Some? then |sc.current.value.lessons| else 0
  }

  /** One step keeps the days filled, and opens a day, or adds an entry, exactly as the row counts say. */
  lemma {:induction false} StepCounts(sc: Scan, row: Row, cw: nat)
    requires Filled(sc)
    ensures Filled(Step(sc, row, cw))
    ensures ScanDays(Step(sc, row, cw)) == ScanDays(sc) + (if IsDayRow(row) then 1 else 0)
    ensures Step(sc, row, cw).current.Some? <==> sc.current.Some? || IsDayRow(row)
    ensures ScanEntries(Step(sc, row, cw))
            == ScanEntries(sc) + (if IsDayRow(row) || (sc.current.Some? && |row.cells| >= 2) then 1 else 0)
  {
    hide SlotEntries, DayIn, Trim, MarkedToday, CellAt;
    var sc' := Step(sc, row, cw);
    if IsDayRow(row) {
      if sc.current.Some? {
        TotalEntriesAppend(sc.days, [sc.current.value]);
      }
    } else if sc.current.Some? && |row.cells| >= 2 {
      assert sc'.days == sc.days;
    }
  }

  /** The scan of `rows` from a filled state: the counts of days and entries it adds. */
  lemma {:induction false} ScanCounts(sc: Scan, rows: seq<Row>, cw: nat)
    requires Filled(sc)
    ensures Filled(ScanFrom(sc, rows, cw))
    ensures ScanDays(ScanFrom(sc, rows, cw)) == ScanDays(sc) + CountDayRows(rows)
    ensures ScanFrom(sc, rows, cw).current.Some? <==> sc.current.Some? || CountDayRows(rows) > 0
    ensures ScanEntries(ScanFrom(sc, rows, cw)) == ScanEntries(sc) + EntryRows(rows, sc.current.Some?)
    decreases |rows|
  {
    hide Step;
    if rows != [] {
      StepCounts(sc, rows[0], cw);
      ScanCounts(Step(sc, rows[0], cw), rows[1..], cw);
    }
  }

  /** Every day of the timetable has at least one entry, and no day row is lost: one day per day row. */
  lemma {:induction false} DaysAreFilled(rows: seq<Row>, cw: nat)
    ensures forall k :: 0 <= k < |Days(rows, cw)| ==> Days(rows, cw)[k].lessons != []
    ensures |Days(rows, cw)| == CountDayRows(rows)
  {
    hide Step, ScanFrom;
    var sc := ScanFrom(Scan([], None), rows, cw);
    ScanCounts(Scan([], None), rows, cw);
    if sc.current.Some? {
      assert Days(rows, cw) == sc.days + [sc.current.value];
    }
  }

  /** Each day row and each slot row of two cells or more once a day is open gives exactly one entry. */
  lemma {:induction false} OneEntryPerSlotRow(rows: seq<Row>, cw: nat)
    ensures TotalEntries(Days(rows, cw)) == EntryRows(rows, false)
  {
    hide Step, ScanFrom;
    var sc := ScanFrom(Scan([], None), rows, cw);
    ScanCounts(Scan([], None), rows, cw);
    if sc.current.Some? {
      TotalEntriesAppend(sc.days, [sc.current.value]);
    }
  }

  /** Rows before the first day row change nothing. */
  lemma {:induction false} RowsBeforeFirstDayIgnored(pre: seq<Row>, rows: seq<Row>, cw: nat)
    requires forall k :: 0 <= k < |pre| ==> !IsDayRow(pre[k])
    ensures Days(pre + rows, cw) == Days(rows, cw)
  {
    hide Step, ScanFrom;
    NoDayNoScan(pre, cw);
    ScanAppend(Scan([], None), pre, rows, cw);
  }

  /** Without a day row the scan stays at its start. */
  lemma {:induction false} NoDayNoScan(pre: seq<Row>, cw: nat)
    requires forall k :: 0 <= k < |pre| ==> !IsDayRow(pre[k])
    ensures ScanFrom(Scan([], None), pre, cw) == Scan([], None)
    decreases |pre|
  {
    hide SlotEntries, DayIn, Trim, MarkedToday, CellAt;
    if pre != [] {
      assert !IsDayRow(pre[0]);
      assert Step(Scan([], None), pre[0], cw) == Scan([], None);
      NoDayNoScan(pre[1..], cw);
    }
  }

  // ---------------------------------------------------------------- the imperative scan

  /** The entries of one slot, parsing both cells and selecting by the current week. */
  method SlotLessons(time: string, numCell: Cell, denCell: Cell, cw: nat) returns (entries: seq<Entry>)
    ensures entries == SlotEntries(time, numCell, denCell, cw)
  {
    hide LessonCells.CellLessons, LessonVariants.Selected, SlotOf, SpansBoth;
    var numerator := LessonCells.ParseLessonFromCell(numCell.frags);
    var denominator := numerator;
    if !SpansBoth(numCell) {
      denominator := LessonCells.ParseLessonFromCell(denCell.frags);
    }
    var isNumerator := IsNumeratorWeek(cw);
    var chosen := LessonVariants.SelectLessons(if isNumerator then numerator else [], if isNumerator then [] else denominator, cw);
    entries := SlotOf(time, chosen);
  }

  /** The row loop of `fetchSchedule`, proved to compute `Days`. */
  method AssembleDays(rows: seq<Row>, cw: nat) returns (schedule: seq<Day>)
    ensures schedule == Days(rows, cw)
  {
    hide SlotEntries, Flush, DayIn, Trim, MarkedToday;
    schedule := [];
    var currentDay: Option<Day> := None;
    for i := 0 to |rows|
      invariant Scan(schedule, currentDay) == ScanFrom(Scan([], None), rows[..i], cw)
    {
      ScanSnoc(Scan([], None), rows[..i], rows[i], cw);
      assert rows[..i + 1] == rows[..i] + [rows[i]];
      var cells := rows[i].cells;
      if |cells| > 0 {
        var dayMatch := DayIn(Trim(cells[0].text));
        if dayMatch.Some? {
          if currentDay.Some? && |currentDay.value.lessons| > 0 {
            schedule := schedule + [currentDay.value];
          }
          var entries := SlotLessons(Trim(CellAt(cells, 1).text), CellAt(cells, 2), CellAt(cells, 3), cw);
          currentDay := Some(Day(dayMatch.value, "", MarkedToday(cells[0]), entries));
        } else if currentDay.Some? && |cells| >= 2 {
          var entries := SlotLessons(Trim(cells[0].text), cells[1], CellAt(cells, 2), cw);
          currentDay := Some(currentDay.value.(lessons := currentDay.value.lessons + entries));
        }
      }
    }
    assert rows[..|rows|] == rows;
    if currentDay.Some? && |currentDay.value.lessons| > 0 {
      schedule := schedule + [currentDay.value];
    }
  }
}
