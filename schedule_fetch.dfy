/**
 * `fetchSchedule` around the row scan: the per-group cache with its global
 * refresh marker, the page read into a schedule, and the two views built on top,
 * the day of the week and the whole week.
 */
module ScheduleFetch {
  import opened Wrappers
  import opened Text
  import opened ScheduleRows

  /** Twelve hours: once the global marker is older, no entry is served. */
  const CacheUpdateInterval: int := 12 * 60 * 60 * 1000

  /** Thirty minutes: the age past which a single entry is not served. */
  const ScheduleTTL: int := 30 * 60 * 1000

  /** A table of the page, as its rows. */
  datatype Table = Table(rows: seq<Row>)

  /** What `fetchSchedule` returns: the days and the week number they were read for. */
  datatype Schedule = Schedule(schedule: seq<Day>, currentWeek: nat)

  datatype CacheEntry = CacheEntry(data: Schedule, timestamp: int)

  /** The outcome of the request: an error, or the page's text and tables. */
  datatype Download = Failed(message: string) | Loaded(bodyText: string, tables: seq<Table>)

  /** The timetable is the table whose first row names a week parity. */
  predicate IsMainTable(t: Table) {
    var header := if t.rows == [] then "" else t.rows[0].text;
    Contains(header, "Числитель") || Contains(header, "Знаменатель")
  }

  /** The first timetable of the page. */
  function MainTableIndex(tables: seq<Table>): (r: Option<nat>)
    ensures r.Some? ==> r.value < |tables| && IsMainTable(tables[r.value])
    ensures forall k :: 0 <= k < (if r.Some? then r.value else |tables|) ==> !IsMainTable(tables[k])
  {
    if tables == [] then None
    else if IsMainTable(tables[0]) then Some(0)
    else match MainTableIndex(tables[1..])
      case None => None
      case Some(i) => Some(i + 1)
  }

  /** The schedule a page gives: no day without a timetable, otherwise the days of its rows. */
  function PageSchedule(bodyText: string, tables: seq<Table>): (r: Schedule)
    ensures r.currentWeek == CurrentWeek(bodyText)
    ensures MainTableIndex(tables).None? ==> r.schedule == []
    ensures MainTableIndex(tables).Some? ==> r.schedule == Days(tables[MainTableIndex(tables).value].rows, r.currentWeek)
  {
    hide Days, CurrentWeek;
    var cw := CurrentWeek(bodyText);
    match MainTableIndex(tables)
    case None => Schedule([], cw)
    case Some(i) => Schedule(Days(tables[i].rows, cw), cw)
  }

  /** `groupId || groupCode`: the group id when there is one, otherwise the group code. */
  function CacheKey(groupId: string, groupCode: string): (r: string)
    ensures groupId != "" ==> r == groupId
    ensures groupId == "" ==> r == groupCode
  {
    if groupId != "" then groupId else groupCode
  }

  /** An entry is served when it exists, the global marker is at most 12 hours old and the entry is younger than 30 minutes. */
  predicate Served(entries: map<string, CacheEntry>, lastUpdate: int, key: string, now: int) {
    key in entries && !(now - lastUpdate > CacheUpdateInterval) && now - entries[key].timestamp < ScheduleTTL
  }

  /** What a fetch stores: the page's schedule when the page has a timetable. */
  function Stored(entries: map<string, CacheEntry>, key: string, now: int, download: Download): (r: map<string, CacheEntry>)
    ensures download.Failed? || MainTableIndex(download.tables).None? ==> r == entries
    ensures download.Loaded? && MainTableIndex(download.tables).Some? ==>
              r == entries[key := CacheEntry(PageSchedule(download.bodyText, download.tables), now)]
  {
    if download.Loaded? && MainTableIndex(download.tables).Some? then
      entries[key := CacheEntry(PageSchedule(download.bodyText, download.tables), now)]
    else entries
  }

  /** A schedule just stored is served to every request for it within 30 minutes. */
  lemma {:induction false} ServedAfterStore(entries: map<string, CacheEntry>, key: string, data: Schedule, stored: int, now: int)
    requires stored <= now < stored + ScheduleTTL
    ensures Served(entries[key := CacheEntry(data, stored)], stored, key, now)
  {
  }

  /** ... and to none after that, whatever the marker. */
  lemma {:induction false} NotServedAfterTTL(entries: map<string, CacheEntry>, lastUpdate: int, key: string, now: int)
    requires key in entries && now >= entries[key].timestamp + ScheduleTTL
    ensures !Served(entries, lastUpdate, key, now)
  {
  }

  /** Once the marker is reset to 0, nothing is served at any time later than 12 hours after the epoch. */
  lemma {:induction false} NothingServedAfterReset(entries: map<string, CacheEntry>, key: string, now: int)
    requires now > CacheUpdateInterval
    ensures !Served(entries, 0, key, now)
  {
  }

  /** The module state of `schedule.js`: the cache map and the time of the last successful fetch. */
  class ScheduleCache {
    var entries: map<string, CacheEntry>
    var lastUpdate: int

    constructor ()
      ensures entries == map[] && lastUpdate == 0
    {
      entries := map[];
      lastUpdate := 0;
    }

    /**
     * `fetchSchedule` at time `now`, with `download` the outcome the request would
     * have: a served entry is returned as is; otherwise a page with a timetable is
     * read, stored and resets the marker, a page without one is read and not
     * stored, and an error falls back to the entry, however old, or fails.
     */
    method Fetch(groupId: string, groupCode: string, now: int, download: Download) returns (r: Result<Schedule, string>)
      modifies this
      ensures var key := CacheKey(groupId, groupCode);
        old(Served(entries, lastUpdate, key, now)) ==>
          r == Ok(old(entries)[key].data) && entries == old(entries) && lastUpdate == old(lastUpdate)
      ensures var key := CacheKey(groupId, groupCode);
        !old(Served(entries, lastUpdate, key, now)) && download.Failed? ==>
          entries == old(entries) && lastUpdate == old(lastUpdate)
          && r == (if key in old(entries) then Ok(old(entries)[key].data) else Err(download.message))
      ensures var key := CacheKey(groupId, groupCode);
        !old(Served(entries, lastUpdate, key, now)) && download.Loaded? ==>
          r == Ok(PageSchedule(download.bodyText, download.tables))
          && entries == Stored(old(entries), key, now, download)
          && lastUpdate == (if MainTableIndex(download.tables).Some? then now else old(lastUpdate))
    {
      var key := CacheKey(groupId, groupCode);
      if key in entries && !(now - lastUpdate > CacheUpdateInterval) && now - entries[key].timestamp < ScheduleTTL {
        return Ok(entries[key].data);
      }
      match download
      case Failed(message) =>
        if key in entries {
          return Ok(entries[key].data);
        }
        return Err(message);
      case Loaded(bodyText, tables) =>
        var cw := CurrentWeek(bodyText);
        var main := MainTableIndex(tables);
        if main.None? {
          return Ok(Schedule([], cw));
        }
        var schedule := AssembleDays(tables[main.value].rows, cw);
        var res := Schedule(schedule, cw);
        entries := entries[key := CacheEntry(res, now)];
        lastUpdate := now;
        return Ok(res);
    }

    /** `clearCache`: drops the group's entry, or every entry without a group, and resets the marker. */
    method ClearCache(groupId: string)
      modifies this
      ensures groupId != "" ==> entries == old(entries) - {groupId}
      ensures groupId == "" ==> entries == map[]
      ensures lastUpdate == 0
    {
      if groupId != "" {
        entries := entries - {groupId};
      } else {
        entries := map[];
      }
      lastUpdate := 0;
    }
  }

  // ---------------------------------------------------------------- getScheduleForDay, getWeeklySchedule

  /** The names `Date.getDay()` indexes, Sunday first. */
  const WeekDayNames: seq<string> := ["Воскресенье", "Понедельник", "Вторник", "Среда", "Четверг", "Пятница", "Суббота"]

  /** The first day whose lower-cased name contains `name`, lower-cased. */
  function FirstDayContaining(schedule: seq<Day>, name: string): (r: Option<nat>)
    ensures r.Some? ==> r.value < |schedule| && Contains(Lower(schedule[r.value].dayName), Lower(name))
    ensures forall k :: 0 <= k < (if r.Some? then r.value else |schedule|) ==> !Contains(Lower(schedule[k].dayName), Lower(name))
  {
    if schedule == [] then None
    else if Contains(Lower(schedule[0].dayName), Lower(name)) then Some(0)
    else match FirstDayContaining(schedule[1..], name)
      case None => None
      case Some(i) => Some(i + 1)
  }

  /** The first day named exactly `name`. */
  function FirstDayNamed(schedule: seq<Day>, name: string): (r: Option<nat>)
    ensures r.Some? ==> r.value < |schedule| && schedule[r.value].dayName == name
    ensures forall k :: 0 <= k < (if r.Some? then r.value else |schedule|) ==> schedule[k].dayName != name
  {
    if schedule == [] then None
    else if schedule[0].dayName == name then Some(0)
    else match FirstDayNamed(schedule[1..], name)
      case None => None
      case Some(i) => Some(i + 1)
  }

  /**
   * `getScheduleForDay` with `today` the day of the week (0 for Sunday) and
   * `date` the locale date: the first day whose name contains today's, marked
   * today, or an empty day of today's name and date.
   */
  function ScheduleForDay(schedule: seq<Day>, today: nat, date: string): (r: Day)
    requires today < 7
    ensures r.isToday
    ensures FirstDayContaining(schedule, WeekDayNames[today]).None? ==>
              r == Day(WeekDayNames[today], date, true, [])
    ensures FirstDayContaining(schedule, WeekDayNames[today]).Some? ==>
              var k := FirstDayContaining(schedule, WeekDayNames[today]).value;
              r.dayName == schedule[k].dayName && r.date == schedule[k].date && r.lessons == schedule[k].lessons
  {
    match FirstDayContaining(schedule, WeekDayNames[today])
    case None => Day(WeekDayNames[today], date, true, [])
    case Some(k) => schedule[k].(isToday := true)
  }

  /** One day of the week view: the first day of that name, or an empty one; today when the names agree. */
  function WeekDay(schedule: seq<Day>, name: string, todayName: string): Day {
    match FirstDayNamed(schedule, name)
    case None => Day(name, "", name == todayName, [])
    case Some(k) => Day(name, schedule[k].date, name == todayName, schedule[k].lessons)
  }

  /**
   * `getWeeklySchedule`: always the six days Monday to Saturday in that order,
   * each with the date and entries of the first day of its name or none, and
   * marked today exactly on today's day of the week.
   */
  function WeeklySchedule(schedule: seq<Day>, today: nat): (r: seq<Day>)
    requires today < 7
    ensures |r| == 6
    ensures forall i :: 0 <= i < 6 ==> r[i].dayName == DayNames[i]
    ensures forall i :: 0 <= i < 6 ==> (r[i].isToday <==> today == i + 1)
    ensures forall i :: 0 <= i < 6 && FirstDayNamed(schedule, DayNames[i]).None? ==>
              r[i].date == "" && r[i].lessons == []
    ensures forall i :: 0 <= i < 6 && FirstDayNamed(schedule, DayNames[i]).Some? ==>
              r[i].date == schedule[FirstDayNamed(schedule, DayNames[i]).value].date
              && r[i].lessons == schedule[FirstDayNamed(schedule, DayNames[i]).value].lessons
  {
    DayNamesAligned();
    seq(6, i requires 0 <= i < 6 => WeekDay(schedule, DayNames[i], WeekDayNames[today]))
  }

  /** The week view's names are those of `getDay` from Monday on, all distinct. */
  lemma DayNamesAligned()
    ensures forall i, j :: 0 <= i < 6 && 0 <= j < 7 ==> (DayNames[i] == WeekDayNames[j] <==> j == i + 1)
  {
  }

  /** In the week view of a scanned timetable, a day has entries exactly when the timetable has a day of that name. */
  lemma {:induction false} WeekViewOfScan(rows: seq<Row>, cw: nat, today: nat, i: nat)
    requires today < 7 && i < 6
    ensures WeeklySchedule(Days(rows, cw), today)[i].lessons != [] <==> FirstDayNamed(Days(rows, cw), DayNames[i]).Some?
  {
    DaysAreFilled(rows, cw);
  }

  /** The day view of a scanned timetable is empty exactly when no scanned day has today's name. */
  lemma {:induction false} DayViewOfScan(rows: seq<Row>, cw: nat, today: nat, date: string)
    requires today < 7
    ensures ScheduleForDay(Days(rows, cw), today, date).lessons == [] <==> FirstDayContaining(Days(rows, cw), WeekDayNames[today]).None?
  {
    DaysAreFilled(rows, cw);
  }
}
