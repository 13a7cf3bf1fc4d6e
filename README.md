# MaBoy timetable engine and companions, modelled in Dafny

This project models the logic at the heart of the MaBoy repository.

The centre is the ScheduleBot timetable engine (`ScheduleBot/src/parsers/schedule.js`). It does the following:
- reads the free-text week lists and lesson-kind annotations written in timetable cells;
- splits a cell into lessons and merges "orphan" fragments;
- picks, for each slot, the single lesson nearest to the current week;
- assembles days from table rows behind a two-timer cache.

Around it sit the small, sequential parts of the other programs in the repository:
- the rest of ScheduleBot: group names, bot helpers, message formatting and the user table;
- the TasksManager quick-command parser, task store and drag-and-drop reorder;
- the AHKOrganizer script instrumentation;
- the WarframeShit collection operations.

HTML and the network are not modelled. A timetable cell arrives as its fragments, already reduced to text:
- the fragment text;
- the teacher links, each a name plus the text node before it;
- the room-link text.

A table row arrives as a record: first-cell text, `bgcolor`, `colspan` and the cell payloads. The clock is a parameter. Regular expressions are hand-written scanners over `seq<char>`. Each scanner follows the leftmost-match, ordered-alternative behaviour of the JavaScript engine for the pattern it replaces.

Modules:
- `Wrappers`: Option and Result.
- `Text`: JavaScript string semantics used throughout: whitespace, `trim`, `toLowerCase` on Latin and basic Cyrillic, `split`, `join`, `includes`, `parseInt` and number printing.
- `Sorting`: set minimum and maximum, and the ascending listing of a set of integers.
- `WeekSets`: `parseWeeksToSet` and `normalizeWeeks`.
- `LessonKinds`: `parseType`, `formatDetailedWeeks` and `parseTypesAndWeeks`.
- `LessonText`: the text scanners of `parseLessonFromCell`: titles, rooms, fallback weeks, and subject clean-up.
- `LessonCells`: `parseLessonFromCell` at text level.
- `LessonVariants`: `getLessonDistance`, `resolveLessonDetails` and `selectLessons`.
- `ScheduleRows`: `extractCurrentWeek` and the row scan of `fetchSchedule`.
- `ScheduleFetch`: the schedule cache (`fetchSchedule`, `clearCache`), `getScheduleForDay` and `getWeeklySchedule`.
- `Bot`: `getMainKeyboard`, the typed notification time, the paging of `showGroupSelection`, and `splitMessage`.
- `Formatter`: `formatLesson`, `formatDay`, `formatWeekHeader`, `formatSchedule`, `formatToday` and `formatError`, each stated by the lines it joins.
- `Storage`: the user table of `storage.js` as a class over a map, with its keys in insertion order.
- `Groups`: `parseGroupName`, the group list and its cache (`fetchGroups`), `searchGroups`, `findGroupById` and `findGroupByCode`.
- `TaskParser`: `Parser.parseCommand` of TasksManager, with the three global tag patterns scanned as the engine does.
- `TaskServer`: the TasksManager data server: `readData` and every handler that changes categories, tasks and settings, as a class over the contents of the data file.
- `TaskBoard`: the TasksManager client's drop handler (category and task reorder) and its status toggle.
- `AhkScripts`: the AHKOrganizer script server: `detectAhkVersion`, `instrumentScript` under its current and older rules, the older version label and the choice of the interpreter.
- `CollectionData`: the WarframeShit collection: items, categories and the object of categories as a list of entries in key insertion order, with lookup, object-spread update and `filter`.
- `CollectionStore`: the data operations of the WarframeShit React context (`src/context/AppContext.jsx`): `loadData` and its migration, `updateGlobalStatus`, the filters of `getFilteredItems`, the statistics, `toggleCategoryVisibility`, `handleMoveCategory`, `handleSaveItem`, the progress-group handlers, `addBulkItems` and `resolveBulkDuplicates`.
- `CollectionPage`: the same operations in the older single-file page (`app.js`): its `updateGlobalStatus`, which reaches every item of a name, the migration with subcategory lists, `handleAddSubcategory`, `handleDeleteSubcategory`, the subcategory grouping of a category section, `handleDelete` and the state class of an item card.

## Model

| member | source | states |
|---|---|---|
| Text.Trim | ScheduleBot/src/parsers/schedule.js:222 | `trim()`: the result has no whitespace at either end and is the input with only white space removed before and after it, so no interior character is dropped; it is empty only when the input is all whitespace |
| Text.TrimUnique | ScheduleBot/src/parsers/schedule.js:222 | any text without white space at its ends that the input holds between two runs of white space is the trimmed input, so these properties determine `trim()` |
| Text.Utf16Length | ScheduleBot/src/bot.js:476 | `.length` counts UTF-16 code units: one per character below U+10000 and two above, so it lies between the number of characters and twice that |
| Text.Utf16LengthAppend | ScheduleBot/src/bot.js:476 | the `.length` of a concatenation is the sum of the lengths |
| Text.ParseIntNatToString | ScheduleBot/src/parsers/schedule.js:64-65 | `parseInt` reads back every printed natural number |
| Sorting.SetMin | ScheduleBot/src/parsers/schedule.js:379 | `Math.min(...set)` is an element of the set and below every element |
| Sorting.SetMax | ScheduleBot/src/parsers/schedule.js:379 | `Math.max(...set)` is an element of the set and above every element |
| Sorting.SortBy | WarframeShit/src/context/AppContext.jsx:300 | `sort((a, b) => (a.order \|\| 0) - (b.order \|\| 0))` orders the categories by their key and keeps the same elements |
| Sorting.SortByStable | WarframeShit/src/context/AppContext.jsx:300 | the sort is stable: the elements that share a key keep their relative order |
| Sorting.Ascending | ScheduleBot/src/parsers/schedule.js:88 | the numeric sort of a set's elements is strictly increasing and lists exactly the set |
| WeekSets.Interval | ScheduleBot/src/parsers/schedule.js:66-68 | the range loop adds exactly the weeks a..b, nothing when a > b |
| WeekSets.WeeksOf | ScheduleBot/src/parsers/schedule.js:52-78 | `parseWeeksToSet` yields only non-negative weeks; absent or empty input gives the empty set |
| WeekSets.ParseWeeksToSet | ScheduleBot/src/parsers/schedule.js:52-78 | the loop over comma tokens computes exactly `WeeksOf` |
| WeekSets.AddToken | ScheduleBot/src/parsers/schedule.js:59-76 | one token adds its range, else its first number, else nothing |
| WeekSets.RangeToken | ScheduleBot/src/parsers/schedule.js:62-68 | a token "a-b" (either dash) contributes exactly a..b |
| WeekSets.NumberToken | ScheduleBot/src/parsers/schedule.js:70-74 | a token with digits and no dash contributes its first number |
| WeekSets.WeeksExample | ScheduleBot/src/parsers/schedule.js:52-78 | "23-25,27" gives {23, 24, 25, 27} |
| WeekSets.NormalizeWeeks | ScheduleBot/src/parsers/schedule.js:85-109 | `normalizeWeeks` is "" exactly for the empty set |
| WeekSets.NormalizeWeeksShape | ScheduleBot/src/parsers/schedule.js:93-108 | more than three weeks print as "min–max нед."; at most two print as the sorted comma list plus " нед." |
| WeekSets.NormalizeWeeksEnds | ScheduleBot/src/parsers/schedule.js:85-109 | the printed text starts with the minimum and ends with the maximum followed by " нед." |
| WeekSets.NormalizeWeeksRoundTrip | ScheduleBot/src/parsers/schedule.js:85-109 | reading the printed weeks back keeps minimum and maximum, and gives the set itself unless a gapped run was printed as a span |
| WeekSets.RoundTripList | ScheduleBot/src/parsers/schedule.js:107-108 | a set printed as a list reads back as itself |
| WeekSets.RoundTripSpan | ScheduleBot/src/parsers/schedule.js:93-104 | a set printed as a span reads back as the whole interval, which is the set for a step-1 run |
| WeekSets.StepOneRunIsInterval | ScheduleBot/src/parsers/schedule.js:93-96 | a sorted step-1 run holds exactly the weeks between its ends |
| LessonKinds.ParseType | ScheduleBot/src/parsers/schedule.js:34-45 | `parseType` is "" exactly for "", and otherwise one of the six kind names or the code unchanged |
| LessonKinds.ParseTypeOfCode | ScheduleBot/src/parsers/schedule.js:34-45 | each abbreviation the patterns capture, in any letter case, maps to its own kind |
| LessonKinds.FormatDetailedWeeks | ScheduleBot/src/parsers/schedule.js:115-121 | `formatDetailedWeeks` is "" exactly when there are no annotations |
| LessonKinds.FormatDetailedWeeksCons | ScheduleBot/src/parsers/schedule.js:117-120 | annotations are printed in order, separated by one space |
| LessonKinds.FormatLectureDetail | ScheduleBot/src/parsers/schedule.js:118-119 | a lecture is printed as "л.: " followed by its normalised weeks |
| LessonKinds.ParenGroupsFrom | ScheduleBot/src/parsers/schedule.js:133 | every parenthesised group is non-empty and holds no ')' |
| LessonKinds.ParenGroupsOfWrapped | ScheduleBot/src/parsers/schedule.js:133 | a text "(g)" has exactly the one group g |
| LessonKinds.KindMatchesFrom | ScheduleBot/src/parsers/schedule.js:139-152 | every typed match captures one of the seven abbreviations |
| LessonKinds.TypedAtAny | ScheduleBot/src/parsers/schedule.js:139 | a typed match ends after it starts and captures a non-empty weeks text |
| LessonKinds.SingleMatch | ScheduleBot/src/parsers/schedule.js:157-163 | the single-kind fallback captures an abbreviation and a trimmed weeks text |
| LessonKinds.ParseTypesAndWeeks | ScheduleBot/src/parsers/schedule.js:127-180 | the parser as written, whose single-kind fallback tries "л" before "лаб": every annotation names one of the six kinds and holds only non-negative weeks |
| LessonKinds.TypedGroup | ScheduleBot/src/parsers/schedule.js:130-150 | a group "(k:w нед)" with any of the seven abbreviations `k` and a weeks text `w` is read as the one annotation of the kind of `k`, with the weeks of `w` and the trimmed `w` |
| LessonKinds.IntendedTypesAndWeeks | ScheduleBot/src/parsers/schedule.js:127-180 | the intended parse, with "лаб" tried before "л": every annotation names one of the six kinds and holds only non-negative weeks |
| LessonKinds.NoParenNoKinds | ScheduleBot/src/parsers/schedule.js:133 | a text without '(' has no annotations |
| LessonKinds.NoColonNoKindMatches | ScheduleBot/src/parsers/schedule.js:139 | a group without ':' has no typed match, so the single-kind fallback runs |
| LessonKinds.WrappedSingle | ScheduleBot/src/parsers/schedule.js:156-177 | a group without ':' whose start names a kind gives exactly one annotation |
| LessonKinds.SingleCodesPickWrittenCode | ScheduleBot/src/parsers/schedule.js:157 | with "лаб" tried before "л", the fallback captures the abbreviation actually written |
| LessonKinds.LabReadAsLectureAsWritten | ScheduleBot/src/parsers/schedule.js:157 | with the alternatives in written order, "(лаб.)" is annotated as a lecture |
| LessonKinds.LabReadAsLab | ScheduleBot/src/parsers/schedule.js:157 | with "лаб" tried first, "(лаб.)" is annotated as a laboratory work |
| LessonText.LastTitle | ScheduleBot/src/parsers/schedule.js:239-241 | the title is "" exactly when the text before the link holds no title |
| LessonText.FullTeacher | ScheduleBot/src/parsers/schedule.js:243 | the teacher shown is the name alone without a title, else starts with the title and ends with the name |
| LessonText.Room | ScheduleBot/src/parsers/schedule.js:250-256 | the room is the trimmed link text when there is one, else "а. " plus the first room number in the text, else "" |
| LessonText.FirstWeeksListFrom | ScheduleBot/src/parsers/schedule.js:265-266 | the fallback week list starts and ends with a digit and holds only digits, dashes, commas and spaces |
| LessonText.RemoveAllIgnoringCase | ScheduleBot/src/parsers/schedule.js:276-280 | removing a teacher node only deletes characters, and changes nothing when the node does not occur |
| LessonText.RemoveFirst | ScheduleBot/src/parsers/schedule.js:284 | removing the room deletes its first occurrence only, or nothing |
| LessonText.RemoveParenGroupsFrom | ScheduleBot/src/parsers/schedule.js:290 | after removing parenthesised groups no '(' is followed by a ')' |
| LessonText.RemoveStars | ScheduleBot/src/parsers/schedule.js:293 | no '*' is left, and a text without '*' is unchanged |
| LessonText.CollapseSpaces | ScheduleBot/src/parsers/schedule.js:294 | every whitespace run becomes one space and no other character changes |
| LessonText.StripEdgeJunk | ScheduleBot/src/parsers/schedule.js:295 | the result is an infix of the input and neither starts nor ends with whitespace, ',', ';', '.' or '-' |
| LessonText.CleanSubject | ScheduleBot/src/parsers/schedule.js:273-296 | the subject has no '*', single spaces only, and clean ends |
| LessonText.TidySubject | ScheduleBot/src/parsers/schedule.js:349 | the final tidy leaves single spaces only and no whitespace at either end |
| LessonCells.ParseFragment | ScheduleBot/src/parsers/schedule.js:220-309 | a fragment is skipped exactly when its trimmed text is empty, "-", "—" or shorter than 5 UTF-16 code units; otherwise its weeks text is the normalised fallback weeks, fallback weeks exist only without annotations, and the subject is clean; the annotations come from the parser as written |
| LessonCells.ParseFragments | ScheduleBot/src/parsers/schedule.js:220-310 | the fragment loop keeps exactly the non-skipped fragments, in order |
| LessonCells.MergeOrphans | ScheduleBot/src/parsers/schedule.js:313-344 | the merge loop, which rewrites the next lesson in place, computes `MergeFrom` |
| LessonCells.MergeKeepsScheduled | ScheduleBot/src/parsers/schedule.js:313-344 | merging keeps, in order, exactly the week data of every lesson that has weeks or annotations |
| LessonCells.AllOrphansKeepOne | ScheduleBot/src/parsers/schedule.js:313-344 | when every fragment is an orphan, exactly one lesson is left |
| LessonCells.OrphanJoinsNext | ScheduleBot/src/parsers/schedule.js:319-327 | an orphan is prepended to the next lesson's subject and lends its teacher if the next has none |
| LessonCells.OrphanJoinsPrevious | ScheduleBot/src/parsers/schedule.js:330-335 | a last orphan is appended to the previous lesson's subject |
| LessonCells.LoneOrphanKept | ScheduleBot/src/parsers/schedule.js:342 | an orphan with no neighbour is kept, not dropped |
| LessonCells.TidyLessons | ScheduleBot/src/parsers/schedule.js:347-353 | the tidy loop replaces every subject by its tidied form and changes nothing else |
| LessonCells.KeepNamed | ScheduleBot/src/parsers/schedule.js:355 | every kept subject is at least two UTF-16 code units long |
| LessonCells.KeepNamedLessons | ScheduleBot/src/parsers/schedule.js:355 | the filter keeps exactly the lessons whose subject is two UTF-16 code units long or more, in order |
| LessonCells.ParseLessonFromCell | ScheduleBot/src/parsers/schedule.js:214-356 | the cell's lessons are its parsed, merged, tidied and filtered fragments, and every subject is at least two UTF-16 code units long |
| LessonVariants.DistanceTo | ScheduleBot/src/parsers/schedule.js:196-206 | the distance is infinite exactly for no weeks, 0 exactly when the week is held, else the least gap to a week |
| LessonVariants.KindsWeeks | ScheduleBot/src/parsers/schedule.js:190-193 | the combined set holds exactly the weeks of some annotation |
| LessonVariants.Distance | ScheduleBot/src/parsers/schedule.js:186-207 | `getLessonDistance` is infinite for no lesson or no weeks, and 0 exactly when the current week is among the fallback or annotated weeks |
| LessonVariants.LessonDistance | ScheduleBot/src/parsers/schedule.js:186-207 | the scan over the weeks, keeping the strictly smaller gap, computes `Distance` |
| LessonVariants.DistanceToAdd | ScheduleBot/src/parsers/schedule.js:201-205 | one more week changes the least gap only when it is strictly nearer |
| LessonVariants.WeekRange | ScheduleBot/src/parsers/schedule.js:379 | the week range is [] for no weeks, else [min, max] of the weeks |
| LessonVariants.Distinct | ScheduleBot/src/parsers/schedule.js:374 | the distinct kinds hold each kind once, in order of first appearance |
| LessonVariants.FirstHolding | ScheduleBot/src/parsers/schedule.js:388 | `find` gives the first annotation holding the week, or none when none holds it |
| LessonVariants.ResolveLessonDetails | ScheduleBot/src/parsers/schedule.js:361-412 | the resolved weeks are the annotated weeks when there are annotations, else the fallback weeks; the range is their [min, max]; without annotations the kind is ""; nothing else changes |
| LessonVariants.HoldingKindShown | ScheduleBot/src/parsers/schedule.js:386-390 | for a week other than 0, the kind shown is the first annotation holding it |
| LessonVariants.NearestKindFromSpec | ScheduleBot/src/parsers/schedule.js:392-402 | the nearest-week scan picks the first annotation at least distance, and keeps "" when no annotation has weeks |
| LessonVariants.NearestKindShown | ScheduleBot/src/parsers/schedule.js:384-402 | when no annotation holds the week, the kind shown is the first nearest one, or "" when none has weeks |
| LessonVariants.AllKindsAtZero | ScheduleBot/src/parsers/schedule.js:373-381 | at week 0 the kind lists the distinct kinds joined by ", ", starting with the first |
| LessonVariants.ResolveTwice | ScheduleBot/src/parsers/schedule.js:430-461 | resolving a resolved lesson again keeps its weeks and range, and its distance is the distance to its resolved weeks |
| LessonVariants.SelectLessons | ScheduleBot/src/parsers/schedule.js:418-464 | no lesson exactly when there is no candidate; otherwise one lesson, the first candidate of least distance, even when every distance is infinite |
| LessonVariants.NearestCandidate | ScheduleBot/src/parsers/schedule.js:438-449 | the stable sort by distance puts first the earliest candidate of least distance |
| LessonVariants.FirstNearestStep | ScheduleBot/src/parsers/schedule.js:438-449 | a later candidate replaces the best only when strictly nearer |
| LessonVariants.ActiveCandidateWins | ScheduleBot/src/parsers/schedule.js:438-449 | a candidate held in the current week is chosen over every candidate that is not |
| LessonVariants.FirstNearestUnique | ScheduleBot/src/parsers/schedule.js:438-449 | the first candidate of least distance is unique, so the scan and the functional selection agree |
| LessonVariants.FirstNearest | ScheduleBot/src/parsers/schedule.js:438-449 | the head of the stable sort is a first position of least distance |
| ScheduleRows.WeekDigitsAt | ScheduleBot/src/parsers/schedule.js:471-475 | the header pattern at a position: the words in any letter case, white-space gaps, an optional "номер", and the whole run of digits that follows |
| ScheduleRows.FirstWeekMatch | ScheduleBot/src/parsers/schedule.js:473 | the leftmost position where the header pattern matches, and no match before it |
| ScheduleRows.CurrentWeek | ScheduleBot/src/parsers/schedule.js:471-475 | `extractCurrentWeek` is 0 when the page has no week header |
| ScheduleRows.HeaderWeek | ScheduleBot/src/parsers/schedule.js:471-475 | a header "текущая неделя N", in any letter case, reads back the number N |
| ScheduleRows.NumberedHeaderWeek | ScheduleBot/src/parsers/schedule.js:471-475 | so does "текущая неделя номер N" |
| ScheduleRows.CurrentWeekOfHeader | ScheduleBot/src/parsers/schedule.js:471-475 | a page starting "Текущая неделя N" is in week N |
| ScheduleRows.CurrentWeekWithoutHeader | ScheduleBot/src/parsers/schedule.js:471-475 | a page without the word "текущая" is in week 0 |
| ScheduleRows.DayIn | ScheduleBot/src/parsers/schedule.js:522-523 | a row names a day when its first cell contains one of the six day names, the first one found |
| ScheduleRows.SlotEntries | ScheduleBot/src/parsers/schedule.js:531-571 | every slot row gives exactly one entry |
| ScheduleRows.SlotEntryParity | ScheduleBot/src/parsers/schedule.js:536-571 | the slot is empty exactly when the column of the current parity has no lesson, and otherwise holds that column's selection with the slot's time |
| ScheduleRows.NumeratorWeekIgnoresDenominator | ScheduleBot/src/parsers/schedule.js:536-552 | in week 0 and odd weeks the denominator cell is never read |
| ScheduleRows.SpanningCellServesBoth | ScheduleBot/src/parsers/schedule.js:540-546 | a cell with colspan 2 decides the slot alone in every week |
| ScheduleRows.DenominatorWeekIgnoresNumerator | ScheduleBot/src/parsers/schedule.js:536-552 | in even weeks the numerator cell's lessons are not read |
| ScheduleRows.ScanAppend | ScheduleBot/src/parsers/schedule.js:517-615 | the row scan of two pieces is the scan of the first, continued on the second |
| ScheduleRows.StepCounts | ScheduleBot/src/parsers/schedule.js:517-615 | one row opens a day exactly when it is a day row, and adds an entry exactly when it is a day row or a row of at least two cells after a day row |
| ScheduleRows.ScanCounts | ScheduleBot/src/parsers/schedule.js:517-615 | the scan gathers one day per day row and one entry per counted row, every day with an entry |
| ScheduleRows.DaysAreFilled | ScheduleBot/src/parsers/schedule.js:526 | every emitted day has at least one entry, and there is one day per day row (also line 617) |
| ScheduleRows.OneEntryPerSlotRow | ScheduleBot/src/parsers/schedule.js:517-617 | the days hold one entry per day row and per slot row of two cells or more once a day is open |
| ScheduleRows.RowsBeforeFirstDayIgnored | ScheduleBot/src/parsers/schedule.js:573 | rows before the first day row change nothing |
| ScheduleRows.SlotLessons | ScheduleBot/src/parsers/schedule.js:531-571 | parsing both cells and selecting by the current week computes the slot's entries |
| ScheduleRows.AssembleDays | ScheduleBot/src/parsers/schedule.js:515-617 | the row loop computes `Days`, the scan specified row by row |
| ScheduleFetch.MainTableIndex | ScheduleBot/src/parsers/schedule.js:504-511 | the timetable is the first table whose first row names "Числитель" or "Знаменатель" |
| ScheduleFetch.PageSchedule | ScheduleBot/src/parsers/schedule.js:498-619 | a page without a timetable gives no day; otherwise the days of the timetable's rows, for the page's week |
| ScheduleFetch.CacheKey | ScheduleBot/src/parsers/schedule.js:478 | the key is the group id, or the group code without one |
| ScheduleFetch.Stored | ScheduleBot/src/parsers/schedule.js:513 | only a page with a timetable is stored, under the key, with the fetch time (also line 621) |
| ScheduleFetch.ScheduleCache.Fetch | ScheduleBot/src/parsers/schedule.js:477-631 | a served entry is returned unchanged; otherwise a page is read and, with a timetable, stored and the marker set to now; an error returns the entry however old, or fails |
| ScheduleFetch.ScheduleCache.ClearCache | ScheduleBot/src/parsers/schedule.js:665-670 | the group's entry, or every entry without a group, is dropped and the marker reset to 0 |
| ScheduleFetch.ServedAfterStore | ScheduleBot/src/parsers/schedule.js:480-483 | a stored schedule is served for the next 30 minutes (also lines 621-622) |
| ScheduleFetch.NotServedAfterTTL | ScheduleBot/src/parsers/schedule.js:483 | an entry 30 minutes old or older is not served |
| ScheduleFetch.NothingServedAfterReset | ScheduleBot/src/parsers/schedule.js:480 | after `clearCache` resets the marker, no entry is served (also line 668) |
| ScheduleFetch.ScheduleForDay | ScheduleBot/src/parsers/schedule.js:633-646 | the day view is marked today; it is the first day whose name contains today's, or an empty day of today's name and date |
| ScheduleFetch.WeeklySchedule | ScheduleBot/src/parsers/schedule.js:648-663 | always the six days Monday to Saturday in order, each with the date and entries of the first day of its name or "" and none, today exactly on today's weekday |
| ScheduleFetch.DayNamesAligned | ScheduleBot/src/parsers/schedule.js:635 | the week view's names are those of `getDay` from Monday on (also lines 650-651) |
| ScheduleFetch.WeekViewOfScan | ScheduleBot/src/parsers/schedule.js:617 | over a scanned timetable, a day of the week view has entries exactly when the timetable has that day (also lines 654-659) |
| ScheduleFetch.DayViewOfScan | ScheduleBot/src/parsers/schedule.js:617 | over a scanned timetable, the day view is empty exactly when no day has today's name (also lines 638-645) |
| Groups.ParseGroupName | ScheduleBot/src/parsers/groups.js:31-44 | "code (short)" gives a non-empty code of digits and dots and a short name without `)`, both trimmed; other text gives its trimmed self as both |
| Groups.ParseGroupNameOf | ScheduleBot/src/parsers/groups.js:31-38 | a code of digits and dots followed by " (short)" parses back to that code and the trimmed short name |
| Groups.ParseGroupNameFallback | ScheduleBot/src/parsers/groups.js:32 | text that does not start with a digit or a dot is its own trimmed code and short name (also lines 40-43) |
| Groups.FirstId | ScheduleBot/src/parsers/groups.js:86-87 | the id is the leftmost run of digits after "id="; none when no position matches |
| Groups.GroupOfLink | ScheduleBot/src/parsers/groups.js:73-98 | a link gives a group exactly when it has an `href`, a non-blank text without "практика" in any case, and an id; the group keeps the trimmed text as full name, the id and the absolute URL |
| Groups.GroupsOf | ScheduleBot/src/parsers/groups.js:71-98 | every listed group has a digit id and a non-empty full name without "практика", and there are no more groups than links |
| Groups.GroupsOfSnoc | ScheduleBot/src/parsers/groups.js:73-98 | one more link adds its group at the end exactly when it gives one |
| Groups.CollectGroups | ScheduleBot/src/parsers/groups.js:71-98 | the loop over the links returns exactly the groups of the links, in order |
| Groups.GroupsCache.Fetch | ScheduleBot/src/parsers/groups.js:51-116 | a list younger than 24 hours is returned unchanged; otherwise the page's groups are stored with the time; on an error the cached list is returned however old, or the error |
| Groups.Matching | ScheduleBot/src/parsers/groups.js:128-132 | a group is in the result exactly when it is in the list and its code, short name or full name, lower-cased, contains the query |
| Groups.SearchGroups | ScheduleBot/src/parsers/groups.js:124-133 | membership as above, for the lower-cased and trimmed query |
| Groups.MatchingAppend | ScheduleBot/src/parsers/groups.js:128-132 | the filter keeps list order: filtering a concatenation is concatenating the filtered parts |
| Groups.BlankQueryMatchesAll | ScheduleBot/src/parsers/groups.js:126-132 | a blank query returns the whole list |
| Groups.FindGroupById | ScheduleBot/src/parsers/groups.js:140-143 | the first group with that id, or none when no group has it |
| Groups.FindGroupByCode | ScheduleBot/src/parsers/groups.js:150-153 | the first group with that code, or none when no group has it |
| Bot.MainKeyboard | ScheduleBot/src/bot.js:28-56 | help is always the last row; Today, Week and the group change exactly with a group, group selection exactly without one, the subscribe or unsubscribe toggle by the subscription, and the time row exactly when subscribed with a group |
| Bot.TimeMatch | ScheduleBot/src/bot.js:264 | a match is "H:MM" or "HH:MM" and reads an hour and a minute below 100 |
| Bot.NormalizeTime | ScheduleBot/src/bot.js:264-281 | a time is stored exactly for a subscribed user, a match, an hour below 24 and a minute below 60; the stored form has five characters and reads back as the same hour and minute |
| Bot.ClockReadsBack | ScheduleBot/src/bot.js:274 | the zero-padded "HH:MM" reads back as its hour and minute |
| Bot.NormalizeTimeIdempotent | ScheduleBot/src/bot.js:264-275 | a stored time, typed again, is stored unchanged |
| Bot.OneDigitHourPadded | ScheduleBot/src/bot.js:274 | any valid time with a one-digit hour, such as "7:05", is stored with a leading zero, as "07:05" |
| Bot.Slice | ScheduleBot/src/bot.js:426 | `slice` within bounds is the subsequence, and never longer than the list |
| Bot.GroupPage | ScheduleBot/src/bot.js:417-443 | `ceil(n / 8)` pages; the page is clamped to the last; it holds the groups from page·8 up to the next page or the end; a back button exactly when the page is not the first, a forward button exactly when it is not the last, each aimed at the neighbouring page; an empty list has no items and no buttons |
| Bot.GroupOnItsPage | ScheduleBot/src/bot.js:421-426 | group k is shown on page k / 8 at place k % 8 |
| Bot.PageClamped | ScheduleBot/src/bot.js:422 | a page past the end shows the last page |
| Bot.SplitMessage | ScheduleBot/src/bot.js:469-489 | the loop returns the parts of the specification `MessageParts`, measuring lengths in UTF-16 code units as `.length` does |
| Bot.MessageParts | ScheduleBot/src/bot.js:469-489 | every part is trimmed; the cuts are made by UTF-16 code units as `.length` counts, and the bound they give is stated by Bot.PartsWithinLimit |
| Bot.CutShape | ScheduleBot/src/bot.js:475-481 | the loop starts a part only from a non-empty one, and every part stays within the limit, in UTF-16 code units, unless it is a single line |
| Bot.CutText | ScheduleBot/src/bot.js:474-481 | the parts and the last part hold the text of all lines, in order |
| Bot.CutTextStep | ScheduleBot/src/bot.js:476-481 | each line adds its text after what is already held |
| Bot.PartsWithinLimit | ScheduleBot/src/bot.js:470 | every part is within `maxLength - 100` UTF-16 code units unless it is a single oversized line (also lines 476-478) |
| Bot.LinesKeptInOrder | ScheduleBot/src/bot.js:474-486 | line breaks aside, the parts hold exactly the message's text, in order |
| Bot.Replies | ScheduleBot/src/bot.js:391-400 | a message longer than `maxLength` code units is sent in trimmed parts, each within the limit unless it is a single line; a shorter one is sent whole |
| Bot.BlankPartEmitted | ScheduleBot/src/bot.js:476-478 | a blank line followed by a line that does not fit is sent as an empty part |
| Bot.IntendedParts | ScheduleBot/src/bot.js:484-486 | the corrected split keeps the same parts in order but never an empty one |
| Formatter.SubjectLine | ScheduleBot/src/utils/formatter.js:28-31 | the subject line carries the lesson kind in parentheses exactly when there is one |
| Formatter.EntryLines | ScheduleBot/src/utils/formatter.js:15-50 | a free slot gives its time line and "no lessons"; a lesson gives the time, subject, teacher, room and weeks lines in that order, each but the subject present exactly when its field is non-empty |
| Formatter.FormatLessonLines | ScheduleBot/src/utils/formatter.js:15-50 | the message of a lesson whose fields hold no line break splits back into exactly those lines |
| Formatter.EntryLineSingle | ScheduleBot/src/utils/formatter.js:17-46 | no line of a lesson holds a line break unless a field does |
| Formatter.FreeSlotTwoLines | ScheduleBot/src/utils/formatter.js:16-18 | a free slot is shown as exactly two lines |
| Formatter.NameAndDate | ScheduleBot/src/utils/formatter.js:61-64 | the date follows the day name in parentheses only when there is one (also lines 158-161) |
| Formatter.DayHeader | ScheduleBot/src/utils/formatter.js:61-67 | the header is marked with the pin and "— СЕГОДНЯ" exactly for today |
| Formatter.SeparatedLayout | ScheduleBot/src/utils/formatter.js:75-80 | lesson k is at line 2k, with one blank line between neighbours and none around (also lines 166-171) |
| Formatter.DayLines | ScheduleBot/src/utils/formatter.js:57-84 | the bold header, the 25-character rule, then the placeholder for a day without lessons or the separated lessons |
| Formatter.WeekHeader | ScheduleBot/src/utils/formatter.js:91-96 | empty exactly when the week is not positive, otherwise ending with the week number |
| Formatter.Heading | ScheduleBot/src/utils/formatter.js:108-116 | the title, the group line, then the week header only when it is not empty (also lines 140-148) |
| Formatter.WeekHeaderShown | ScheduleBot/src/utils/formatter.js:113-116 | the week header is among the heading lines exactly when the week is positive (also lines 145-148) |
| Formatter.Days | ScheduleBot/src/utils/formatter.js:122-124 | one day block per day, in order |
| Formatter.ScheduleLines | ScheduleBot/src/utils/formatter.js:105-128 | the heading, then "not found" for an absent or empty schedule, or exactly one day block per day in order |
| Formatter.TodayBody | ScheduleBot/src/utils/formatter.js:151-172 | for no day or no lessons, the day's name or else today's weekday name, the rule and "no lessons today"; otherwise name and date, the rule and the separated lessons (also lines 181-184) |
| Formatter.TodayLines | ScheduleBot/src/utils/formatter.js:137-175 | the heading, a blank line, then the day part |
| Formatter.FormatError | ScheduleBot/src/utils/formatter.js:252-255 | the error title, then the given message, or the default one when it is absent or empty |
| Storage.Merge | ScheduleBot/src/services/storage.js:85-89 | every written field replaces the stored one, every other field is kept, and the activity time is now |
| Storage.SubscribedIn | ScheduleBot/src/services/storage.js:143-151 | a pair is listed exactly when its key is in the table and the user is subscribed with a non-empty group id; in key order |
| Storage.SubscribeThenUnsubscribe | ScheduleBot/src/services/storage.js:122-137 | unsubscribing after subscribing keeps the group and the chosen time and stops the delivery |
| Storage.GroupAndSubscriptionReceive | ScheduleBot/src/services/storage.js:109-127 | choosing a group and subscribing, in either order, makes the user receive the schedule (also line 146) |
| Storage.UserStore.constructor | ScheduleBot/src/services/storage.js:64 | the loaded users, keys in the given order, and the keys list every user once |
| Storage.UserStore.GetUser | ScheduleBot/src/services/storage.js:71-73 | the stored user exactly when the id is a key |
| Storage.UserStore.SetUser | ScheduleBot/src/services/storage.js:81-93 | the merged user is stored under the id, a new id is appended to the keys, and no other user changes |
| Storage.UserStore.DeleteUser | ScheduleBot/src/services/storage.js:99-102 | the user is removed, and the keys list every other user as before |
| Storage.UserStore.SetUserGroup | ScheduleBot/src/services/storage.js:109-115 | the group's id, code and full name are stored, the subscription and time kept |
| Storage.UserStore.SubscribeUser | ScheduleBot/src/services/storage.js:122-127 | subscribed at the given time or "07:00", the group kept |
| Storage.UserStore.UnsubscribeUser | ScheduleBot/src/services/storage.js:133-137 | the subscription is off, the group and time kept |
| Storage.UserStore.GetSubscribedUsers | ScheduleBot/src/services/storage.js:143-151 | the loop returns the subscribed users of `SubscribedIn` |
| Storage.UserStore.HasGroup | ScheduleBot/src/services/storage.js:158-161 | true exactly when the user exists with a non-empty group id |
| Storage.UserStore.UsersCount | ScheduleBot/src/services/storage.js:167-169 | the number of stored users |
| Storage.KeysCount | ScheduleBot/src/services/storage.js:168 | a duplicate-free key list of the table is as long as the table |
| TaskParser.RunEnd | TasksManager/src/js/parser.js:14-15 | the greedy `\w+` (or Cyrillic) run from a position: every character inside belongs to the class and the one after does not |
| TaskParser.MatchLen | TasksManager/src/js/parser.js:14-16 | a match at the start is the sigil plus at least one character; a priority match is exactly "!" and a digit 1 to 3 |
| TaskParser.Matches | TasksManager/src/js/parser.js:19 | `text.match(re)` with the global flag: every full match starts with its sigil; priority matches are two characters with a digit 1 to 3 |
| TaskParser.RemoveMatches | TasksManager/src/js/parser.js:38-40 | `replace(re, '')` never lengthens the text |
| TaskParser.CollapseSpaces | TasksManager/src/js/parser.js:41 | every run of white space becomes one space: the result has no white space other than single spaces |
| TaskParser.Title | TasksManager/src/js/parser.js:37-42 | the title has no white space at its ends and no double spaces |
| TaskParser.ParseCommand | TasksManager/src/js/parser.js:2-45 | null exactly for a missing or blank text; the project is the first `#` match without its sigil; the contexts are every `@` match, in order, without the sigil; the priority is 0 without a `!` match and NaN with one; the deadline is null |
| TaskParser.PriorityOfMatch | TasksManager/src/js/parser.js:33 | `parseInt` of a full match "!n" is NaN |
| TaskParser.SkipPlain | TasksManager/src/js/parser.js:19-40 | text without the sigil yields no match and survives the removal unchanged |
| TaskParser.TagMatch | TasksManager/src/js/parser.js:14-15 | a sigil followed by a maximal run of word characters is one match, and scanning resumes after it |
| TaskParser.ContextsInOrder | TasksManager/src/js/parser.js:25-28 | the first `@word` comes first among the contexts, followed by those of the rest of the text |
| TaskParser.NoProjectWithoutHash | TasksManager/src/js/parser.js:19-22 | a text without `#` has no project |
| TaskParser.ProjectIsFirstTag | TasksManager/src/js/parser.js:19-22 | the project is the first `#word`, whatever tags follow it |
| TaskParser.PlainTitle | TasksManager/src/js/parser.js:37-42 | a text without tags is its own title, white space collapsed and ends trimmed |
| TaskParser.PriorityTokenGivesNaN | TasksManager/src/js/parser.js:31-34 | as written, a command with a "!d" token gets priority NaN, while the intended reading gives d |
| TaskParser.IntendedPriority | TasksManager/src/js/parser.js:31-34 | the corrected priority: 0 exactly when there is no `!n` token, otherwise the digit of the first one |
| TaskServer.WithCompleted | TasksManager/server.js:28-30 | the list afterwards always holds a category with id "system-completed"; a list that already has one is unchanged, otherwise the "Выполненные" category is appended |
| TaskServer.ReadData | TasksManager/server.js:22-45 | the data always holds the "Completed" category; an unreadable file gives the two default categories, no tasks and the default settings; a missing categories list becomes the "default" one, missing tasks become empty and missing settings the defaults |
| TaskServer.ReadWritten | TasksManager/server.js:22-48 | reading back data that was written, once it has the "Completed" category, gives the same data |
| TaskServer.ReadDataIdempotent | TasksManager/server.js:22-48 | reading what a read produced changes nothing |
| TaskServer.AssignCategory | TasksManager/server.js:86 | `Object.assign`: each field in the body replaces the category's, the others and the id stay |
| TaskServer.IndexOfCategory | TasksManager/server.js:84 | `find` by id: the first category with that id, none exactly when no category has it |
| TaskServer.WithoutCategory | TasksManager/server.js:98 | the filter keeps exactly the categories whose id differs |
| TaskServer.Reassigned | TasksManager/server.js:95-97 | each task of the deleted category moves to "default"; every other task is unchanged |
| TaskServer.DeletedCategoryEmpty | TasksManager/server.js:92-101 | after deleting a category other than "default", no task is left in it |
| TaskServer.CompletedRestored | TasksManager/server.js:28-30 | a deleted "Completed" category is appended again at the next read |
| TaskServer.SetCategoryOrder | TasksManager/server.js:110-111 | one reorder item: the first category with its id takes its order; an unknown id changes nothing; ids, names and flags stay |
| TaskServer.CategoryOrders | TasksManager/server.js:108-112 | the items applied in turn keep the list's length, ids, names and flags |
| TaskServer.UnknownCategoriesIgnored | TasksManager/server.js:109-111 | items naming no category leave the list unchanged |
| TaskServer.Positions | TasksManager/src/js/app.js:669 | the request after a category drop gives the i-th category the order i |
| TaskServer.PositionsNumber | TasksManager/src/js/app.js:669-670 | once the server applies that request to categories with distinct ids, every category's order is its position |
| TaskServer.SetTaskOrder | TasksManager/server.js:115-119 | one reorder item: the first task with its id takes its order, and its category when the item names a non-empty one; an unknown id changes nothing |
| TaskServer.TaskOrders | TasksManager/server.js:113-121 | the items applied in turn keep the list's length, ids, titles and statuses |
| TaskServer.IndexOfTask | TasksManager/server.js:148 | `findIndex` by id: the first task with that id, none exactly when no task has it |
| TaskServer.NewTask | TasksManager/server.js:130-140 | a new task: the given title, status and category, or "Новая задача", "todo" and "default" for empty ones; empty content and media; order = the number of tasks; both stamps the current time |
| TaskServer.MergeTask | TasksManager/server.js:153 | the body's fields replace the task's, the rest stay, the update stamp is the current time |
| TaskServer.PatchedTask | TasksManager/server.js:150-163 | the patched task is the merge, except possibly its category |
| TaskServer.CompletingMoves | TasksManager/server.js:156-157 | a task turned "done" from another status moves to "system-completed", whatever category the body gives |
| TaskServer.ReopeningMoves | TasksManager/server.js:158-162 | a "done" task turned "todo" while in "system-completed" moves to "default" |
| TaskServer.NoTransitionKeepsCategory | TasksManager/server.js:150-163 | a body without a new status (or with an empty or unchanged one) is applied as a plain merge |
| TaskServer.CompleteThenReopen | TasksManager/server.js:155-162 | completing and then reopening a "todo" task takes it to "default" rather than back to its category; its title and order stay |
| TaskServer.WithoutTask | TasksManager/server.js:172 | the filter keeps exactly the tasks whose id differs; without such a task the list is unchanged |
| TaskServer.ReassignTasks | TasksManager/server.js:95-97 | the loop over the tasks computes the reassignment |
| TaskServer.FilterCategories | TasksManager/server.js:98 | the loop computes the filtered category list |
| TaskServer.ApplyCategoryOrders | TasksManager/server.js:109-112 | the loop over the items computes the category reorder |
| TaskServer.ApplyTaskOrders | TasksManager/server.js:114-120 | the loop over the items computes the task reorder |
| TaskServer.Server.constructor | TasksManager/server.js:48 | start-up writes what `readData` returns |
| TaskServer.Server.Current | TasksManager/server.js:72 | `GET /api/data`: the file with its defaults; the tasks and settings as stored |
| TaskServer.Server.PatchSettings | TasksManager/server.js:51-56 | the body's keys take the body's values, every other key keeps its value; the returned settings are the stored ones |
| TaskServer.Server.CreateCategory | TasksManager/server.js:74-80 | the new category, named "Новая категория" when no name is given, is appended without an order |
| TaskServer.Server.PatchCategory | TasksManager/server.js:82-90 | the first category with the id takes the body and is returned; with no such category nothing is written and the result is none (404) |
| TaskServer.Server.DeleteCategory | TasksManager/server.js:92-101 | the category's tasks move to "default" and the category is removed; settings stay |
| TaskServer.Server.Reorder | TasksManager/server.js:104-125 | "categories" and "tasks" apply the items to their list; any other type changes nothing but the read defaults |
| TaskServer.Server.CreateTask | TasksManager/server.js:128-144 | the new task is appended with order = the previous task count |
| TaskServer.Server.PatchTask | TasksManager/server.js:146-168 | the first task with the id is replaced by its patched version and returned; with no such task nothing changes (404) |
| TaskServer.Server.DeleteTask | TasksManager/server.js:170-175 | every task with the id is removed, the others kept in order |
| Sorting.RemoveAt | TasksManager/src/js/app.js:663 | `splice(i, 1)`: one element fewer, the same multiset less that element, the later ones shifted down |
| Sorting.InsertAt | TasksManager/src/js/app.js:667 | `splice(i, 0, x)`: `x` at `i`, the earlier elements in place and the later ones shifted up |
| TaskBoard.DroppedCategories | TasksManager/src/js/app.js:655-667 | the list after a category drop is a permutation of the old one |
| TaskBoard.DroppedAfterTarget | TasksManager/src/js/app.js:655-667 | dropped on another category (ids distinct), the moved category comes right after the target |
| TaskBoard.DroppedOnItself | TasksManager/src/js/app.js:663-667 | dropped on itself, a category moves to the front and the others keep their order |
| TaskBoard.NewCategory | TasksManager/src/js/app.js:675-690 | a task dropped on a header goes to that category, dropped on a task to that task's category |
| TaskBoard.TargetOrder | TasksManager/src/js/app.js:676-689 | the provisional order is 0 on a header and one past the target task's order |
| TaskBoard.MovedTask | TasksManager/src/js/app.js:692-693 | the dragged task keeps its id and takes the new category and order |
| TaskBoard.OthersIn | TasksManager/src/js/app.js:697 | the filter keeps exactly the tasks of the category other than the dragged one |
| TaskBoard.Siblings | TasksManager/src/js/app.js:697 | the other tasks of the new category, sorted by order |
| TaskBoard.DroppedTasks | TasksManager/src/js/app.js:699-707 | the new list of the category is those siblings plus the dragged task |
| TaskBoard.TaskPositions | TasksManager/src/js/app.js:710 | each request item carries the task's id, its position as order and the new category |
| TaskBoard.HeaderDropFirst | TasksManager/src/js/app.js:678-707 | dropped on a header, the task is first in the new list and its request item has order 0 and that category |
| TaskBoard.TaskDropAfterTarget | TasksManager/src/js/app.js:686-703 | dropped on another task, the dragged task comes right after the target in the category's sorted list |
| TaskBoard.OnlyNewCategory | TasksManager/src/js/app.js:697-710 | every task in the request is the dragged one or already of the new category |
| TaskBoard.Toggled | TasksManager/src/js/app.js:398 | "done" becomes "todo", anything else "done" |
| TaskBoard.ToggleTwice | TasksManager/src/js/app.js:725 | toggling twice restores "done" and "todo"; another status ends as "todo" |
| TaskBoard.ToggleRequest | TasksManager/src/js/app.js:721-727 | no request when the task is not in the store; otherwise a patch carrying only the toggled status |
| TaskBoard.ToggleActiveRequest | TasksManager/src/js/app.js:394-400 | no request without an active task; otherwise the request for the active task |
| TaskBoard.ToggleThroughServer | TasksManager/src/js/app.js:721-727 | through the server, toggling an open task completes it in "system-completed", and toggling it back reopens it in "default" |
| TaskBoard.Board.DropCategory | TasksManager/src/js/app.js:655-671 | the two splices leave the store's list as the dropped list, and the request numbers it by position |
| TaskBoard.Board.DropTask | TasksManager/src/js/app.js:672-711 | the dragged task object takes its new category and order in the store, and the request numbers the category's new list |
| AhkScripts.MatchIndex | AHKOrganizer/server/index.sync-conflict-20260210-165339-2YIJB2Y.js:32-38 | the leftmost position where the pattern matches, with no match before it; none when it matches nowhere |
| AhkScripts.DetectVersion | AHKOrganizer/server/index.sync-conflict-20260210-165339-2YIJB2Y.js:30-45 | V2 when the `#Requires` directive captures "2"; otherwise V2 exactly when the first `; @version` tag upper-cased starts with "V2"; V1.1 otherwise |
| AhkScripts.RequiresV2Wins | AHKOrganizer/server/index.sync-conflict-20260210-165339-2YIJB2Y.js:32-35 | a script whose first `#` begins `#Requires AutoHotkey v2`, the words in any letter case, is V2 whatever tags follow |
| AhkScripts.VersionCommentV2 | AHKOrganizer/server/index.sync-conflict-20260210-165339-2YIJB2Y.js:37-41 | a first `; @version v2` tag in a script without `#` makes it V2, for the current detection and for the older server's probe choice |
| AhkScripts.UntaggedIsV1 | AHKOrganizer/server/index.sync-conflict-20260210-165339-2YIJB2Y.js:43-44 | a script with neither `#` nor `;` is V1.1 in both servers |
| AhkScripts.LegacyLabel | AHKOrganizer/server/index.js:90-91 | the label is "V1.1" without a tag, otherwise the captured tag upper-cased, which starts with "V" |
| AhkScripts.LegacyLabelAgrees | AHKOrganizer/server/index.js:52-53 | the label starts with "V2" exactly when the older server writes V2 probes |
| AhkScripts.LineStep | AHKOrganizer/server/index.sync-conflict-20260210-165339-2YIJB2Y.js:75-95 | a probed line is outside block comments and eligible; a line in or opening a block comment is not probed and the flag stays set until a line ending the comment; otherwise probed exactly when eligible |
| AhkScripts.Probe | AHKOrganizer/server/index.sync-conflict-20260210-165339-2YIJB2Y.js:98-104 | the probe carries "AHK_LINE_INFO:", the file name and the line number at a fixed place, in `FileAppend(` syntax for V2 and `FileAppend,` syntax otherwise, and holds no line break when the name holds none |
| AhkScripts.InstrumentLines | AHKOrganizer/server/index.sync-conflict-20260210-165339-2YIJB2Y.js:67-105 | the loop that carries the block-comment flag returns, line by line, the probed line or the line itself, as the map specification states |
| AhkScripts.InstrumentScript | AHKOrganizer/server/index.sync-conflict-20260210-165339-2YIJB2Y.js:66-108 | the text is the mapped lines joined with line breaks, with V2 probes exactly when the detected version is V2 |
| AhkScripts.InstrumentedLines | AHKOrganizer/server/index.sync-conflict-20260210-165339-2YIJB2Y.js:71-107 | the lines of the result are the original lines, unchanged and in order, each preceded by at most one probe carrying its 1-based number |
| AhkScripts.DeletingProbesRestores | AHKOrganizer/server/index.js:47-81 | deleting the probe lines from the result and joining gives back the script, under both sets of rules |
| AhkScripts.BlockCommentUnprobed | AHKOrganizer/server/index.sync-conflict-20260210-165339-2YIJB2Y.js:75-79 | no line from one opening a block comment through the first that closes it is probed |
| AhkScripts.SkippedLines | AHKOrganizer/server/index.js:65-68 | blank lines and lines starting ";" or "#" are never probed |
| AhkScripts.CurrentSkips | AHKOrganizer/server/index.sync-conflict-20260210-165339-2YIJB2Y.js:86-95 | lines ending ":", lines that are "{" or "}", and lines starting with a flow word in any case are never probed under the current rules |
| AhkScripts.CurrentSkipsMore | AHKOrganizer/server/index.sync-conflict-20260210-165339-2YIJB2Y.js:81-95 | every line probed under the current rules is probed under the older ones |
| AhkScripts.ChooseExecutable | AHKOrganizer/server/index.sync-conflict-20260210-165339-2YIJB2Y.js:157-175 | the V2 path for a V2 script when configured; else the configured path; else the first installed common path, or "AutoHotkey.exe" when none is |
| CollectionData.Find | WarframeShit/src/context/AppContext.jsx:144 | a key's position among the entries: the first entry with that key, or none when no entry has it |
| CollectionData.Get | WarframeShit/src/context/AppContext.jsx:144 | reading `categories[key]` finds a category exactly when some entry has the key, and it is that entry's category |
| CollectionData.GetAt | WarframeShit/src/context/AppContext.jsx:144 | in a list of unique keys each entry is found at its own position |
| CollectionData.Put | WarframeShit/src/context/AppContext.jsx:150 | assigning `categories[key]` sets that key to the new category and leaves every other key reading what it read; an existing key keeps its position and a new one is appended; unique keys stay unique |
| CollectionData.Filter | WarframeShit/src/context/AppContext.jsx:200 | `filter` keeps exactly the items satisfying the predicate and adds none |
| CollectionData.Count | WarframeShit/src/context/AppContext.jsx:200-201 | a filtered count is at most the number of items |
| CollectionData.CountAppend | WarframeShit/src/context/AppContext.jsx:227-233 | filtering and counting distribute over concatenation |
| CollectionStore.PutWeaponsSpec | WarframeShit/src/context/AppContext.jsx:71-75 | each weapon list of the older format becomes the category stored under its key, with that key as id and name; other keys keep what they held, and keys stay unique |
| CollectionStore.FromLegacy | WarframeShit/src/context/AppContext.jsx:68-79 | the older format gives a "frames" category named "Варфреймы" holding the frames, when there are frames and no weapon list claims that key, then one category per weapon key, and nothing under any other key |
| CollectionStore.MaxOrder | WarframeShit/src/context/AppContext.jsx:82-85 | the largest numeric order, at least 0: no category has a larger order, and a positive result is some category's order |
| CollectionStore.MaxOrderLoop | WarframeShit/src/context/AppContext.jsx:82-85 | the first loop of the migration computes exactly that largest order |
| CollectionStore.MigrateItemsLoop | WarframeShit/src/context/AppContext.jsx:89-93 | the inner loop gives a prime item without a type the type "prime" and leaves every other item as it was |
| CollectionStore.Migrate | WarframeShit/src/context/AppContext.jsx:82-94 | the migration loop computes exactly the migrated categories |
| CollectionStore.MigratedOrders | WarframeShit/src/context/AppContext.jsx:82-89 | after migration every category keeps its key and has an order; a numeric order is kept; a missing one is above every order that was there and differs from every other new one |
| CollectionStore.MigratedItems | WarframeShit/src/context/AppContext.jsx:89-93 | item counts are kept; a prime item ends with a type; every item is unchanged apart from its type; an existing subcategory list is kept |
| CollectionStore.Load | WarframeShit/src/context/AppContext.jsx:67-94 | the older format is converted when there is no `categories` object, missing item types become the seven defaults, and the categories are migrated |
| CollectionStore.Apply | WarframeShit/src/context/AppContext.jsx:149 | `{ ...item, ...updates }` sets exactly the fields the update carries and keeps every other field |
| CollectionStore.FirstNamed | WarframeShit/src/context/AppContext.jsx:145 | `findIndex` by name: a position holding the name with none before it; none when no item has it |
| CollectionStore.UpdateFirst | WarframeShit/src/context/AppContext.jsx:145-151 | only the first item of the name in a category takes the update; every other item and field stays |
| CollectionStore.UpdateGlobalStatus | WarframeShit/src/context/AppContext.jsx:138-161 | reports an update exactly when some category holds an item of that name; then every category has its first such item updated, and otherwise the state is the old one |
| CollectionStore.NoNameNoChange | WarframeShit/src/context/AppContext.jsx:155-159 | with no item of that name, updating changes no category |
| CollectionStore.LaterNamesakeKept | WarframeShit/src/context/AppContext.jsx:145-149 | a second item of the same name in a category keeps its status |
| CollectionStore.FilteredItems | WarframeShit/src/context/AppContext.jsx:163-177 | an item is kept exactly when it matches the case-insensitive search, the status filter and the type filter; nothing is added |
| CollectionStore.NoFilterKeepsAll | WarframeShit/src/context/AppContext.jsx:166-177 | an empty search and the filters "all" keep every item |
| CollectionStore.ItemsStat | WarframeShit/src/context/AppContext.jsx:199-206 | collected and mastered counts are at most the number of items |
| CollectionStore.Percentage | WarframeShit/src/context/AppContext.jsx:207 | the rounded percentage is at most 100, is 100 when every item is collected, and 0 when none is or the category is empty |
| CollectionStore.StatOfCategory | WarframeShit/src/context/AppContext.jsx:198-209 | a category's figures are its item counts and its order, named by its name or else its id, with a percentage of at most 100 |
| CollectionStore.CategoryKeyOf | WarframeShit/src/context/AppContext.jsx:216 | a key "weapon-x" names the category "x"; any other key names itself |
| CollectionStore.GroupSum | WarframeShit/src/context/AppContext.jsx:213-224 | a group's collected and mastered sums are at most its total |
| CollectionStore.GroupTotals | WarframeShit/src/context/AppContext.jsx:214-223 | the loop over a group's keys computes exactly the group sum |
| CollectionStore.GroupKeys | WarframeShit/src/context/AppContext.jsx:215-222 | a key naming no category adds nothing, and "weapon-x" counts the same as "x" |
| CollectionStore.TotalIsSum | WarframeShit/src/context/AppContext.jsx:227-233 | the overall figures over all items equal the sums of the categories' figures |
| CollectionStore.Without | WarframeShit/src/context/AppContext.jsx:246 | the filter keeps exactly the other keys |
| CollectionStore.ToggleHidden | WarframeShit/src/context/AppContext.jsx:245-247 | the toggled key changes membership, every other key keeps it, and a newly hidden key is appended |
| CollectionStore.ToggleTwice | WarframeShit/src/context/AppContext.jsx:245-247 | toggling twice hides the same keys as before |
| CollectionStore.IndexOfId | WarframeShit/src/context/AppContext.jsx:301 | `findIndex` by id: a position holding the id, or none when no category has it |
| CollectionStore.NeighbourAt | WarframeShit/src/context/AppContext.jsx:301-316 | a move names the moved category and the one just before it ("up") or just after it ("down") in the sorted order |
| CollectionStore.MoveCategory | WarframeShit/src/context/AppContext.jsx:298-317 | nothing changes for an unknown id, for a direction other than "up" or "down", or for the first category moved up or the last moved down |
| CollectionStore.MoveSwapsOrders | WarframeShit/src/context/AppContext.jsx:298-317 | a move swaps the orders of the moved category and its neighbour and changes nothing else; keys and positions stay; the multiset of orders is kept |
| CollectionStore.FirstWithId | WarframeShit/src/context/AppContext.jsx:343 | `findIndex` by id: a position holding the id, or none when no item has it |
| CollectionStore.ReplaceById | WarframeShit/src/context/AppContext.jsx:343-346 | the first item with the saved item's id is replaced and every other item stays; without one the list is unchanged |
| CollectionStore.SaveToMissingCategoryCreates | WarframeShit/src/context/AppContext.jsx:325-333 | as written, saving a new item into a missing category creates a nameless category holding only that item |
| CollectionStore.MoveFromMissingCategoryFails | WarframeShit/src/context/AppContext.jsx:335-338 | as written, moving an item out of a missing category throws, and nothing is saved |
| CollectionStore.SaveItemAsWritten | WarframeShit/src/context/AppContext.jsx:321-353 | the save as written: it fails exactly when an existing item is moved out of a missing category; otherwise a category under the final key exists afterwards, created empty if it was missing, holding the appended or replacing item, and every other category stays |
| CollectionStore.SaveItem | WarframeShit/src/context/AppContext.jsx:321-353 | the intended save, with the guards working: a missing target leaves the state unchanged; a new item is appended to the target; a moved item leaves the source (by id) and is appended to the target; otherwise it replaces the item with its id; other categories and fields stay |
| CollectionStore.SaveItemAgrees | WarframeShit/src/context/AppContext.jsx:321-353 | when the categories exist, the intended save is the one written |
| CollectionStore.DeleteGroup | WarframeShit/src/context/AppContext.jsx:369-372 | exactly the groups with other ids are kept |
| CollectionStore.GroupIndex | WarframeShit/src/context/AppContext.jsx:359 | `findIndex` by id: the first group with the id, or none |
| CollectionStore.UpsertGroup | WarframeShit/src/context/AppContext.jsx:356-367 | the group replaces the first group with its id, or is appended; every group with another id stays and nothing else is added |
| CollectionStore.DeleteAfterUpsert | WarframeShit/src/context/AppContext.jsx:356-372 | deleting a group just saved leaves what deleting it from the old list leaves |
| CollectionStore.BulkIntoMissingLosesItems | WarframeShit/src/context/AppContext.jsx:433-434 | as written, uploading into a missing category creates it with no items, losing every uploaded item |
| CollectionStore.AddBulkAsWritten | WarframeShit/src/context/AppContext.jsx:430-444 | the upload as written: the items are appended to an existing category, a missing category is created with no items, other categories stay and keys stay unique |
| CollectionStore.AddBulk | WarframeShit/src/context/AppContext.jsx:430-444 | the intended upload: the uploaded items are appended to the category, a missing category is created holding them, other categories stay and keys stay unique |
| CollectionStore.AddBulkAgrees | WarframeShit/src/context/AppContext.jsx:430-444 | for an existing category both versions append the items |
| CollectionStore.ResolveBulk | WarframeShit/src/context/AppContext.jsx:511-523 | "all" adds the new items then the duplicates, "unique" only the new items, both through the upload as written; any other answer or no open dialog adds nothing |
| CollectionStore.ResolveAllAddsDuplicates | WarframeShit/src/context/AppContext.jsx:514-519 | resolving with "all" adds exactly the duplicates more than resolving with "unique" |
| CollectionPage.UpdateNamed | WarframeShit/app.js:148-153 | every item of the name takes the update and every other item stays |
| CollectionPage.NoneNamedNoChange | WarframeShit/app.js:147-156 | with no item of the name anywhere, nothing changes |
| CollectionPage.UpdateItems | WarframeShit/app.js:148-153 | the inner loop updates every item of the name and counts them |
| CollectionPage.UpdateGlobalStatus | WarframeShit/app.js:142-162 | every item of the name in every category takes the update; the count is the number of such items; with a count of 0 the state is unchanged, so nothing is saved |
| CollectionPage.FirstIsAllWhenUnique | WarframeShit/app.js:147-153 | where a category holds at most one item of a name, the page's update and the context's first-only update agree |
| CollectionPage.TwoNamed | WarframeShit/app.js:147-153 | two items of the name count at least twice |
| CollectionPage.MigrationCompletes | WarframeShit/app.js:77-102 | the page's migration gives every category a subcategory list and an order, and keeps an existing list |
| CollectionPage.KeepIdChars | WarframeShit/app.js:647 | the kept characters are exactly those of [a-z0-9а-я] |
| CollectionPage.SubId | WarframeShit/app.js:647 | a subcategory id holds exactly the lower-cased name's characters from [a-z0-9а-я] |
| CollectionPage.SubIdIdempotent | WarframeShit/app.js:647 | deriving the id of an id changes nothing |
| CollectionPage.AddToMissingCreates | WarframeShit/app.js:632-658 | as written, adding a subcategory to a missing category creates a category holding only that subcategory |
| CollectionPage.AddSubcategoryAsWritten | WarframeShit/app.js:625-662 | the add as written: cancelled exactly for no or a blank name, never "not found"; "duplicate" exactly when the derived id is taken in the category or, for a missing one, never; otherwise the subcategory is appended to the category, created empty if missing, and nothing else changes |
| CollectionPage.AddSubcategory | WarframeShit/app.js:625-662 | the intended add, with the guard working: cancelled exactly for no or a blank name; "not found" exactly for a missing category; "duplicate" exactly when the derived id is taken; otherwise the subcategory with the trimmed name is appended and nothing else changes |
| CollectionPage.AddKeepsIdsDistinct | WarframeShit/app.js:650-658 | adding keeps a category's subcategory ids distinct |
| CollectionPage.AddSubcategoryAgrees | WarframeShit/app.js:625-662 | for an existing category the intended add is the one written |
| CollectionPage.WithoutSub | WarframeShit/app.js:679 | exactly the subcategories with other ids are kept |
| CollectionPage.ClearSub | WarframeShit/app.js:683-692 | items referencing the subcategory lose the reference and every other item stays |
| CollectionPage.DeleteSubcategory | WarframeShit/app.js:666-696 | nothing is saved exactly when the category or its subcategory list is missing; otherwise the subcategory is removed, no item references it, other items and categories are unchanged |
| CollectionPage.DeclaredIds | WarframeShit/app.js:1140-1151 | the groups are "other" and every declared subcategory id, and nothing else |
| CollectionPage.GroupOf | WarframeShit/app.js:1154-1158 | an item goes to its subcategory when that one is declared, else to "other" |
| CollectionPage.GroupItems | WarframeShit/app.js:1139-1162 | the loop makes one list per declared group, holding in order exactly the items of that group |
| CollectionPage.OneGroupEach | WarframeShit/app.js:1139-1162 | each item is in the group of its subcategory, when declared, or in "other", and in no other group |
| CollectionPage.DeleteItem | WarframeShit/app.js:360-369 | only the items with that id leave that category; a missing category changes nothing; other categories stay |
| CollectionPage.StateClass | WarframeShit/app.js:1356-1361 | "collected-mastered", "collected", "mastered" and "" each name exactly one combination of the two flags |
| CollectionPage.StateClassDistinguishes | WarframeShit/app.js:1356-1361 | two cards with the same class have the same flags |

## Left out

- HTML parsing and the network: the cheerio walk that cuts a cell at `<br>`, extracts text and finds teacher and room links, and the axios requests. Cells and rows arrive as records.
- Letter case: `toLowerCase` and case-insensitive patterns are modelled for ASCII and the basic Cyrillic alphabet (А..я, Ё/ё); other scripts are left unchanged.
- LessonVariants.ResolveLessonDetails: the null-lesson guard (returning null) is not modelled; every caller passes a lesson.
- `refreshAllCaches`: an asynchronous loop of network fetches over the cached keys; each fetch is `ScheduleFetch.ScheduleCache.Fetch`.
- The sort of a slot's selected lessons by the start of their week range: `selectLessons` returns at most one lesson, so the sort never reorders anything.
- The clock and the request: `Date.now()`, `new Date().getDay()` and the locale date are parameters, and so is the outcome of the request. Cache keys are strings; a numeric group id and the same digits as a code share a key here but not in a JavaScript `Map`.
- Groups: the department parameter and the URL of the index request are not modelled; the request's outcome is a parameter and the page arrives as its links.
- Bot: the Telegram handlers, replies, inline button texts and the page caption are not modelled; the stored user's subscription is a parameter of the time input.
- Formatter: the string literals of `formatter.js` are stored in the repository in a doubly encoded form (UTF-8 read as Mac Roman); the model uses the Russian texts they encode. The fixed messages (`formatGroupPrompt`, `formatSubscription`, `formatWelcome`, `formatHelp`, `formatGroupSelected`, `formatTimeSettings`, `formatTimeUpdated`) are constant templates and are not modelled. `new Date().getDay()` is the parameter `weekday`.
- Storage: reading and writing `users.json` (`loadUsers`, `saveUsers`, `reloadUsers`) is file I/O; the loaded table is a constructor parameter. Keys are the ids already converted with `String`. The order of `getSubscribedUsers` is insertion order here; JavaScript lists integer-like keys first, in numeric order.
- TaskParser: `\s` is JavaScript's white-space class; `parseInt` results are integers or NaN. `\w` is ASCII, as in a regular expression without the `u` flag.
- TaskServer: reading and writing the data file, the upload handler (a base64 file write) and the Express routing are I/O. `Date.now()` ids and ISO time stamps are parameters. A request body is modelled by the fields the client sends; a body that carries an `id` or other keys is not modelled. A missing or empty string field of a body is the empty string, as `||` treats both alike.
- TaskBoard: DOM events, rendering and the request to the server are not modelled. The dragged and target elements are rendered from the store, so their ids are present there (a requirement here). A category dropped on a task matches neither branch and does nothing. Orders are integers, so `order || 0` is the order itself.
- AhkScripts: spawning the interpreter, the temporary file (with its byte-order mark), the stdout parser of `AHK_LINE_INFO`, the socket events and the config file are not modelled. Whether a common install path exists is the parameter `installed`. The file name is taken to hold no line break for the round trip.
- AhkScripts.DetectVersion: `\s` is JavaScript's white-space class and letter case is folded as `Text.Lower` does.
- Table discovery keeps to the first `tr` of each table and to its `td` cells; rows of nested tables are not modelled.
- ScheduleRows.CurrentWeek: the number is read as an unbounded natural; `parseInt` of a very long digit run loses precision in JavaScript.
- LessonVariants.NearestCandidate: the in-place stable sort is modelled only through its first element, which is all that `selectLessons` reads.
- CollectionStore: fetching the data file, the debounced save, `localStorage`, alerts, confirmations and prompts are I/O; the state after `setData` is the function's result. The categories object is a list of entries in key insertion order. Objects are values, so the in-place writes of the migration, of `handleDelete` and of the older page's `Object.assign` are modelled by the states they produce; sharing between the old and new state objects is not modelled.
- CollectionStore.FilteredItems: the `localeCompare` sorts of `getFilteredItems` are not modelled; the filters decide membership only.
- CollectionStore.Percentage: computed on integers as the round-half-up of 100·collected/total; floating-point rounding is not modelled.
- CollectionStore.PutWeaponsSpec: weapon keys are taken to be distinct, as the keys of an object are.
- CollectionStore.MoveSwapsOrders: stated for lists whose categories are stored under their ids, as the app writes them; an entry stored under another key is not covered.
- CollectionStore: a category's missing `items` array is the empty list. The default of `progressGroups` (an absent list is empty) is the empty sequence. `handleBulkUpload` (file reading, name cleaning, type detection and duplicate detection), `handleAdd`, `handleEdit`, `toggleCollected`, `toggleMastered`, `handleDeleteCategory`, `handleRenameCategory` and adding a category are not modelled: they are dialogs, I/O, or single updates built from the modelled operations.
- CollectionPage.GroupItems: group names are compared as strings; an item whose subcategory names a property JavaScript objects inherit (such as "constructor") is not modelled.

## Findings

| source | as written | input that shows it | evidently intended | confidence | as-written member | corrected member |
|---|---|---|---|---|---|---|
| ScheduleBot/src/parsers/schedule.js:157 | the single-kind pattern tries the alternative "л" before "лаб", so a group that begins with "лаб" is read as a lecture | a cell text "(лаб.)" | "(лаб.)" annotated as a laboratory work | not executed | LessonKinds.LabReadAsLectureAsWritten | LessonKinds.LabReadAsLab |
| ScheduleBot/src/bot.js:476-478 | a full part is pushed after `trim()` with only `current.length > 0` checked, so a part of white space is sent as an empty message | a line of two spaces, then a line of 3994 UTF-16 code units | no empty part, as the final `current.trim()` guard at line 484 does for the last one | not executed | Bot.BlankPartEmitted | Bot.IntendedParts |
| TasksManager/src/js/parser.js:33 | `priorityMatch[1]` of a global `match` is the second full match (or undefined), so `parseInt` gives NaN | the command "task !2" | priority 2, the digit captured by the first `!n` token | not executed | TaskParser.PriorityTokenGivesNaN | TaskParser.IntendedPriority |
| WarframeShit/src/context/AppContext.jsx:325-329 | `{ ...categories[x] }` of a missing category is `{}`, which is truthy, so the "category not found" guard never fires | saving a new item with the dialog opened on a category key that is not stored | a missing category is reported and nothing changes | not executed | CollectionStore.SaveToMissingCategoryCreates | CollectionStore.SaveItem |
| WarframeShit/src/context/AppContext.jsx:335-338 | the same spread makes the `if (oldCatData)` guard always true, so moving an item out of a missing category reads `items` of `{}` and throws | editing an item from a category that was deleted meanwhile, saved into an existing one | the missing source is skipped and the item saved into the target | not executed | CollectionStore.MoveFromMissingCategoryFails | CollectionStore.SaveItem |
| WarframeShit/src/context/AppContext.jsx:433-434 | a missing category is created with `items: []`, dropping the uploaded items | a bulk upload of one item into a key that is not stored | the new category holds the uploaded items | not executed | CollectionStore.BulkIntoMissingLosesItems | CollectionStore.AddBulk |
| WarframeShit/app.js:632-638 | `{ ...x }` of a missing category is `{}`, so the guard never fires and a new category holding only the subcategory is stored | adding the subcategory "A" to a category key that is not stored | a missing category is reported and nothing changes | not executed | CollectionPage.AddToMissingCreates | CollectionPage.AddSubcategory |
