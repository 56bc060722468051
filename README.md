# Latin Academy dashboard: a verified model of its business rules

The dashboard is a React admin application for a language academy. Most of its screens
make REST calls. The rules worth verifying sit inside a few screens and in a small
key-value layer over the browser's `localStorage`, which some screens use as their
database. This project models those rules in Dafny and proves what they promise.

- **Storage** (`local_storage.dfy`, module `LocalStore`). The store is a map from keys to
  stored items: a JSON document written by `saveToLocalStorage`, or raw text written by
  `localStorage.setItem`. `getFromLocalStorage` falls back to the default for a missing or
  empty key. `generateCode` builds "prefix + next number, zero-padded to three digits".
- **Groups** (`groups.dfy`). This module covers:
  - the end-date walk, which steps one day at a time until the lecture count is reached;
  - the lecture-count fallback chain;
  - `convertJsDayToId` and the start-date picker's check;
  - the day checkboxes, the student toggle, submit validation and `extractData`.

  The checkboxes store `getDay()` numbers (Sunday = 0), but the picker compares
  `convertJsDayToId` ids (Sunday = 7). The model keeps this as written and proves what
  follows: a Sunday start date can never be picked.
- **Attendance** (`attendance.dfy`). This module covers:
  - the 31 half-hour time slots and the lab-by-slot grid;
  - session numbering and the end-of-level check;
  - saving a session: the session, `lecturesDone`, the lecture and the attendance rows;
  - marking everyone present or absent;
  - upgrading a group to its course's next level.
- **Students** (`students.dfy`). This module covers:
  - application numbers "std-yy" + serial, and their per-year renumbering;
  - the repair of stored students when the screen loads, and the enrolments derived from
    the stored groups;
  - adding a student, and the list filter.
- **Booking** (`booking.dfy`): booking a student into a group, adding a group, recording a
  payment, and the balance, which is the course price minus what was paid.
- **Courses** (`courses.dfy`): level list edits with the first level protected, the form
  reset, submit validation, and the payload sent to the server.
- **Employees** (`employees.dfy`): append, delete, name search and role-name lookup.
- **Seeding** (`mock_data.dfy`, module `MockData`). `initializeData` writes each of its keys
  only when the key is absent. Code that can throw is modelled by an `Outcome`, such as
  reading `roles[1].id` from a list with one role.
- **Sign-in** (`auth_context.dfy`, module `Auth`). This module covers:
  - the role precedence and the token fallback of `login`;
  - what `login` writes;
  - `logout`;
  - the restore of a stored user at start-up.

Helper modules:

- `Wrappers`: the `Option` type.
- `Text`: the JavaScript string and number conversions the code relies on.
- `JsonValue`: parsed JSON values, with truthiness and property access.
- `Calendar`: `getDay()` on day numbers.

Screens that update state in place become classes, with `modifies` frames on their methods.
Their fields are the component state and the storage keys the screen writes. Their
methods are proved against the pure functions beside them.

## Model

| member | source | states |
|---|---|---|
| LocalStore.Read | src/utils/localStorage.ts:10-18 | A key that is missing or empty gives the default; a stored document gives back the value saved |
| LocalStore.ReadAfterWrite | src/utils/localStorage.ts:2-18 | Saving then reading the same key gives the saved value, and makes the key present; every other key reads and is present as before |
| LocalStore.Store.constructor | src/utils/localStorage.ts:2-18 | The store starts with the given entries |
| LocalStore.Store.Save | src/utils/localStorage.ts:2-8 | The key now holds the document; nothing else changes |
| LocalStore.Store.SetItem | src/context/AuthContext.tsx:107 | The key now holds the raw text; nothing else changes |
| LocalStore.Store.RemoveItem | src/context/AuthContext.tsx:134 | The key is gone; nothing else changes |
| LocalStore.CodeNumbers | src/utils/localStorage.ts:27-34 | One entry per existing code, in order |
| LocalStore.CodeNumbersIndex | src/utils/localStorage.ts:27-34 | Entry i is the number read from code i: codes without the prefix or a number give none |
| LocalStore.GenerateCode | src/utils/localStorage.ts:26-38 | The result starts with the prefix |
| LocalStore.MaxNumberBounds | src/utils/localStorage.ts:36 | The maximum bounds every number present |
| LocalStore.MaxNumberAttained | src/utils/localStorage.ts:36 | When some number is present, the maximum is one of them |
| LocalStore.MaxNumberDefault | src/utils/localStorage.ts:36 | With no number present, the maximum is 0 |
| LocalStore.MaxCodeBounds | src/utils/localStorage.ts:27-36 | Every number read from an existing code is at most the maximum |
| LocalStore.MaxCodeAttained | src/utils/localStorage.ts:27-36 | When some code is numbered, the maximum is the number of one of them |
| LocalStore.GeneratedNumberExceedsExisting | src/utils/localStorage.ts:26-38 | For every maximum, even a negative one, the new code reads back as a number, and every number read from an existing code is below it |
| LocalStore.FirstGeneratedCode | src/utils/localStorage.ts:36-37 | With no prefixed numeric code, the result is prefix + "001" |
| LocalStore.FirstCode | src/utils/localStorage.ts:37 | The code after 0 is prefix + "001" |
| LocalStore.IgnoredCode | src/utils/localStorage.ts:27-34 | A code without the prefix, or whose remainder is not numeric, does not change the result |
| LocalStore.SameMaxSameCode | src/utils/localStorage.ts:36-37 | The result depends only on the largest existing number |
| LocalStore.IgnoredCodeNumber | src/utils/localStorage.ts:27-36 | A code without a number leaves the maximum unchanged |
| LocalStore.GeneratedCodeReadsBack | src/utils/localStorage.ts:26-38 | Round trip: while the maximum is at least -1, the generated code parses back to maximum + 1 |
| LocalStore.CodeAfterReadsBack | src/utils/localStorage.ts:37 | The padded code after a number of at least -1 parses back to that number + 1 |
| LocalStore.CodeAfterNumber | src/utils/localStorage.ts:36-37 | For every maximum, the code after it reads back as maximum + 1, except that a one-digit negative successor such as "GRP0-4" reads back as 0 |
| LocalStore.NextGeneratedCode | src/utils/localStorage.ts:26-38 | Adding the generated code and generating again raises the number by exactly one |
| Text.NatToString | src/utils/localStorage.ts:37 | `toString` of a natural number: its digits, and no leading zero except for 0 |
| Text.NatToStringValue | src/utils/localStorage.ts:37 | The decimal text of n reads back as n |
| Text.NatToStringInjective | src/pages/Students.tsx:159 | Different numbers are written differently |
| Text.NatToStringAtLeastFourDigits | src/pages/Students.tsx:151-159 | Numbers from 1000 on have at least four digits |
| Text.PadStart | src/utils/localStorage.ts:37 | `padStart`: the result is at least the width long and ends with the text |
| Text.LeadingZerosValue | src/utils/localStorage.ts:32-37 | Leading zeros do not change a numeral's value |
| Text.ParseIntOfPadded | src/utils/localStorage.ts:32-37 | `parseInt` of a zero-padded numeral gives back its number |
| Text.ParseNumberOfNat | src/pages/Booking.tsx:91-98 | `Number` reads a natural number's decimal text as that number |
| Text.ToLower | src/pages/Employees.tsx:70-72 | Lower-casing keeps the length, moves each ASCII capital A-Z to its small letter and leaves every other character as it is |
| Text.ContainsAt | src/pages/Employees.tsx:70-72 | A piece found at a position is contained |
| Calendar.JsWeekday | src/pages/Groups.tsx:389-392 | `getDay()` is in 0..6 |
| Calendar.WeekdayCycle | src/pages/Groups.tsx:389-392 | The weekday moves on by one each day and repeats after seven days |
| JsonValue.Field | src/pages/Groups.tsx:119-136 | A property is found exactly when the value is an object holding the key |
| JsonValue.Filter | src/pages/Students.tsx:103 | An element is kept exactly when it is in the list and satisfies the predicate; order and multiplicity follow from FilterAppend and FilterSingle |
| JsonValue.FilterAppend | src/pages/Students.tsx:103 | Filtering a concatenation filters each part and concatenates the results, so the kept elements stay in order |
| JsonValue.FilterSingle | src/pages/Students.tsx:103 | A one-element list is kept whole when its element satisfies the predicate, and emptied otherwise |
| Groups.ConvertJsDayToId | src/pages/Groups.tsx:606-617 | 0..6 map into 1..7; everything else maps to -1, in both directions |
| Groups.IdToJsDay | src/pages/Groups.tsx:606-617 | The inverse mapping lands in 0..6 |
| Groups.ConvertJsDayRoundTrip | src/pages/Groups.tsx:606-617 | `convertJsDayToId` is a bijection from 0..6 onto 1..7, with IdToJsDay as its inverse |
| Groups.MatchingDays | src/pages/Groups.tsx:383-402 | The lecture days after the start up to a day are selected weekdays in that interval, strictly increasing |
| Groups.MatchingDaysComplete | src/pages/Groups.tsx:383-402 | No selected day of the interval is missed |
| Groups.MatchingDaysMonotone | src/pages/Groups.tsx:383-402 | A later day never has fewer lectures before it, and a lecture day has strictly more |
| Groups.EndDateUnique | src/pages/Groups.tsx:383-407 | A start date, a day set and a count fix the end date |
| Groups.SessionsIncludingStart | src/pages/Groups.tsx:334-337 | When the start is itself a lecture day, start-to-end holds count + 1 sessions, which is why `sessionsCount - 1` is used |
| Groups.ComputeEndDate | src/pages/Groups.tsx:383-407 | The walk ends iff the count is not positive or some selected entry is a weekday. Then the lecture dates are exactly the count of matching days after the start, and the last one is the end date |
| Groups.MondayWednesdayExample | src/pages/Groups.tsx:383-407 | From Monday 2024-01-01 on Mondays and Wednesdays, three lectures fall on Jan 3, 8 and 10, and the end is Jan 10 |
| Groups.MondayWednesdayFirstWeek | src/pages/Groups.tsx:383-402 | The first six days of that example hold one lecture only, on Jan 3 |
| Groups.MondayWednesdayQuietDays | src/pages/Groups.tsx:383-402 | Thursday to Sunday add no lecture |
| Groups.FindLevel | src/pages/Groups.tsx:330 | `find` by id: none iff no level has the id; otherwise the first level with the id |
| Groups.FindCourse | src/pages/Groups.tsx:345 | `find` by id: none iff no course has the id; otherwise the first course with the id |
| Groups.OrNum | src/pages/Groups.tsx:343 | `a || b` on numbers is zero iff both are, otherwise one of them |
| Groups.LectureCount | src/pages/Groups.tsx:327-362 | The fallback chain never yields 0 |
| Groups.LectureCountFromSessions | src/pages/Groups.tsx:334-337 | A truthy `sessionsCount` gives `sessionsCount - 1`, and 5 when that is 0 |
| Groups.LectureCountFromClassFields | src/pages/Groups.tsx:339-341 | A falsy `sessionsCount` and a truthy `classCount || classesCount` give that value |
| Groups.LectureCountFromCourseEntry | src/pages/Groups.tsx:343-362 | Otherwise the count is `sessionsCount || classCount || classesCount` of the level's entry in the first course with its course id, and 5 when that is 0 or missing |
| Groups.LectureCountUnknownLevel | src/pages/Groups.tsx:357-362 | An unknown level gives the default of 5 |
| Groups.LectureCountPositive | src/pages/Groups.tsx:334-365 | With no negative counts stored, the count is at least 1, so the walk always runs |
| Groups.WalkStart | src/pages/Groups.tsx:327-412 | The walk starts only with days selected, after a start-date or level edit |
| Groups.GroupDialog.constructor | src/pages/Groups.tsx:248-265 | The dialog opens on the empty form with no date error |
| Groups.GroupDialog.HandleChange | src/pages/Groups.tsx:313-462 | This method states four things: the edited field takes its value; a days edit clears both dates and the date error; a start-date or level edit with days selected sets the end date from ComputeEndDate; and a walk that would never end is reported and changes nothing |
| Groups.GroupDialog.HandleStudentSelect | src/pages/Groups.tsx:468-480 | Only the student ids change, toggled |
| Groups.GroupDialog.SelectStartDate | src/pages/Groups.tsx:1086-1122 | No days selected: only the error is shown. A day failing the weekday-id check clears the start date. Otherwise the error clears and the date goes through handleChange |
| Groups.CheckDay | src/pages/Groups.tsx:1019-1029 | Checking appends the day; unchecking removes every copy and keeps the rest |
| Groups.CheckDayKeepsJsDays | src/pages/Groups.tsx:1011-1029 | Checkbox-made day sets hold only `getDay()` numbers 0..6 |
| Groups.AcceptedOffSunday | src/pages/Groups.tsx:1098-1109 | Monday to Saturday, the picker accepts a date iff its weekday is selected |
| Groups.SundayNeverAccepted | src/pages/Groups.tsx:1098-1139 | A Sunday is never accepted from checkbox-made day sets, and is disabled once days are selected |
| Groups.OnlySundayBlocksCalendar | src/pages/Groups.tsx:1125-1142 | With Sunday the only lecture day, every date is disabled |
| Groups.RemoveAll | src/pages/Groups.tsx:474 | `filter(x => x !== id)` keeps exactly the other ids |
| Groups.ToggleStudentMembership | src/pages/Groups.tsx:468-480 | Toggling flips the id's membership and keeps every other id's |
| Groups.ToggleStudentTwice | src/pages/Groups.tsx:468-480 | Toggling twice restores membership, and gives back the same list when the id was absent |
| Groups.DaysChangeBlocksSubmit | src/pages/Groups.tsx:320-493 | After a days edit clears the dates, submit is refused |
| Groups.EmptyFormRefused | src/pages/Groups.tsx:486-493 | A new group's empty form is refused |
| Groups.Sub | src/pages/Groups.tsx:119-136 | `o?.key` is defined only on an object with the key |
| Groups.ExtractData | src/pages/Groups.tsx:111-147 | An array is returned as is. Otherwise the shapes are tried in the fixed order `data.items`, `data.results`, `items`, `results`, and the first truthy one is returned; with none, an array `data` or else `[]` |
| Groups.FirstTruthy | src/pages/Groups.tsx:119-136 | None iff every candidate is missing or falsy; otherwise the candidate at the first truthy position |
| Groups.FirstTruthyOfFour | src/pages/Groups.tsx:119-136 | The `if` chain over four candidates picks the same value as FirstTruthy |
| Groups.ExtractDataUnwraps | src/pages/Groups.tsx:111-147 | Round trip: a list wrapped in any of the six envelopes comes back unchanged |
| Groups.DataItemsFirst | src/pages/Groups.tsx:119-121 | A truthy `data.items` wins over everything after it |
| Groups.ExtractDataFallback | src/pages/Groups.tsx:143-146 | A response matching no shape gives `[]` |
| Attendance.TimeSlots | src/pages/Attendance.tsx:12-16 | 31 entries, entry i being TimeSlot(i) |
| Attendance.HourText | src/pages/Attendance.tsx:13-15 | Hours 8..23 are written with two digits and read back as themselves |
| Attendance.TimeSlotReadsBack | src/pages/Attendance.tsx:12-16 | Each slot is "HH:MM" and reads back as 8:00 plus 30 minutes per position |
| Attendance.TimeSlotsIncreasing | src/pages/Attendance.tsx:12-16 | Slot times are strictly increasing, so the slots are distinct |
| Attendance.TimeSlotsBounds | src/pages/Attendance.tsx:12-16 | The first slot is "08:00" and the last is "23:00" |
| Attendance.CellGroup | src/pages/Attendance.tsx:26 | None iff no group holds the slot; otherwise a group from the list that holds it (the first one) |
| Attendance.GetDayGroups | src/pages/Attendance.tsx:18-30 | The grid has exactly the labs' ids, each with every time slot, and each cell is CellGroup |
| Attendance.ActiveGroups | src/pages/Attendance.tsx:289 | A group is listed exactly when it is stored and its status is "active" |
| Attendance.ScheduledGroupIsActive | src/pages/Attendance.tsx:288-291 | A grid cell holds an active group that occupies it |
| Attendance.SessionNumber | src/pages/Attendance.tsx:271-274 | The number of stored sessions + 1 |
| Attendance.FindLevel | src/pages/Attendance.tsx:279 | `find` by id: none iff no level has the id; otherwise the first level with the id |
| Attendance.ShouldShowEndOptions | src/pages/Attendance.tsx:277-284 | False for an unknown level; otherwise true iff the sessions reached the level's lecture count |
| Attendance.EndReachedAfterSave | src/pages/Attendance.tsx:171-177 | True iff lectureCount > 0 and the current lecture >= lectureCount |
| Attendance.Put | src/pages/Attendance.tsx:97 | `att[id] = v` keeps the existing keys in place and adds a new key last |
| Attendance.PutMark | src/pages/Attendance.tsx:97 | After it the key reads v and the other keys read as before |
| Attendance.GroupStudents | src/pages/Attendance.tsx:95 | A student is listed exactly when it is stored and the group lists its id |
| Attendance.MarkAllMarks | src/pages/Attendance.tsx:95-114 | Each listed student gets the given mark and nobody else gets one |
| Attendance.FindStudent | src/pages/Attendance.tsx:129 | `find` by id: none iff no student has the id; otherwise the first student with the id |
| Attendance.AbsentMobiles | src/pages/Attendance.tsx:129 | A mobile is offered exactly when some absent mark's student is known and has that non-empty mobile; at most one per mark |
| Attendance.AbsentMobilesAppend | src/pages/Attendance.tsx:129 | The mobiles of two runs of marks are those of the first run followed by those of the second, so the mark order is kept |
| Attendance.AttendanceRecords | src/pages/Attendance.tsx:157-165 | A row is written exactly for each mark whose student is known, carrying the new lecture id, that student's application number and the mark; one row per mark when all are known |
| Attendance.AttendanceRecordsAppend | src/pages/Attendance.tsx:157-165 | The rows of two runs of marks are those of the first run followed by those of the second, so the mark order is kept |
| Attendance.IncrementDone | src/pages/Attendance.tsx:141-143 | Same length; groups with the id get `lecturesDone + 1`, others are unchanged |
| Attendance.CourseLevels | src/pages/Attendance.tsx:205 | A level is listed exactly when it is stored and belongs to the course |
| Attendance.InsertByNumber | src/pages/Attendance.tsx:205 | Insertion keeps a list sorted by level number, and the result is the list with the element added, as a multiset |
| Attendance.SortByNumber | src/pages/Attendance.tsx:205 | The result is sorted by number and is a permutation of the input |
| Attendance.FirstWithNumber | src/pages/Attendance.tsx:206 | `find` by level number: none iff no level has the number; otherwise the first level with it |
| Attendance.FirstWithNumberSorted | src/pages/Attendance.tsx:205-206 | Stable sorting does not change which level is found first for a number |
| Attendance.NextLevel | src/pages/Attendance.tsx:204-210 | None iff no level of the group's course has the target number; otherwise the first level in stored order that has both |
| Attendance.FirstOfCourseWithNumber | src/pages/Attendance.tsx:205-206 | Searching the filtered course levels finds the first level of the whole list belonging to the course with the number, since the filter keeps stored order |
| Attendance.SortedNextLevelIsNextLevel | src/pages/Attendance.tsx:204-206 | Sort-then-find equals find in stored order |
| Attendance.UpgradedGroup | src/pages/Attendance.tsx:212-221 | A copy of the group with the new id, code and level, status "active", the chosen start date and no end date |
| Attendance.UpgradedGroupNeverScheduled | src/pages/Attendance.tsx:212-221 | With no end date, the upgraded group occupies no grid cell on any day |
| Attendance.UnknownLevelPrefixesName | src/pages/Attendance.tsx:204-218 | An unknown current level targets level 1, and the new number is put in front of the name |
| Attendance.WithUpgraded | src/pages/Attendance.tsx:214-222 | The base list plus the upgraded group, coded after the base's codes |
| Attendance.Codes | src/pages/Attendance.tsx:214 | The groups' codes in order |
| Attendance.AttendanceScreen.constructor | src/pages/Attendance.tsx:82-91 | The screen reads the stored lists once; no dialog is open |
| Attendance.AttendanceScreen.OpenDialog | src/pages/Attendance.tsx:93-105 | Everyone in the group is marked present, the dialog's session number is the group's stored sessions + 1 (NumberCurrent), and the end-options check is reset |
| Attendance.AttendanceScreen.ToggleAll | src/pages/Attendance.tsx:108-114 | All the group's students get the same mark; with no dialog, nothing changes |
| Attendance.AttendanceScreen.SaveAttendance | src/pages/Attendance.tsx:127-178 | One session is appended; the group's `lecturesDone` rises by one; a lecture numbered prior sessions + 1 is recorded with its rows; the end options follow EndReachedAfterSave; and when the dialog was opened on the current sessions, the lecture and the session both carry the number the dialog showed |
| Attendance.AttendanceScreen.UpgradeGroupAsWritten | src/pages/Attendance.tsx:200-225 | As written: the mount-time groups plus the new group replace the stored list; with no next level, nothing is saved |
| Attendance.AttendanceScreen.UpgradeGroup | src/pages/Attendance.tsx:200-225 | Corrected: the stored groups plus the new group; with no next level, nothing is saved |
| Attendance.SaveKeepsSessionsNumbered | src/pages/Attendance.tsx:131-158 | When the stored sessions are numbered 1, 2, … and the saved one carries the dialog's number, they stay numbered, and that number is the lecture number prior sessions + 1 |
| Attendance.SaveAdvancesSessionNumber | src/pages/Attendance.tsx:131-274 | A save raises that group's session number by one and no other group's |
| Attendance.StaleUpgradeLosesLecturesDone | src/pages/Attendance.tsx:141-222 | After a save raises a group's `lecturesDone` in the store, the upgrade as written (WithUpgraded over the groups read at mount) writes it back one lower, while WithUpgraded over the stored groups keeps it |
| Attendance.UpgradeKeepsStoredGroups | src/pages/Attendance.tsx:222 | The corrected upgrade keeps every stored group and adds one, whose GRP code number exceeds that of every stored group |
| Students.SerialOf | src/pages/Students.tsx:151 | Matches `^std-(\d{2})(\d{4,})$` iff the id has at least 10 characters, "std-", then digits only |
| Students.MaxSerial | src/pages/Students.tsx:149-156 | The maximum is at least 1000 |
| Students.MaxSerialBounds | src/pages/Students.tsx:149-156 | Every counted serial is at most the maximum |
| Students.MaxSerialDefault | src/pages/Students.tsx:149 | With no counted serial, the maximum is 1000 |
| Students.FindMaxSerial | src/pages/Students.tsx:149-156 | The loop computes MaxSerial |
| Students.MaxSerialSkips | src/pages/Students.tsx:147-155 | A record without a counted serial leaves the maximum unchanged |
| Students.GenerateStudentIdAsWritten | src/pages/Students.tsx:142-159 | As written: the prefix uses the year unpadded |
| Students.SingleDigitYearRepeatsId | src/pages/Students.tsx:142-159 | As written, in a year below 10, storing the first id and generating again gives the same id |
| Students.AsWrittenSkips | src/pages/Students.tsx:147-159 | A record without a counted serial leaves the as-written id unchanged |
| Students.OneDigitYearId | src/pages/Students.tsx:145-159 | In a year below 10 the first id is too short for the pattern |
| Students.YearPrefix | src/pages/Students.tsx:145-147 | Corrected prefix: "std-" and two digits |
| Students.NewStudentId | src/pages/Students.tsx:142-159 | Starts with the year's prefix; its serial is the maximum + 1 |
| Students.IdAfterSerial | src/pages/Students.tsx:159 | After a two-digit-year prefix, the id matches the pattern with serial max + 1 |
| Students.GenerateStudentId | src/pages/Students.tsx:142-159 | The loop computes NewStudentId |
| Students.NewSerialExceedsExisting | src/pages/Students.tsx:150-158 | The new serial exceeds every same-year stored serial |
| Students.NewStudentIdFresh | src/pages/Students.tsx:142-159 | The new id differs from every stored student's id |
| Students.NewStudentIdMatchesAsWritten | src/pages/Students.tsx:145-159 | For years 10 to 99 the corrected id is exactly the id `generateStudentId` writes |
| Students.FirstStudentIdOfYear | src/pages/Students.tsx:149-159 | With no numbered id of the year, the id is prefix + "1001" |
| Students.TextLessIrreflexive | src/pages/Students.tsx:237 | Text `<` is irreflexive |
| Students.TextLessTotal | src/pages/Students.tsx:237 | Text `<` is total on different texts |
| Students.TextLessTransitive | src/pages/Students.tsx:237 | Text `<` is transitive |
| Students.SortsBeforeTotal | src/pages/Students.tsx:237 | The renumbering order is total and antisymmetric |
| Students.SortsBeforeTransitive | src/pages/Students.tsx:237 | The renumbering order is transitive |
| Students.SortsBeforeIrreflexive | src/pages/Students.tsx:237 | The renumbering order is irreflexive |
| Students.RankInjective | src/pages/Students.tsx:236-240 | Two students of one year get different ranks |
| Students.RenumberedIdsDistinct | src/pages/Students.tsx:235-240 | Within a year, renumbered ids are distinct, with serials 1001 up to 1000 + the year's count |
| Students.StudentObjects | src/pages/Students.tsx:220 | An array gives exactly `Filter` of its items by "truthy and an object", so every such item is kept in order; anything else gives `[]` |
| Students.WithId | src/pages/Students.tsx:239 | An object gets the given id |
| Students.CountRank | src/pages/Students.tsx:236-240 | The loop computes the student's rank in its year |
| Students.Renumber | src/pages/Students.tsx:236-240 | Each record gets the id of its rank in its year |
| Students.FixAllStudentIds | src/pages/Students.tsx:217-243 | The stored students are replaced by their renumbered copies |
| Students.NamedList | src/pages/Students.tsx:74-79 | Only entries with non-blank text id and name are kept |
| Students.FindById | src/pages/Students.tsx:104-105 | `find` with `===` on the id: none when no record matches; otherwise the first matching record |
| Students.Enrollments | src/pages/Students.tsx:103-116 | At most one enrolment per stored group |
| Students.EnrollmentsAreEnrolledGroups | src/pages/Students.tsx:103-116 | One enrolment per group listing the student, from such a group, with nothing paid and nothing left |
| Students.EnrollmentOwesNothing | src/pages/Students.tsx:106-114 | `paid` and `remaining` are 0, and `groupId` is the group's id |
| Students.RepairAll | src/pages/Students.tsx:86-117 | Each student is repaired; the save flag is set iff some repair set it |
| Students.LoadStudents | src/pages/Students.tsx:72-122 | The load throws iff there are students and the stored groups break it; otherwise one entry per student object |
| Students.RepairedStudentShape | src/pages/Students.tsx:87-116 | A repaired student lists exactly its enrolments and has an object guardian with text name, type and mobile |
| Students.FilteredStudents | src/pages/Students.tsx:126-135 | A student is listed exactly when it is stored and matches the search and both selections |
| Students.AllSelectionsShowSearchMatches | src/pages/Students.tsx:126-135 | With both selections at "__all__", exactly the search matches in order, all from the list |
| Students.Or | src/pages/Students.tsx:174-181 | `v || default` on text |
| Students.StudentsScreen.constructor | src/pages/Students.tsx:49-68 | Empty lists and the empty form |
| Students.StudentsScreen.Mount | src/pages/Students.tsx:72-122 | Branches and courses are filtered; students are loaded repaired and saved back iff flagged; nothing is shown or saved when the load throws |
| Students.StudentsScreen.AddStudent | src/pages/Students.tsx:161-203 | An empty name or mobile is refused; otherwise the new record, under NewStudentId, is appended, saved and shown, and the form resets |
| Students.AddedStudentIsNew | src/pages/Students.tsx:161-191 | The added id differs from every stored id, and the list grows by one |
| Booking.BookedGroups | src/pages/Booking.tsx:64-66 | Same length; the selected group gets the student appended; every other group is unchanged |
| Booking.BookingCounts | src/pages/Booking.tsx:64-66 | The student's count in the group rises by exactly one (duplicates allowed); other students' counts are unchanged |
| Booking.StudentPayments | src/pages/Booking.tsx:115-117 | Exactly the payments matching student and group |
| Booking.StudentPaymentsAppend | src/pages/Booking.tsx:115-117 | Filtering a concatenation filters each part, in order |
| Booking.TotalPaidAppend | src/pages/Booking.tsx:121 | The sum over a concatenation is the sum of the sums |
| Booking.FindGroup | src/pages/Booking.tsx:120 | `find` by id: none iff no group has the id; otherwise the first group with the id |
| Booking.FindCourse | src/pages/Booking.tsx:120 | `find` by id: none iff no course has the id; otherwise the first course with the id |
| Booking.CoursePrice | src/pages/Booking.tsx:120 | 0 when the group or its course is missing; otherwise the `totalPrice` of the first course with the group's course id, 0 when unset |
| Booking.PaymentLowersBalance | src/pages/Booking.tsx:119-123 | A matching payment of a lowers the balance by a; any other payment leaves it unchanged |
| Booking.NothingPaidOwesPrice | src/pages/Booking.tsx:119-123 | With no matching payment, the balance is the course price |
| Booking.NoMatchingPayments | src/pages/Booking.tsx:115-117 | No match gives an empty payment list |
| Booking.BookingScreen.constructor | src/pages/Booking.tsx:28-56 | The stored lists are read, with empty selections and closed dialogs |
| Booking.BookingScreen.Book | src/pages/Booking.tsx:58-68 | Booking happens iff both are selected; then BookedGroups is saved and the payment dialog opens; otherwise nothing changes |
| Booking.BookingScreen.AddGroup | src/pages/Booking.tsx:70-88 | All four fields are required; the group is appended with no students and saved, and the form resets |
| Booking.BookingScreen.SavePayment | src/pages/Booking.tsx:90-112 | An empty or non-numeric amount is refused; otherwise one "paid" payment is appended and saved, and the balance drops by the amount |
| Courses.OrZero | src/pages/Courses.tsx:226-228 | `n || 0` |
| Courses.LevelNamesDistinct | src/pages/Courses.tsx:434-437 | Different numbers give different level names |
| Courses.WithNewLevel | src/pages/Courses.tsx:432-448 | One more level, named "المستوى n+1" with zero numbers; earlier levels unchanged |
| Courses.NewLevelKeepsNumbering | src/pages/Courses.tsx:432-448 | Levels named after their positions stay so |
| Courses.ApplyEdit | src/pages/Courses.tsx:452 | Only the named field changes |
| Courses.ApplyEditTwice | src/pages/Courses.tsx:450-454 | Setting a field twice keeps the second value |
| Courses.ChangeTouchesOneLevel | src/pages/Courses.tsx:450-454 | Only level idx changes, and in it only the named field |
| Courses.RemovedLevels | src/pages/Courses.tsx:456-469 | Index 0 is refused (list unchanged); otherwise splice(idx, 1) |
| Courses.RemoveKeepsOthers | src/pages/Courses.tsx:456-469 | The first level is kept, exactly level idx is dropped, and the rest keep their order |
| Courses.FirstLevelSurvives | src/pages/Courses.tsx:457-465 | Any sequence of removals keeps the first level |
| Courses.ResetCourseForm | src/pages/Courses.tsx:152-171 | One level "المستوى 1" with zero numbers, and empty fields |
| Courses.DefaultLevelName | src/pages/Courses.tsx:154-160 | The default level's name is the literal "المستوى 1" |
| Courses.Rejected | src/pages/Courses.tsx:177-205 | The refusal reasons in order: missing name or category, no levels, a falsy duration |
| Courses.ResetFormRefused | src/pages/Courses.tsx:152-205 | A freshly reset form is refused for its zero duration |
| Courses.LevelsToPayload | src/pages/Courses.tsx:218-272 | One payload level per form level |
| Courses.PayloadLevels | src/pages/Courses.tsx:210-272 | When editing, a level keeps its id iff it had one; a new course sends no ids; names are kept and missing numbers become 0 |
| Courses.AcceptedPayloadHasDurations | src/pages/Courses.tsx:197-270 | Every level of an accepted form is sent with a non-zero duration |
| Courses.CourseDialog.constructor | src/pages/Courses.tsx:53-132 | The form starts with the default first level |
| Courses.CourseDialog.AddLevel | src/pages/Courses.tsx:432-448 | The levels become WithNewLevel of the old ones |
| Courses.CourseDialog.ChangeLevel | src/pages/Courses.tsx:450-454 | The levels become ChangedLevels |
| Courses.CourseDialog.RemoveLevel | src/pages/Courses.tsx:456-469 | Refused iff idx is 0; the levels become RemovedLevels |
| Courses.CourseDialog.ResetForm | src/pages/Courses.tsx:152-171 | The form is reset and edit mode is off |
| Courses.CourseDialog.Edit | src/pages/Courses.tsx:327-338 | The course is copied into the form, and edit mode opens |
| Courses.CourseDialog.Submit | src/pages/Courses.tsx:174-318 | A refused form changes nothing; otherwise the edit or create payload is sent, and the form resets unless the call failed |
| Employees.NewEmployee | src/pages/Employees.tsx:105-116 | Every text field of the form is copied, with the generated id; a given salary or amount is kept, and a NaN one becomes 0 |
| Employees.WithoutId | src/pages/Employees.tsx:144-147 | Exactly the employees with another id |
| Employees.WithoutIdAppend | src/pages/Employees.tsx:145 | Deleting from a concatenation deletes from each part, in order |
| Employees.WithoutAbsentId | src/pages/Employees.tsx:145 | Deleting an absent id changes nothing |
| Employees.DeleteIdempotent | src/pages/Employees.tsx:144-147 | Deleting twice equals deleting once |
| Employees.DeleteUndoesAdd | src/pages/Employees.tsx:119-145 | Deleting a just-added employee with a fresh id restores the list |
| Employees.Filtered | src/pages/Employees.tsx:70-72 | Exactly the employees whose lower-cased name contains the lower-cased term |
| Employees.EmptySearchShowsAll | src/pages/Employees.tsx:70-72 | The empty term shows everyone, in order |
| Employees.OwnNameFound | src/pages/Employees.tsx:70-72 | Searching for a name in any case finds its employee |
| Employees.RoleName | src/pages/Employees.tsx:156-159 | "غير معروف" when no role has the id; otherwise the name of the first role with the id, or "غير معروف" when that name is empty |
| Employees.EmployeesScreen.constructor | src/pages/Employees.tsx:42-67 | The stored lists and the initial form |
| Employees.EmployeesScreen.Submit | src/pages/Employees.tsx:92-141 | Refused iff name, nationalId or roleId is empty; otherwise one employee is appended and saved, and the form resets to "active", "monthly" and zeros |
| Employees.EmployeesScreen.Delete | src/pages/Employees.tsx:144-147 | The list becomes WithoutId and is saved |
| MockData.IdAt | src/utils/mockData.ts:269-312 | `x[i].id` throws iff the element is undefined or null; otherwise it is the element's id |
| MockData.InitializeKeepsExisting | src/utils/mockData.ts:166-406 | A key already present, or one the seeding never writes, is left exactly as it was |
| MockData.InitializeFillsKeys | src/utils/mockData.ts:166-406 | Governorates, roles, departments and branches are always present afterwards; the five lists are too when seeding completed |
| MockData.InitializeIdempotent | src/utils/mockData.ts:137-407 | Running the seeding again changes nothing and stops at the same point |
| MockData.LabsFromFirstBranch | src/utils/mockData.ts:258-281 | Where labs were absent: labs are stored iff branches are a non-empty list with a readable first entry, and both labs carry its id |
| MockData.EmployeesFromFirstRoles | src/utils/mockData.ts:286-315 | Where employees were absent: stored ones carry roles[0].id and roles[1].id; with too few roles there are none |
| MockData.CoursesFromFirstDepartments | src/utils/mockData.ts:320-384 | Where courses were absent: stored ones carry departments[0].id and departments[1].id; with too few departments there are none |
| MockData.AdminRoleHasEveryPermission | src/utils/mockData.ts:171-213 | Three roles; ROL001 has view, add, edit and delete on each of 12 distinct screens |
| MockData.FirstCourseLevels | src/utils/mockData.ts:320-364 | The first course has three levels numbered 1, 2, 3 |
| MockData.SourceDefaultsReadable | src/utils/mockData.ts:171-254 | The default roles, departments and branches are arrays without null entries |
| MockData.OneRoleStopsSeeding | src/utils/mockData.ts:286-315 | As written, one stored role makes `roles[1].id` throw: seeding stops with no employees, courses, students or payments |
| MockData.CorrectedSeedCompletes | src/utils/mockData.ts:137-407 | With the corrected guard, the seeding completes whenever the stored lists are readable |
| MockData.PutIfAbsentIn | src/utils/mockData.ts:166-168 | The store becomes PutIfAbsent of the old one |
| MockData.SeedLabsIn | src/utils/mockData.ts:258-281 | Matches SeedLabs: it throws iff the step throws, and then the store is unchanged |
| MockData.SeedEmployeesIn | src/utils/mockData.ts:286-315 | Matches SeedEmployees in the same way |
| MockData.SeedCoursesIn | src/utils/mockData.ts:320-384 | Matches SeedCourses in the same way |
| MockData.InitializeWith | src/utils/mockData.ts:137-407 | The store and the completion flag are those of Initialize |
| MockData.InitializeData | src/utils/mockData.ts:137-407 | `initializeData` with the source's literal defaults |
| Auth.TokenOf | src/context/AuthContext.tsx:63-71 | Non-empty: the token if given, else accessToken if given, else "test_token_for_development" |
| Auth.RoleOf | src/context/AuthContext.tsx:77-86 | Admin beats Teacher, which beats Student, all iff the name is present; otherwise employee |
| Auth.UserOf | src/context/AuthContext.tsx:89-97 | accessToken is the normalised token and role is RoleOf; the name falls back to the typed name; id, email, roles and expiresIn are copied |
| Auth.UserJson | src/context/AuthContext.tsx:104 | An object with the user's accessToken, name and role; id, email, roles and expiresIn are present exactly when defined and then hold the user's values; no other key is written |
| Auth.RoleList | src/context/AuthContext.tsx:104 | The role names as a JSON array of texts, one per name, in order |
| Auth.Restored | src/context/AuthContext.tsx:35-41 | A user is restored only from a present, truthy stored value |
| Auth.RestoreAfterLogin | src/context/AuthContext.tsx:35-107 | After a login's writes, a restart restores that user, whose accessToken equals the "token" key |
| Auth.RestoreAfterLogout | src/context/AuthContext.tsx:35-134 | After logout, a restart restores nobody |
| Auth.AuthProvider.constructor | src/context/AuthContext.tsx:30-41 | The user is Restored, and authenticated iff one was restored |
| Auth.AuthProvider.Login | src/context/AuthContext.tsx:44-124 | This method states three things: it succeeds iff the call returned with no error and with data; on failure nothing changes; on success it writes the user key and the "token" key, sets the user and isAuthenticated |
| Auth.AuthProvider.Logout | src/context/AuthContext.tsx:126-142 | The user is cleared and not authenticated; only the user key is removed, and the "token" key stays |

## Left out

- The REST back end (`coreApi`, axios interceptors): server answers and failures are
  method parameters (`Auth.AuthProvider.Login`, `Courses.CourseDialog.Submit`).
  `src/api/coreTypes.ts` is not part of this model, so the answer types carry only the
  fields the code reads.
- Randomness and the clock are parameters:
  - `generateId`, `randomPassword`, `Date.now`, the current year and the ISO time of a
    payment;
  - MockData takes the ids as an `IdSource`, one slot per call site.
- Dates are day numbers. Time zones, `toISOString`, date-fns formatting and the noon
  adjustment of the picker are not modelled.
- JSX rendering, toasts, dialogs, WhatsApp `window.open`, `FileReader` upload, `setTimeout`,
  page reloads and the logout redirect.
- `getSessionStatus` uses the wall clock and is not modelled.
  `calculateTotalPrice`/`calculateTotalDuration` are floating point and are not modelled;
  payment amounts and prices are integers.
- Numbers are unbounded integers. JavaScript numbers lose precision past 2^53, for code
  numbers, serials and amounts alike; that loss is not modelled.
- A failing `setItem` (quota) and the `try/catch` around it are not modelled.
- Raw text under a key holding a JSON document is read as the default. Only the "token"
  key is written raw, and it is never read back here.
- `JSON.stringify` of a value holding `undefined` inside arrays is not modelled; records
  drop undefined fields, as `WithOpt` does.
- Text is compared by code point, not by UTF-16 code unit; the two agree on the
  Basic Multilingual Plane. `toLowerCase` covers ASCII letters only.
- Students.Renumber: ties between equal sort keys keep list order. The source's
  comparator answers -1 for equal keys, so the engine's behaviour is left open there.
- Students.FixAllStudentIds: each student's year and sort key are given as inputs; the
  derivation from `createdAt`/`birthDate` dates is not modelled.
- Courses.CourseDialog.ChangeLevel: requires idx inside the level list. The form only
  edits the levels it shows; an index past the end, which JavaScript would fill with
  holes, is not modelled.
- Courses: after a successful submit the course list is refreshed from the server,
  which is not modelled.
- MockData: a `length` property that is not a number is taken as not positive.
- MockData.InitializeData: the literal defaults are built by `SourceDefaults`; the lemmas
  are stated for any `Defaults` and, for the literal records, on the functions building
  them.
- Groups: the two copies of the walk in `handleChange` are one method; the second copy
  does not collect the lecture dates.
- Students.FilteredStudents: a truthy `name`, `mobile` or `id` that is not text, or a
  `groups` that is not an array, makes the source throw a TypeError; the model treats such a
  record as not matching. A `groups` property set on an array-valued record is dropped.
- Attendance.WithUpgraded: groups are typed records whose code is always text. A group
  stored without a code, as Booking's add-group dialog writes, would make `generateCode`
  throw on `code.startsWith`; that case is not modelled.
- Booking.BookingScreen.SavePayment: the amount is read by `ParseNumber`, which accepts
  decimal integers only; `Number` also accepts forms such as "1e3", "1.5" and "Infinity",
  which the model refuses.
- Students.StudentsScreen.AddStudent: uses the corrected id. By
  NewStudentIdMatchesAsWritten it equals the id the source writes for years 10 to 99; for
  years below 10 it differs, as the first row of the findings shows.
- Thin CRUD screens (Cities, Departments, Branches, Labs, Instructors, Index, Settings),
  the sidebar menu and `seedArabicData.ts` are outside the model.

## Findings

| source | as written | input that shows it | evidently intended | confidence | as-written member | corrected member |
|---|---|---|---|---|---|---|
| src/pages/Students.tsx:145-159 | The prefix is `std-${year % 100}`, so a year below 10 is written with one digit, and the ids made never match `^std-(\d{2})(\d{4,})$` | Year 2105, no stored id of that year: the first id is "std-51001"; after storing it, the next id is "std-51001" again | Pad the year to two digits, so each new serial exceeds the stored ones | not executed | Students.SingleDigitYearRepeatsId | Students.NewStudentIdFresh |
| src/pages/Attendance.tsx:222 | The upgrade writes `[...groups, newGroup]`, where `groups` is the state read at mount, over the stored list | Mount with a group at lecturesDone 0, save a session (stored 1), then upgrade: the stored group is back at 0 | Append to the stored groups, as the save handler reads them | not executed | Attendance.StaleUpgradeLosesLecturesDone | Attendance.UpgradeKeepsStoredGroups |
| src/utils/mockData.ts:288-367 | Employees are seeded when `roles.length > 0` but read `roles[1].id`; courses read `departments[1].id` under `departments.length > 0` | Stored roles `[{"id": "role-1"}]` with no employees stored: a TypeError stops the seeding before the courses and the empty lists | Require two roles or departments before seeding the pair | not executed | MockData.OneRoleStopsSeeding | MockData.CorrectedSeedCompletes |

The corrected members are used throughout:

- `Students.StudentsScreen.AddStudent` uses `NewStudentId`.
- `Attendance.AttendanceScreen.UpgradeGroup` appends to the stored groups.
- `MockData.Initialize` takes the guard as its `fixed` argument. Its lemmas hold for both
  guards, and `fixed = true` is the corrected one.
