/** The attendance screen (src/pages/Attendance.tsx): the daily grid of half-hour slots per
    lab, the session bookkeeping done when attendance is saved, and the upgrade of a group to
    the next level of its course. Dates are day numbers: the stored "YYYY-MM-DD" texts compare
    in the same order as the days they name. */
module Attendance {
  import opened Wrappers
  import opened Text
  import opened Calendar
  import LocalStore

  // ---------------------------------------------------------------------
  // Time slots
  // ---------------------------------------------------------------------

  /** The `i`-th entry of `TIME_SLOTS`: the hour 8 + i/2 padded to two digits, then ":00" or
      ":30". */
  function TimeSlot(i: nat): string
    requires i < 31
  {
    PadStart(NatToString(8 + i / 2), 2, '0') + ":" + (if i % 2 == 0 then "00" else "30")
  }

  /** `TIME_SLOTS`. */
  function TimeSlots(): (r: seq<string>)
    ensures |r| == 31
    ensures forall i :: 0 <= i < 31 ==> r[i] == TimeSlot(i)
  {
    seq(31, i requires 0 <= i < 31 => TimeSlot(i))
  }

  /** The minutes after midnight an "HH:MM" text names. */
  function SlotMinutes(s: string): Option<int> {
    if |s| == 5 && s[2] == ':' && AllDigits(s[..2]) && AllDigits(s[3..]) then
      Some(DigitsValue(s[..2]) * 60 + DigitsValue(s[3..]))
    else None
  }

  /** An hour of the table is written with two digits and reads back as itself. */
  lemma HourText(h: nat)
    requires 8 <= h <= 23
    ensures |PadStart(NatToString(h), 2, '0')| == 2
    ensures AllDigits(PadStart(NatToString(h), 2, '0'))
    ensures DigitsValue(PadStart(NatToString(h), 2, '0')) == h
  {
    var t := NatToString(h);
    if h >= 10 {
      assert t == NatToString(h / 10) + [DigitChar(h % 10)];
    }
    var p := PadStart(t, 2, '0');
    assert p == seq(|p| - |t|, _ => '0') + t;
    LeadingZerosValue(|p| - |t|, t);
    NatToStringValue(h);
  }

  /** Reading an "HH:MM" text made of two digit pairs. */
  lemma SlotMinutesOf(hh: string, mm: string)
    requires |hh| == 2 && |mm| == 2 && AllDigits(hh) && AllDigits(mm)
    ensures SlotMinutes(hh + ":" + mm) == Some(DigitsValue(hh) * 60 + DigitsValue(mm))
  {
    var s := hh + ":" + mm;
    assert |s| == 5 && s[2] == ':';
    assert s[..2] == hh;
    assert s[3..] == mm;
    assert AllDigits(s[..2]) && AllDigits(s[3..]);
  }

  /** Round trip: every slot is a five-character "HH:MM" text that reads back as 8:00 plus
      30 minutes per position. */
  lemma TimeSlotReadsBack(i: nat)
    requires i < 31
    ensures |TimeSlot(i)| == 5 && TimeSlot(i)[2] == ':'
    ensures SlotMinutes(TimeSlot(i)) == Some(480 + 30 * i)
  {
    var h := 8 + i / 2;
    var hh := PadStart(NatToString(h), 2, '0');
    var mm := if i % 2 == 0 then "00" else "30";
    assert TimeSlot(i) == hh + ":" + mm;
    HourText(h);
    MinuteText(i % 2 == 0);
    SlotMinutesOf(hh, mm);
    SlotArithmetic(i);
  }

  /** Hour 8 + i/2 and minute 0 or 30 make 480 + 30 i minutes. */
  lemma SlotArithmetic(i: nat)
    ensures (8 + i / 2) * 60 + (if i % 2 == 0 then 0 else 30) == 480 + 30 * i
  {
    assert i == 2 * (i / 2) + i % 2;
  }

  lemma MinuteText(even: bool)
    ensures var mm := if even then "00" else "30";
            AllDigits(mm) && DigitsValue(mm) == if even then 0 else 30
  {
    if even {
      assert DigitsValue("00") == DigitsValue("0") * 10 + 0;
    } else {
      assert DigitsValue("30") == DigitsValue("3") * 10 + 0;
    }
  }

  /** The slots run from "08:00" to "23:00" in strictly increasing times, so no two are equal. */
  lemma TimeSlotsIncreasing(i: nat, j: nat)
    requires i < j < 31
    ensures SlotMinutes(TimeSlots()[i]).Some? && SlotMinutes(TimeSlots()[j]).Some?
            && SlotMinutes(TimeSlots()[i]).value < SlotMinutes(TimeSlots()[j]).value
    ensures TimeSlots()[i] != TimeSlots()[j]
  {
    TimeSlotReadsBack(i);
    TimeSlotReadsBack(j);
    assert TimeSlots()[i] == TimeSlot(i) && TimeSlots()[j] == TimeSlot(j);
  }

  lemma TimeSlotsBounds()
    ensures TimeSlots()[0] == "08:00" && TimeSlots()[30] == "23:00"
  {
    assert TimeSlots()[0] == TimeSlot(0) && TimeSlots()[30] == TimeSlot(30);
    assert 8 + 0 / 2 == 8 && 0 % 2 == 0 && 8 + 30 / 2 == 23 && 30 % 2 == 0;
    assert NatToString(8) == "8";
    assert NatToString(23) == "23" by {
      assert NatToString(23) == NatToString(2) + [DigitChar(3)];
    }
    assert PadStart("8", 2, '0') == "08";
    assert PadStart("23", 2, '0') == "23";
  }

  // ---------------------------------------------------------------------
  // Records
  // ---------------------------------------------------------------------

  /** A group from "latin_academy_groups"; fields the screen only copies (branch, duration,
      price) are not modelled. An empty date text is `None`; an absent `lecturesDone` or
      `lectureCount` is 0, which the code treats the same way. */
  datatype Group = Group(
    id: string,
    code: string,
    name: string,
    courseId: string,
    levelId: string,
    labId: string,
    instructorId: string,
    weeklyDays: seq<string>,
    startTime: string,
    startDate: Option<Day>,
    endDate: Option<Day>,
    status: string,
    studentIds: seq<string>,
    lecturesDone: int,
    lectureCount: int)

  /** A level from "latin_academy_levels"; the record may carry the course it belongs to. */
  datatype CourseLevel = CourseLevel(id: string, courseId: Option<string>, levelNumber: int, lectureCount: int)

  datatype Lab = Lab(id: string, branchId: string)

  datatype Student = Student(id: string, name: string, mobile: string, applicationNumber: string)

  /** The attendance of a session: student id and present flag, in the order the keys were
      first set (the student ids are not array-index-like, so JavaScript keeps that order). */
  type Marks = seq<(string, bool)>

  /** An entry of "latin_academy_sessions_<group id>". */
  datatype Session = Session(date: Day, sessionNumber: int, attendance: Marks, image: string)

  /** An entry of "latin_academy_lectures". */
  datatype Lecture = Lecture(id: string, groupId: string, date: Day, instructorId: string, lectureNumber: int, image: string)

  /** An entry of "latin_academy_lecture_attendance". */
  datatype AttendanceRecord = AttendanceRecord(lectureId: string, studentApplicationNumber: string, present: bool)

  // ---------------------------------------------------------------------
  // The day grid
  // ---------------------------------------------------------------------

  /** `getArabicDayName(day)`. */
  function ArabicDayName(w: int): string
    requires 0 <= w < 7
  {
    ["الأحد", "الاثنين", "الثلاثاء", "الأربعاء", "الخميس", "الجمعة", "السبت"][w]
  }

  /** Group `g` holds the slot `slot` of lab `labId` on `date`: same lab and start time, the
      date's weekday name among its weekly days, and the date within its dates. An empty
      start date compares below every date; an empty end date compares below every date,
      so such a group never holds a slot. */
  predicate Occupies(g: Group, labId: string, slot: string, date: Day) {
    g.labId == labId && g.startTime == slot && ArabicDayName(JsWeekday(date)) in g.weeklyDays
    && (g.startDate.None? || g.startDate.value <= date)
    && g.endDate.Some? && date <= g.endDate.value
  }

  /** `groups.find(g => …) || null`: the first group in list order that holds the slot. */
  function CellGroup(groups: seq<Group>, labId: string, slot: string, date: Day): (r: Option<Group>)
    ensures r.None? <==> forall i :: 0 <= i < |groups| ==> !Occupies(groups[i], labId, slot, date)
    ensures r.Some? ==> exists i :: 0 <= i < |groups| && groups[i] == r.value && Occupies(r.value, labId, slot, date)
                          && forall j :: 0 <= j < i ==> !Occupies(groups[j], labId, slot, date)
  {
    if |groups| == 0 then None
    else if Occupies(groups[0], labId, slot, date) then Some(groups[0])
    else
      var r := CellGroup(groups[1..], labId, slot, date);
      assert forall i :: 0 <= i < |groups| - 1 ==> groups[1..][i] == groups[i + 1];
      r
  }

  /** The grid row of one lab: every time slot, with the group that holds it. */
  type Grid = map<string, map<string, Option<Group>>>

  /** `getDayGroups(groups, date, labs)`: for each lab and each time slot, the first group
      holding it. */
  method GetDayGroups(groups: seq<Group>, date: Day, labs: seq<Lab>) returns (grid: Grid)
    ensures forall id :: id in grid <==> exists k :: 0 <= k < |labs| && labs[k].id == id
    ensures forall id, slot :: id in grid ==> (slot in grid[id] <==> slot in TimeSlots())
    ensures forall id, slot :: id in grid && slot in grid[id] ==> grid[id][slot] == CellGroup(groups, id, slot, date)
  {
    var slots := TimeSlots();
    grid := map[];
    var li := 0;
    while li < |labs|
      invariant 0 <= li <= |labs|
      invariant forall id :: id in grid <==> exists k :: 0 <= k < li && labs[k].id == id
      invariant forall id, slot :: id in grid ==> (slot in grid[id] <==> slot in slots)
      invariant forall id, slot :: id in grid && slot in grid[id] ==> grid[id][slot] == CellGroup(groups, id, slot, date)
    {
      var lab := labs[li];
      var row: map<string, Option<Group>> := map[];
      var si := 0;
      while si < |slots|
        invariant 0 <= si <= |slots|
        invariant forall slot :: slot in row <==> slot in slots[..si]
        invariant forall slot :: slot in row ==> row[slot] == CellGroup(groups, lab.id, slot, date)
      {
        row := row[slots[si] := CellGroup(groups, lab.id, slots[si], date)];
        assert slots[..si + 1] == slots[..si] + [slots[si]];
        si := si + 1;
      }
      assert slots[..si] == slots;
      grid := grid[lab.id := row];
      li := li + 1;
    }
  }

  /** The screen builds the grid from the groups whose status is "active". */
  function ActiveGroups(groups: seq<Group>): (r: seq<Group>)
    ensures forall g :: g in r <==> g in groups && g.status == "active"
  {
    if |groups| == 0 then []
    else (if groups[0].status == "active" then [groups[0]] else []) + ActiveGroups(groups[1..])
  }

  /** A cell of the screen's grid holds an active group that occupies it. */
  lemma ScheduledGroupIsActive(groups: seq<Group>, labId: string, slot: string, date: Day)
    requires CellGroup(ActiveGroups(groups), labId, slot, date).Some?
    ensures var g := CellGroup(ActiveGroups(groups), labId, slot, date).value;
            g in groups && g.status == "active" && Occupies(g, labId, slot, date)
  {
  }

  // ---------------------------------------------------------------------
  // Session bookkeeping
  // ---------------------------------------------------------------------

  /** The sessions stored for a group; a missing key reads as the empty list. */
  function SessionsOf(sessions: map<string, seq<Session>>, groupId: string): seq<Session> {
    if groupId in sessions then sessions[groupId] else []
  }

  /** `getSessionNumber(groupId)`: the number of the next session. */
  function SessionNumber(sessions: map<string, seq<Session>>, groupId: string): (n: int)
    ensures n >= 1 && n == |SessionsOf(sessions, groupId)| + 1
  {
    |SessionsOf(sessions, groupId)| + 1
  }

  /** `levels.find(l => l.id === id)`. */
  function FindLevel(levels: seq<CourseLevel>, id: string): (r: Option<CourseLevel>)
    ensures r.None? <==> forall i :: 0 <= i < |levels| ==> levels[i].id != id
    ensures r.Some? ==> exists i :: 0 <= i < |levels| && levels[i] == r.value && r.value.id == id
                          && forall j :: 0 <= j < i ==> levels[j].id != id
  {
    if |levels| == 0 then None
    else if levels[0].id == id then Some(levels[0])
    else
      var r := FindLevel(levels[1..], id);
      assert forall i :: 0 <= i < |levels| - 1 ==> levels[1..][i] == levels[i + 1];
      r
  }

  /** `shouldShowEndOptions(group)`: false when the group's level is unknown; otherwise whether
      the recorded sessions reached the level's lecture count. */
  function ShouldShowEndOptions(levels: seq<CourseLevel>, sessions: map<string, seq<Session>>, g: Group): (show: bool)
    ensures FindLevel(levels, g.levelId).None? ==> !show
    ensures FindLevel(levels, g.levelId).Some? ==>
              (show <==> |SessionsOf(sessions, g.id)| >= FindLevel(levels, g.levelId).value.lectureCount)
  {
    match FindLevel(levels, g.levelId)
    case None => false
    case Some(l) => |SessionsOf(sessions, g.id)| >= l.lectureCount
  }

  /** After a save, end options appear when the session just recorded reaches the group's own
      lecture count, which must be set. */
  function EndReachedAfterSave(g: Group, priorSessions: nat): (reached: bool)
    ensures reached <==> g.lectureCount > 0 && priorSessions + 1 >= g.lectureCount
  {
    priorSessions + 1 >= g.lectureCount && g.lectureCount > 0
  }

  /** `att[id] = v` on an attendance object: an existing key keeps its place and takes the
      new value; a new key goes last. */
  function Put(marks: Marks, id: string, v: bool): (r: Marks)
    ensures |r| == if exists i :: 0 <= i < |marks| && marks[i].0 == id then |marks| else |marks| + 1
    ensures forall i :: 0 <= i < |marks| ==> r[i].0 == marks[i].0
  {
    if |marks| == 0 then [(id, v)]
    else if marks[0].0 == id then [(id, v)] + marks[1..]
    else
      var r := [marks[0]] + Put(marks[1..], id, v);
      assert forall i :: 0 <= i < |marks| - 1 ==> marks[1..][i] == marks[i + 1];
      r
  }

  /** The value an attendance object gives a key, if it has it. */
  function MarkOf(marks: Marks, id: string): Option<bool> {
    if |marks| == 0 then None
    else if marks[0].0 == id then Some(marks[0].1)
    else MarkOf(marks[1..], id)
  }

  lemma {:induction false} PutMark(marks: Marks, id: string, v: bool, other: string)
    ensures MarkOf(Put(marks, id, v), id) == Some(v)
    ensures other != id ==> MarkOf(Put(marks, id, v), other) == MarkOf(marks, other)
  {
    if |marks| > 0 && marks[0].0 != id {
      PutMark(marks[1..], id, v, other);
    }
  }

  /** `students.filter(s => group.studentIds.includes(s.id))`. */
  function GroupStudents(students: seq<Student>, ids: seq<string>): (r: seq<Student>)
    ensures forall s :: s in r <==> s in students && s.id in ids
  {
    if |students| == 0 then []
    else (if students[0].id in ids then [students[0]] else []) + GroupStudents(students[1..], ids)
  }

  /** `forEach(s => { att[s.id] = present; })` over a list of students, from an empty object. */
  function MarkAll(students: seq<Student>, present: bool): Marks {
    if |students| == 0 then []
    else Put(MarkAll(students[..|students| - 1], present), students[|students| - 1].id, present)
  }

  /** After marking everyone, each of the students has exactly the given mark and no one else
      has any. */
  lemma {:induction false} MarkAllMarks(students: seq<Student>, present: bool, id: string)
    ensures (exists i :: 0 <= i < |students| && students[i].id == id) ==> MarkOf(MarkAll(students, present), id) == Some(present)
    ensures (forall i :: 0 <= i < |students| ==> students[i].id != id) ==> MarkOf(MarkAll(students, present), id) == None
  {
    if |students| > 0 {
      var init := students[..|students| - 1];
      var last := students[|students| - 1];
      var before := MarkAll(init, present);
      assert MarkAll(students, present) == Put(before, last.id, present);
      MarkAllMarks(init, present, id);
      PutMark(before, last.id, present, id);
      if last.id != id {
        assert MarkOf(MarkAll(students, present), id) == MarkOf(before, id);
        assert forall i :: 0 <= i < |init| ==> init[i] == students[i];
        if exists i :: 0 <= i < |students| && students[i].id == id {
          var i :| 0 <= i < |students| && students[i].id == id;
          assert i < |init| && init[i].id == id;
        }
      }
    }
  }

  /** `students.find(s => s.id === id)`. */
  function FindStudent(students: seq<Student>, id: string): (r: Option<Student>)
    ensures r.None? <==> forall i :: 0 <= i < |students| ==> students[i].id != id
    ensures r.Some? ==> exists i :: 0 <= i < |students| && students[i] == r.value && r.value.id == id
                          && forall j :: 0 <= j < i ==> students[j].id != id
  {
    if |students| == 0 then None
    else if students[0].id == id then Some(students[0])
    else
      var r := FindStudent(students[1..], id);
      assert forall i :: 0 <= i < |students| - 1 ==> students[1..][i] == students[i + 1];
      r
  }

  /** The mobiles of the absent students, in the order of the marks (a student that is
      unknown or has no mobile is skipped), to whom the screen offers a WhatsApp message. */
  function AbsentMobiles(marks: Marks, students: seq<Student>): (r: seq<string>)
    ensures |r| <= |marks|
    ensures forall m :: m in r <==>
              exists k :: 0 <= k < |marks| && !marks[k].1 && FindStudent(students, marks[k].0).Some?
                          && FindStudent(students, marks[k].0).value.mobile == m && m != ""
    ensures forall m :: m in r ==> m != "" && exists s :: s in students && s.mobile == m
  {
    if |marks| == 0 then []
    else
      var f := FindStudent(students, marks[0].0);
      var rest := AbsentMobiles(marks[1..], students);
      assert forall k :: 0 <= k < |marks| - 1 ==> marks[1..][k] == marks[k + 1];
      (if !marks[0].1 && f.Some? && f.value.mobile != "" then [f.value.mobile] else []) + rest
  }

  /** The mobiles keep the order of the marks: those of a concatenation are those of each
      part. */
  lemma {:induction false} AbsentMobilesAppend(a: Marks, b: Marks, students: seq<Student>)
    ensures AbsentMobiles(a + b, students) == AbsentMobiles(a, students) + AbsentMobiles(b, students)
  {
    if |a| > 0 {
      assert (a + b)[0] == a[0];
      assert (a + b)[1..] == a[1..] + b;
      AbsentMobilesAppend(a[1..], b, students);
    } else {
      assert a + b == b;
    }
  }

  /** The attendance rows saved for a new lecture: one per mark of a known student, in the
      order of the marks, carrying the student's application number and the mark. */
  function AttendanceRecords(marks: Marks, students: seq<Student>, lectureId: string): (r: seq<AttendanceRecord>)
    ensures |r| <= |marks|
    ensures (forall k :: 0 <= k < |marks| ==> FindStudent(students, marks[k].0).Some?) ==> |r| == |marks|
    ensures forall x :: x in r <==>
              exists k :: 0 <= k < |marks| && FindStudent(students, marks[k].0).Some?
                          && x == AttendanceRecord(lectureId, FindStudent(students, marks[k].0).value.applicationNumber, marks[k].1)
  {
    if |marks| == 0 then []
    else
      var f := FindStudent(students, marks[0].0);
      var rest := AttendanceRecords(marks[1..], students, lectureId);
      assert forall k :: 0 <= k < |marks| - 1 ==> marks[1..][k] == marks[k + 1];
      (if f.Some? then [AttendanceRecord(lectureId, f.value.applicationNumber, marks[0].1)] else []) + rest
  }

  /** The rows keep the order of the marks: those of a concatenation are those of each part. */
  lemma {:induction false} AttendanceRecordsAppend(a: Marks, b: Marks, students: seq<Student>, lectureId: string)
    ensures AttendanceRecords(a + b, students, lectureId)
            == AttendanceRecords(a, students, lectureId) + AttendanceRecords(b, students, lectureId)
  {
    if |a| > 0 {
      assert (a + b)[0] == a[0];
      assert (a + b)[1..] == a[1..] + b;
      AttendanceRecordsAppend(a[1..], b, students, lectureId);
    } else {
      assert a + b == b;
    }
  }

  /** Every group with the id gets one more lecture done; the others are untouched. */
  function IncrementDone(groups: seq<Group>, id: string): (r: seq<Group>)
    ensures |r| == |groups|
    ensures forall i :: 0 <= i < |groups| ==>
              r[i] == if groups[i].id == id then groups[i].(lecturesDone := groups[i].lecturesDone + 1) else groups[i]
  {
    seq(|groups|, i requires 0 <= i < |groups| =>
      if groups[i].id == id then groups[i].(lecturesDone := groups[i].lecturesDone + 1) else groups[i])
  }

  // ---------------------------------------------------------------------
  // Level upgrade
  // ---------------------------------------------------------------------

  /** `levels.filter(l => l.courseId === courseId)`. */
  function CourseLevels(levels: seq<CourseLevel>, courseId: string): (r: seq<CourseLevel>)
    ensures forall l :: l in r <==> l in levels && l.courseId == Some(courseId)
    ensures |r| <= |levels|
  {
    if |levels| == 0 then []
    else (if levels[0].courseId == Some(courseId) then [levels[0]] else []) + CourseLevels(levels[1..], courseId)
  }

  predicate SortedByNumber(s: seq<CourseLevel>) {
    forall i, j :: 0 <= i < j < |s| ==> s[i].levelNumber <= s[j].levelNumber
  }

  /** Insert `x` after every level whose number is not larger. */
  function InsertByNumber(x: CourseLevel, s: seq<CourseLevel>): (r: seq<CourseLevel>)
    requires SortedByNumber(s)
    ensures SortedByNumber(r) && |r| == |s| + 1
    ensures multiset(r) == multiset(s) + multiset{x}
  {
    if |s| == 0 then [x]
    else if x.levelNumber < s[0].levelNumber then [x] + s
    else
      var t := InsertByNumber(x, s[1..]);
      assert s == [s[0]] + s[1..];
      BoundSurvivesInsert(s[0].levelNumber, x, s[1..], t);
      ConsSorted(s[0], t);
      [s[0]] + t
  }

  /** A lower bound of `x` and of every level of `s` bounds every level of a list holding
      the same levels. */
  lemma BoundSurvivesInsert(b: int, x: CourseLevel, s: seq<CourseLevel>, t: seq<CourseLevel>)
    requires multiset(t) == multiset(s) + multiset{x}
    requires b <= x.levelNumber && forall i :: 0 <= i < |s| ==> b <= s[i].levelNumber
    ensures forall k :: 0 <= k < |t| ==> b <= t[k].levelNumber
  {
    forall k | 0 <= k < |t| ensures b <= t[k].levelNumber {
      assert t[k] in multiset(t);
      if t[k] != x {
        assert t[k] in multiset(s);
        var m :| 0 <= m < |s| && s[m] == t[k];
      }
    }
  }

  /** A level no larger than every level of a sorted list can go in front of it. */
  lemma ConsSorted(h: CourseLevel, t: seq<CourseLevel>)
    requires SortedByNumber(t) && forall k :: 0 <= k < |t| ==> h.levelNumber <= t[k].levelNumber
    ensures SortedByNumber([h] + t)
  {
    var r := [h] + t;
    forall i, j | 0 <= i < j < |r| ensures r[i].levelNumber <= r[j].levelNumber {
      assert r[j] == t[j - 1];
      if i > 0 { assert r[i] == t[i - 1]; }
    }
  }

  /** `sort((a, b) => a.levelNumber - b.levelNumber)`: a stable sort by level number. A stable
      sort has one possible result, which this insertion sort computes; it is a permutation
      of the list. */
  function SortByNumber(s: seq<CourseLevel>): (r: seq<CourseLevel>)
    ensures SortedByNumber(r) && |r| == |s|
    ensures multiset(r) == multiset(s)
  {
    if |s| == 0 then []
    else
      assert s == s[..|s| - 1] + [s[|s| - 1]];
      InsertByNumber(s[|s| - 1], SortByNumber(s[..|s| - 1]))
  }

  /** `find(l => l.levelNumber === n)`. */
  function FirstWithNumber(s: seq<CourseLevel>, n: int): (r: Option<CourseLevel>)
    ensures r.None? <==> forall i :: 0 <= i < |s| ==> s[i].levelNumber != n
    ensures r.Some? ==> r.value in s && r.value.levelNumber == n
    ensures r.Some? ==> exists i :: 0 <= i < |s| && s[i] == r.value
                          && forall j :: 0 <= j < i ==> s[j].levelNumber != n
  {
    if |s| == 0 then None
    else if s[0].levelNumber == n then Some(s[0])
    else
      var r := FirstWithNumber(s[1..], n);
      assert forall i :: 0 <= i < |s| - 1 ==> s[1..][i] == s[i + 1];
      r
  }

  lemma {:induction false} FirstWithNumberInsert(x: CourseLevel, s: seq<CourseLevel>, n: int)
    requires SortedByNumber(s)
    ensures FirstWithNumber(InsertByNumber(x, s), n) ==
              if FirstWithNumber(s, n).Some? then FirstWithNumber(s, n)
              else if x.levelNumber == n then Some(x) else None
  {
    if |s| > 0 && x.levelNumber >= s[0].levelNumber {
      FirstWithNumberInsert(x, s[1..], n);
    }
  }

  lemma {:induction false} FirstWithNumberSnoc(s: seq<CourseLevel>, x: CourseLevel, n: int)
    ensures FirstWithNumber(s + [x], n) ==
              if FirstWithNumber(s, n).Some? then FirstWithNumber(s, n)
              else if x.levelNumber == n then Some(x) else None
  {
    if |s| > 0 {
      assert (s + [x])[1..] == s[1..] + [x];
      FirstWithNumberSnoc(s[1..], x, n);
    }
  }

  /** Sorting does not change which level is found first for a given number. */
  lemma {:induction false} FirstWithNumberSorted(s: seq<CourseLevel>, n: int)
    ensures FirstWithNumber(SortByNumber(s), n) == FirstWithNumber(s, n)
  {
    if |s| > 0 {
      var init := s[..|s| - 1];
      var last := s[|s| - 1];
      FirstWithNumberSorted(init, n);
      FirstWithNumberInsert(last, SortByNumber(init), n);
      FirstWithNumberSnoc(init, last, n);
      assert s == init + [last];
    }
  }

  /** The number of the level after the group's: one more than its level's number, or 1 when
      that level is unknown (`(groupLevel?.levelNumber || 0) + 1`). */
  function TargetNumber(levels: seq<CourseLevel>, g: Group): int {
    match FindLevel(levels, g.levelId)
    case None => 1
    case Some(l) => l.levelNumber + 1
  }

  /** The level the group is upgraded to: `courseLevels.sort(...).find(...)`, the first of
      its course's levels sorted by number whose number is the target. */
  function SortedNextLevel(levels: seq<CourseLevel>, g: Group): Option<CourseLevel> {
    FirstWithNumber(SortByNumber(CourseLevels(levels, g.courseId)), TargetNumber(levels, g))
  }

  /** The same level found without sorting: the first of the course's levels, in stored
      order, whose number is the target. */
  function NextLevel(levels: seq<CourseLevel>, g: Group): (r: Option<CourseLevel>)
    ensures r.Some? ==> r.value in levels && r.value.courseId == Some(g.courseId)
                        && r.value.levelNumber == TargetNumber(levels, g)
    ensures r.None? <==> forall l :: l in levels && l.courseId == Some(g.courseId) ==> l.levelNumber != TargetNumber(levels, g)
    ensures r.Some? ==> exists i :: 0 <= i < |levels| && levels[i] == r.value
                          && forall j :: 0 <= j < i ==> !OfCourseWithNumber(levels[j], g.courseId, TargetNumber(levels, g))
  {
    var r := FirstWithNumber(CourseLevels(levels, g.courseId), TargetNumber(levels, g));
    assert r.None? <==> forall l :: l in CourseLevels(levels, g.courseId) ==> l.levelNumber != TargetNumber(levels, g);
    FirstOfCourseWithNumber(levels, g.courseId, TargetNumber(levels, g));
    r
  }

  predicate OfCourseWithNumber(l: CourseLevel, courseId: string, n: int) {
    l.courseId == Some(courseId) && l.levelNumber == n
  }

  /** Searching the course's levels finds the first level of the whole list that belongs
      to the course and has the number: the filter keeps the stored order. */
  lemma {:induction false} FirstOfCourseWithNumber(levels: seq<CourseLevel>, courseId: string, n: int)
    ensures var r := FirstWithNumber(CourseLevels(levels, courseId), n);
            r.Some? ==> exists i :: 0 <= i < |levels| && levels[i] == r.value
                          && forall j :: 0 <= j < i ==> !OfCourseWithNumber(levels[j], courseId, n)
  {
    if |levels| > 0 {
      var rest := CourseLevels(levels[1..], courseId);
      if OfCourseWithNumber(levels[0], courseId, n) {
        assert CourseLevels(levels, courseId) == [levels[0]] + rest;
      } else {
        FirstOfCourseWithNumber(levels[1..], courseId, n);
        SkipFirstLevel(levels, courseId, n);
        var r := FirstWithNumber(rest, n);
        if r.Some? {
          var k :| 0 <= k < |levels[1..]| && levels[1..][k] == r.value
                   && forall j :: 0 <= j < k ==> !OfCourseWithNumber(levels[1..][j], courseId, n);
          ShiftFirst(levels, courseId, n, k);
        }
      }
    }
  }

  /** A first level that is not of the course with the number does not change the search. */
  lemma SkipFirstLevel(levels: seq<CourseLevel>, courseId: string, n: int)
    requires |levels| > 0 && !OfCourseWithNumber(levels[0], courseId, n)
    ensures FirstWithNumber(CourseLevels(levels, courseId), n) == FirstWithNumber(CourseLevels(levels[1..], courseId), n)
  {
    var rest := CourseLevels(levels[1..], courseId);
    if levels[0].courseId == Some(courseId) {
      assert CourseLevels(levels, courseId) == [levels[0]] + rest;
      assert ([levels[0]] + rest)[1..] == rest;
    } else {
      assert CourseLevels(levels, courseId) == rest;
    }
  }

  /** A first match at k in the tail is a first match at k + 1 in the list, when the head is
      no match. */
  lemma ShiftFirst(levels: seq<CourseLevel>, courseId: string, n: int, k: nat)
    requires |levels| > 0 && !OfCourseWithNumber(levels[0], courseId, n) && k < |levels| - 1
    requires forall j :: 0 <= j < k ==> !OfCourseWithNumber(levels[1..][j], courseId, n)
    ensures levels[k + 1] == levels[1..][k]
    ensures forall j :: 0 <= j < k + 1 ==> !OfCourseWithNumber(levels[j], courseId, n)
  {
    forall j | 0 <= j < k + 1 ensures !OfCourseWithNumber(levels[j], courseId, n) {
      if j > 0 { assert levels[j] == levels[1..][j - 1]; }
    }
  }

  /** Because the sort is stable, sorting before the search changes nothing: the screen's
      `sort` then `find` picks the level `NextLevel` picks. */
  lemma SortedNextLevelIsNextLevel(levels: seq<CourseLevel>, g: Group)
    ensures SortedNextLevel(levels, g) == NextLevel(levels, g)
  {
    FirstWithNumberSorted(CourseLevels(levels, g.courseId), TargetNumber(levels, g));
  }

  /** The text `replace` looks for in the group's name: the current level's number, or the
      empty text when the level is unknown. */
  function OldNumberText(levels: seq<CourseLevel>, g: Group): string {
    match FindLevel(levels, g.levelId)
    case None => ""
    case Some(l) => IntToString(l.levelNumber)
  }

  /** The group the upgrade creates: a copy of `g` with a new id and code, the next level, the
      level number in the name replaced, status "active", starting on `date` with no end
      date. */
  function UpgradedGroup(levels: seq<CourseLevel>, g: Group, next: CourseLevel, newId: string, code: string, date: Day): (r: Group)
    ensures r.id == newId && r.code == code && r.levelId == next.id
    ensures r.status == "active" && r.startDate == Some(date) && r.endDate.None?
    ensures r.courseId == g.courseId && r.studentIds == g.studentIds && r.labId == g.labId
    ensures r.weeklyDays == g.weeklyDays && r.startTime == g.startTime && r.lecturesDone == g.lecturesDone
  {
    g.(id := newId, code := code, levelId := next.id,
       name := ReplaceFirst(g.name, OldNumberText(levels, g), IntToString(next.levelNumber)),
       status := "active", startDate := Some(date), endDate := None)
  }

  /** An upgraded group has no end date, so it holds no slot of the grid on any day. */
  lemma UpgradedGroupNeverScheduled(levels: seq<CourseLevel>, g: Group, next: CourseLevel, newId: string, code: string,
                                    date: Day, labId: string, slot: string, day: Day)
    ensures !Occupies(UpgradedGroup(levels, g, next, newId, code, date), labId, slot, day)
  {
  }

  /** When the group's level is unknown, the upgrade looks for level 1 and, replacing the
      empty text, puts the new number in front of the whole name. */
  lemma UnknownLevelPrefixesName(levels: seq<CourseLevel>, g: Group, next: CourseLevel, newId: string, code: string, date: Day)
    requires FindLevel(levels, g.levelId).None?
    ensures TargetNumber(levels, g) == 1
    ensures UpgradedGroup(levels, g, next, newId, code, date).name == IntToString(next.levelNumber) + g.name
  {
  }

  /** The group list an upgrade writes: `base` with the upgraded group appended, its code
      generated from the codes of `base`. */
  function WithUpgraded(base: seq<Group>, levels: seq<CourseLevel>, g: Group, next: CourseLevel, newId: string, date: Day): (r: seq<Group>)
    ensures |r| == |base| + 1 && r[..|base|] == base
    ensures r[|base|] == UpgradedGroup(levels, g, next, newId, LocalStore.GenerateCode("GRP", Codes(base)), date)
  {
    base + [UpgradedGroup(levels, g, next, newId, LocalStore.GenerateCode("GRP", Codes(base)), date)]
  }

  function Codes(groups: seq<Group>): (r: seq<string>)
    ensures |r| == |groups| && forall i :: 0 <= i < |groups| ==> r[i] == groups[i].code
  {
    seq(|groups|, i requires 0 <= i < |groups| => groups[i].code)
  }

  // ---------------------------------------------------------------------
  // The screen
  // ---------------------------------------------------------------------

  /** The storage keys the screen writes, and the component state it reads them into. */
  class AttendanceScreen {
    /** "latin_academy_groups" as stored. */
    var storedGroups: seq<Group>
    /** "latin_academy_sessions_<group id>", by group id. */
    var sessions: map<string, seq<Session>>
    /** "latin_academy_lectures". */
    var lectures: seq<Lecture>
    /** "latin_academy_lecture_attendance". */
    var lectureAttendance: seq<AttendanceRecord>

    /** The groups, levels and students loaded when the screen mounted. */
    var groups: seq<Group>
    var levels: seq<CourseLevel>
    var students: seq<Student>
    /** The date the grid shows. */
    var date: Day

    /** The attendance dialog: its group, the session number shown, the marks, and whether
        the finish/upgrade options are shown. */
    var dialogGroup: Option<Group>
    var sessionNumber: int
    var attendance: Marks
    var showEndOptions: bool

    /** The dialog is open and shows the number of the next session of its group. */
    predicate NumberCurrent()
      reads this
    {
      dialogGroup.Some? && sessionNumber == SessionNumber(sessions, dialogGroup.value.id)
    }

    /** The screen mounts: the stored groups, levels and students are read once. */
    constructor (stored: seq<Group>, sessions0: map<string, seq<Session>>, lectures0: seq<Lecture>,
                 attendance0: seq<AttendanceRecord>, levels0: seq<CourseLevel>, students0: seq<Student>, today: Day)
      ensures storedGroups == stored && groups == stored && sessions == sessions0
      ensures lectures == lectures0 && lectureAttendance == attendance0
      ensures levels == levels0 && students == students0 && date == today
      ensures dialogGroup.None? && attendance == [] && sessionNumber == 1 && !showEndOptions
    {
      storedGroups := stored;
      groups := stored;
      sessions := sessions0;
      lectures := lectures0;
      lectureAttendance := attendance0;
      levels := levels0;
      students := students0;
      date := today;
      dialogGroup := None;
      sessionNumber := 1;
      attendance := [];
      showEndOptions := false;
    }

    /** Opening the dialog on a group: every student of the group is marked present, the
        session number is the next one and the end options follow `shouldShowEndOptions`. */
    method OpenDialog(g: Group)
      modifies this`dialogGroup, this`attendance, this`sessionNumber, this`showEndOptions
      ensures dialogGroup == Some(g)
      ensures attendance == MarkAll(GroupStudents(students, g.studentIds), true)
      ensures sessionNumber == SessionNumber(sessions, g.id)
      ensures showEndOptions == ShouldShowEndOptions(levels, sessions, g)
      ensures NumberCurrent()
    {
      dialogGroup := Some(g);
      attendance := MarkAll(GroupStudents(students, g.studentIds), true);
      sessionNumber := SessionNumber(sessions, g.id);
      showEndOptions := ShouldShowEndOptions(levels, sessions, g);
    }

    /** `handleToggleAll(present)`: every student of the dialog's group gets the same mark;
        without an open dialog nothing happens. */
    method ToggleAll(present: bool)
      modifies this`attendance
      ensures dialogGroup.None? ==> attendance == old(attendance)
      ensures dialogGroup.Some? ==> attendance == MarkAll(GroupStudents(students, dialogGroup.value.studentIds), present)
    {
      if dialogGroup.Some? {
        attendance := MarkAll(GroupStudents(students, dialogGroup.value.studentIds), present);
      }
    }

    /** `handleSaveAttendance`, with `lectureId` standing for the generated id: one session is
        appended for the dialog's group, every stored group with its id gets one more lecture
        done, a lecture numbered after the prior sessions is recorded with a row per known
        student, and the end options show when the group's lecture count is reached;
        otherwise the dialog closes. The mobiles of absent students are returned. */
    method SaveAttendance(image: string, lectureId: string) returns (absents: seq<string>)
      requires dialogGroup.Some?
      modifies this`sessions, this`storedGroups, this`lectures, this`lectureAttendance, this`showEndOptions, this`dialogGroup
      ensures var g := old(dialogGroup).value;
              var prior := SessionsOf(old(sessions), g.id);
              && sessions == old(sessions)[g.id := prior + [Session(old(date), old(sessionNumber), old(attendance), image)]]
              && storedGroups == IncrementDone(old(storedGroups), g.id)
              && lectures == old(lectures) + [Lecture(lectureId, g.id, old(date), g.instructorId, |prior| + 1, image)]
              && lectureAttendance == old(lectureAttendance) + AttendanceRecords(old(attendance), old(students), lectureId)
              && absents == AbsentMobiles(old(attendance), old(students))
              && (EndReachedAfterSave(g, |prior|) ==> showEndOptions && dialogGroup == old(dialogGroup))
              && (!EndReachedAfterSave(g, |prior|) ==> dialogGroup.None? && showEndOptions == old(showEndOptions))
      ensures old(NumberCurrent()) ==>
                lectures[|lectures| - 1].lectureNumber == old(sessionNumber)
                && sessions[old(dialogGroup).value.id][|SessionsOf(old(sessions), old(dialogGroup).value.id)|].sessionNumber == old(sessionNumber)
    {
      var g := dialogGroup.value;
      absents := AbsentMobiles(attendance, students);
      var prior := SessionsOf(sessions, g.id);
      sessions := sessions[g.id := prior + [Session(date, sessionNumber, attendance, image)]];
      storedGroups := IncrementDone(storedGroups, g.id);
      lectures := lectures + [Lecture(lectureId, g.id, date, g.instructorId, |prior| + 1, image)];
      lectureAttendance := lectureAttendance + AttendanceRecords(attendance, students, lectureId);
      if EndReachedAfterSave(g, |prior|) {
        showEndOptions := true;
      } else {
        dialogGroup := None;
      }
    }

    /** `handleUpgradeGroup` as written: the new group is appended to the groups loaded when
        the screen mounted, and that list replaces the stored one, so lecture counts saved
        since then are lost. */
    method UpgradeGroupAsWritten(newId: string) returns (ok: bool)
      modifies this`storedGroups, this`dialogGroup
      ensures old(dialogGroup).None? ==> !ok && storedGroups == old(storedGroups) && dialogGroup == old(dialogGroup)
      ensures old(dialogGroup).Some? ==>
                var g := old(dialogGroup).value;
                var next := NextLevel(old(levels), g);
                && (ok <==> next.Some?)
                && (ok ==> storedGroups == WithUpgraded(old(groups), old(levels), g, next.value, newId, old(date))
                           && dialogGroup.None?)
                && (!ok ==> storedGroups == old(storedGroups) && dialogGroup == old(dialogGroup))
    {
      if dialogGroup.None? {
        return false;
      }
      var g := dialogGroup.value;
      var next := NextLevel(levels, g);
      if next.None? {
        return false;
      }
      storedGroups := WithUpgraded(groups, levels, g, next.value, newId, date);
      dialogGroup := None;
      return true;
    }

    /** The upgrade as intended: the new group, numbered after the stored codes, is appended to
        the groups as stored, so every stored group is kept as it is. */
    method UpgradeGroup(newId: string) returns (ok: bool)
      modifies this`storedGroups, this`dialogGroup
      ensures old(dialogGroup).None? ==> !ok && storedGroups == old(storedGroups) && dialogGroup == old(dialogGroup)
      ensures old(dialogGroup).Some? ==>
                var g := old(dialogGroup).value;
                var next := NextLevel(old(levels), g);
                && (ok <==> next.Some?)
                && (ok ==> storedGroups == WithUpgraded(old(storedGroups), old(levels), g, next.value, newId, old(date))
                           && dialogGroup.None?)
                && (!ok ==> storedGroups == old(storedGroups) && dialogGroup == old(dialogGroup))
    {
      if dialogGroup.None? {
        return false;
      }
      var g := dialogGroup.value;
      var next := NextLevel(levels, g);
      if next.None? {
        return false;
      }
      storedGroups := WithUpgraded(storedGroups, levels, g, next.value, newId, date);
      dialogGroup := None;
      return true;
    }
  }

  /** The k-th stored session of a group carries the number k. */
  predicate Numbered(ss: seq<Session>) {
    forall i :: 0 <= i < |ss| ==> ss[i].sessionNumber == i + 1
  }

  /** A save with the number the dialog shows keeps a group's sessions numbered 1, 2, ...,
      and the lecture recorded with it, numbered after the prior sessions, has that number. */
  lemma SaveKeepsSessionsNumbered(sessions: map<string, seq<Session>>, id: string, s: Session)
    requires Numbered(SessionsOf(sessions, id)) && s.sessionNumber == SessionNumber(sessions, id)
    ensures Numbered(SessionsOf(sessions[id := SessionsOf(sessions, id) + [s]], id))
    ensures |SessionsOf(sessions, id)| + 1 == s.sessionNumber
  {
    var ss := SessionsOf(sessions, id) + [s];
    assert SessionsOf(sessions[id := ss], id) == ss;
    assert forall i :: 0 <= i < |ss| - 1 ==> ss[i] == SessionsOf(sessions, id)[i];
  }

  /** Saving a session moves the group's next session number up by one and leaves every
      other group's number as it was. */
  lemma SaveAdvancesSessionNumber(sessions: map<string, seq<Session>>, id: string, s: Session, other: string)
    ensures SessionNumber(sessions[id := SessionsOf(sessions, id) + [s]], id) == SessionNumber(sessions, id) + 1
    ensures other != id ==> SessionNumber(sessions[id := SessionsOf(sessions, id) + [s]], other) == SessionNumber(sessions, other)
  {
  }

  /** What the as-written upgrade loses: after a save raised the lecture count of group `i`
      (the dialog's group) in storage, the as-written upgrade writes the list loaded at mount,
      where that count is one lower; the intended upgrade, over the stored list, keeps it. */
  lemma StaleUpgradeLosesLecturesDone(groups: seq<Group>, levels: seq<CourseLevel>, g: Group, next: CourseLevel,
                                      newId: string, date: Day, i: nat)
    requires i < |groups| && groups[i].id == g.id
    ensures var stored := IncrementDone(groups, g.id);
            && stored[i].lecturesDone == groups[i].lecturesDone + 1
            && WithUpgraded(groups, levels, g, next, newId, date)[i].lecturesDone == stored[i].lecturesDone - 1
            && WithUpgraded(stored, levels, g, next, newId, date)[i] == stored[i]
  {
  }

  /** The intended upgrade keeps every stored group unchanged and adds one whose code reads
      back as a number above every stored code's number. */
  lemma UpgradeKeepsStoredGroups(stored: seq<Group>, levels: seq<CourseLevel>, g: Group, next: CourseLevel,
                                 newId: string, date: Day, i: nat)
    requires i < |stored|
    ensures var r := WithUpgraded(stored, levels, g, next, newId, date);
            && |r| == |stored| + 1 && r[i] == stored[i]
            && (LocalStore.CodeNumber("GRP", stored[i].code).Some? ==>
                  LocalStore.CodeNumber("GRP", r[|stored|].code).Some?
                  && LocalStore.CodeNumber("GRP", stored[i].code).value < LocalStore.CodeNumber("GRP", r[|stored|].code).value)
  {
    var r := WithUpgraded(stored, levels, g, next, newId, date);
    if LocalStore.CodeNumber("GRP", stored[i].code).Some? {
      assert Codes(stored)[i] == stored[i].code;
      LocalStore.GeneratedNumberExceedsExisting("GRP", Codes(stored), i);
    }
  }
}
