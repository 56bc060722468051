/** The group-scheduling rules of the Groups screen (src/pages/Groups.tsx): the end-date
    calculator that walks forward from the start date counting lecture weekdays, the lecture
    count taken from the selected level, the form's change handler that drives them, the
    start-date picker's acceptance rule, the student toggle, the submit check and the
    response-shape dispatcher applied to every API answer. Dates are day numbers; the time
    zone and the text formatting of dates are not part of this model. */
module Groups {
  import opened Wrappers
  import opened JsonValue
  import opened Calendar

  // ---------------------------------------------------------------------
  // Days and weekdays
  // ---------------------------------------------------------------------

  /** `convertJsDayToId`: a `getDay()` number to the weekday id of the week-day table, in which
      Monday is 1 and Sunday is 7; anything else is -1. */
  function ConvertJsDayToId(jsDay: int): (id: int)
    ensures 0 <= jsDay < 7 <==> 1 <= id <= 7
    ensures !(0 <= jsDay < 7) <==> id == -1
  {
    if jsDay == 0 then 7
    else if 1 <= jsDay <= 6 then jsDay
    else -1
  }

  /** The table's weekday id back to the `getDay()` number. */
  function IdToJsDay(id: int): (jsDay: int)
    requires 1 <= id <= 7
    ensures 0 <= jsDay < 7
  {
    id % 7
  }

  /** `convertJsDayToId` is a bijection from 0..6 onto 1..7, with `IdToJsDay` as its inverse. */
  lemma ConvertJsDayRoundTrip(jsDay: int, id: int)
    requires 0 <= jsDay < 7 && 1 <= id <= 7
    ensures IdToJsDay(ConvertJsDayToId(jsDay)) == jsDay
    ensures ConvertJsDayToId(IdToJsDay(id)) == id
  {
  }

  /** The lecture days of a group, as stored by the day checkboxes: `getDay()` numbers. */
  predicate Selected(days: seq<int>, d: Day) {
    JsWeekday(d) in days
  }

  /** Some entry of `days` is a real weekday number. */
  predicate HasWeekday(days: seq<int>) {
    exists i :: 0 <= i < |days| && 0 <= days[i] < 7
  }

  // ---------------------------------------------------------------------
  // The end-date walk
  // ---------------------------------------------------------------------

  /** The lecture days after `lo` up to and including `hi`, in calendar order. */
  function MatchingDays(days: seq<int>, lo: Day, hi: Day): (r: seq<Day>)
    decreases hi - lo
    ensures forall i :: 0 <= i < |r| ==> lo < r[i] <= hi && Selected(days, r[i])
    ensures forall i, j :: 0 <= i < j < |r| ==> r[i] < r[j]
  {
    if hi <= lo then []
    else MatchingDays(days, lo, hi - 1) + (if Selected(days, hi) then [hi] else [])
  }

  /** No lecture day of the interval is missed. */
  lemma {:induction false} MatchingDaysComplete(days: seq<int>, lo: Day, hi: Day, d: Day)
    requires lo < d <= hi && Selected(days, d)
    ensures d in MatchingDays(days, lo, hi)
    decreases hi - lo
  {
    if d < hi {
      MatchingDaysComplete(days, lo, hi - 1, d);
    }
  }

  /** Later days never have fewer lectures before them, and a lecture day has strictly more. */
  lemma {:induction false} MatchingDaysMonotone(days: seq<int>, lo: Day, a: Day, b: Day)
    requires lo <= a <= b
    ensures |MatchingDays(days, lo, a)| <= |MatchingDays(days, lo, b)|
    ensures a < b && Selected(days, b) ==> |MatchingDays(days, lo, a)| < |MatchingDays(days, lo, b)|
    decreases b - a
  {
    if a < b {
      MatchingDaysMonotone(days, lo, a, b - 1);
    }
  }

  /** `end` is the day of the `count`-th lecture after `start`. */
  predicate IsEndDate(days: seq<int>, start: Day, count: int, end: Day) {
    start < end && Selected(days, end) && |MatchingDays(days, start, end)| == count
  }

  /** A start date, a day set and a lecture count fix the end date. */
  lemma EndDateUnique(days: seq<int>, start: Day, count: int, e1: Day, e2: Day)
    requires IsEndDate(days, start, count, e1) && IsEndDate(days, start, count, e2)
    ensures e1 == e2
  {
    if e1 < e2 {
      MatchingDaysMonotone(days, start, e1, e2);
    } else if e2 < e1 {
      MatchingDaysMonotone(days, start, e2, e1);
    }
  }

  /** The walk does not count the start date itself: when the start is a lecture day, the
      sessions from the start to the end number one more than the count. This is why the
      level's `sessionsCount` is lowered by one before the walk. */
  lemma SessionsIncludingStart(days: seq<int>, start: Day, count: int, end: Day)
    requires Selected(days, start) && IsEndDate(days, start, count, end)
    ensures |MatchingDays(days, start - 1, end)| == count + 1
    ensures MatchingDays(days, start - 1, end)[0] == start
  {
    MatchingDaysFrom(days, start, end);
  }

  lemma {:induction false} MatchingDaysFrom(days: seq<int>, start: Day, end: Day)
    requires Selected(days, start) && start <= end
    ensures MatchingDays(days, start - 1, end) == [start] + MatchingDays(days, start, end)
    decreases end - start
  {
    if end > start {
      MatchingDaysFrom(days, start, end - 1);
    }
  }

  /** What the end-date walk comes to: the end date and the lecture dates it passed, or no end
      at all when lectures are wanted but no entry of the day set is a weekday (the source's
      loop then never stops). */
  datatype Walk = Ends(end: Day, lectures: seq<Day>) | NeverEnds

  /** Days from `d` to the next day after it that falls on weekday `k`: from 1 to 7. */
  ghost function DaysUntil(k: int, d: Day): int {
    (k - d - 5) % 7 + 1
  }

  lemma DaysUntilStep(k: int, d: Day)
    requires 0 <= k < 7
    ensures 1 <= DaysUntil(k, d) <= 7
    ensures DaysUntil(k, d) == 1 ==> JsWeekday(d + 1) == k
    ensures DaysUntil(k, d) > 1 ==> DaysUntil(k, d + 1) == DaysUntil(k, d) - 1
  {
  }

  /** The walk of `handleChange`: from the start date, step one day at a time and count the
      days whose weekday is selected until `count` lectures are reached; the end date is the
      last lecture. */
  method ComputeEndDate(start: Day, days: seq<int>, count: int) returns (w: Walk)
    ensures w.NeverEnds? <==> count > 0 && !HasWeekday(days)
    ensures w.Ends? ==> w.lectures == MatchingDays(days, start, w.end)
    ensures w.Ends? ==> |w.lectures| == if count > 0 then count else 0
    ensures w.Ends? && count > 0 ==> IsEndDate(days, start, count, w.end)
    ensures w.Ends? && count > 0 ==> w.lectures[|w.lectures| - 1] == w.end
    ensures w.Ends? && count <= 0 ==> w.end == start
  {
    if count > 0 && !HasWeekday(days) {
      return NeverEnds;
    }
    ghost var k := 0;
    if count > 0 {
      ghost var i :| 0 <= i < |days| && 0 <= days[i] < 7;
      k := days[i];
    }
    var current := start;
    var done := 0;
    var lectures: seq<Day> := [];
    while done < count
      invariant start <= current
      invariant 0 <= done && (count > 0 ==> done <= count)
      invariant count <= 0 ==> current == start && done == 0
      invariant lectures == MatchingDays(days, start, current)
      invariant |lectures| == done
      invariant done > 0 && done == count ==> lectures[done - 1] == current
      invariant count > 0 ==> 0 <= k < 7 && k in days && 1 <= DaysUntil(k, current) <= 7
      decreases (count - done) * 7 + DaysUntil(k, current)
    {
      DaysUntilStep(k, current);
      current := current + 1;
      if JsWeekday(current) in days {
        done := done + 1;
        lectures := lectures + [current];
      }
      DaysUntilStep(k, current);
    }
    return Ends(current, lectures);
  }

  /** The worked example: from Monday 2024-01-01 (day 19723), on Mondays and Wednesdays, three
      lectures fall on January 3, 8 and 10, and the group ends on Wednesday 2024-01-10. */
  lemma MondayWednesdayExample()
    ensures MatchingDays([1, 3], 19723, 19732) == [19725, 19730, 19732]
    ensures IsEndDate([1, 3], 19723, 3, 19732)
  {
    var days := [1, 3];
    MondayWednesdayFirstWeek();
    assert JsWeekday(19730) == 1 && Selected(days, 19730);
    assert JsWeekday(19731) == 2 && !Selected(days, 19731);
    assert JsWeekday(19732) == 3 && Selected(days, 19732);
    MatchingDaysStep(days, 19723, 19730, [19725]);
    MatchingDaysStep(days, 19723, 19731, [19725, 19730]);
    MatchingDaysStep(days, 19723, 19732, [19725, 19730]);
  }

  /** The first six days of the worked example hold one lecture, on Wednesday January 3. */
  lemma MondayWednesdayFirstWeek()
    ensures MatchingDays([1, 3], 19723, 19729) == [19725]
  {
    var days := [1, 3];
    assert JsWeekday(19724) == 2 && !Selected(days, 19724);
    assert JsWeekday(19725) == 3 && Selected(days, 19725);
    assert JsWeekday(19726) == 4 && !Selected(days, 19726);
    MatchingDaysStep(days, 19723, 19724, []);
    MatchingDaysStep(days, 19723, 19725, []);
    MatchingDaysStep(days, 19723, 19726, [19725]);
    MondayWednesdayQuietDays();
  }

  /** Thursday January 4 to Sunday January 7 hold no lecture. */
  lemma MondayWednesdayQuietDays()
    ensures MatchingDays([1, 3], 19723, 19726) == [19725] ==> MatchingDays([1, 3], 19723, 19729) == [19725]
  {
    var days := [1, 3];
    assert JsWeekday(19727) == 5 && !Selected(days, 19727);
    assert JsWeekday(19728) == 6 && !Selected(days, 19728);
    assert JsWeekday(19729) == 0 && !Selected(days, 19729);
    if MatchingDays(days, 19723, 19726) == [19725] {
      MatchingDaysStep(days, 19723, 19727, [19725]);
      MatchingDaysStep(days, 19723, 19728, [19725]);
      MatchingDaysStep(days, 19723, 19729, [19725]);
    }
  }

  /** One more day of the walk, given what the days before it came to. */
  lemma MatchingDaysStep(days: seq<int>, lo: Day, hi: Day, before: seq<Day>)
    requires lo < hi && MatchingDays(days, lo, hi - 1) == before
    ensures MatchingDays(days, lo, hi) == before + (if Selected(days, hi) then [hi] else [])
  {
  }

  // ---------------------------------------------------------------------
  // The lecture count of a level
  // ---------------------------------------------------------------------

  /** A level as the screen holds it; a count field the record lacks is 0 here, since the
      code only tests the fields for truthiness. */
  datatype Level = Level(id: int, courseId: int, sessionsCount: int, classCount: int, classesCount: int)

  /** A course with its embedded level list, which the record may lack. */
  datatype Course = Course(id: int, levels: Option<seq<Level>>)

  /** `a || b` on numbers. */
  function OrNum(a: int, b: int): (r: int)
    ensures r == 0 <==> a == 0 && b == 0
    ensures r != 0 ==> r == a || r == b
  {
    if a != 0 then a else b
  }

  /** `levels.find(l => l.id === id)`. */
  function FindLevel(levels: seq<Level>, id: int): (r: Option<Level>)
    ensures r.None? <==> forall i :: 0 <= i < |levels| ==> levels[i].id != id
    ensures r.Some? ==> exists i :: 0 <= i < |levels| && levels[i] == r.value && r.value.id == id
                          && forall j :: 0 <= j < i ==> levels[j].id != id
  {
    if |levels| == 0 then None
    else if levels[0].id == id then Some(levels[0])
    else
      var r := FindLevel(levels[1..], id);
      assert forall i :: 0 <= i < |levels| - 1 ==> levels[1..][i] == levels[i + 1];
      r
  }

  /** `courses.find(c => c.id === id)`. */
  function FindCourse(courses: seq<Course>, id: int): (r: Option<Course>)
    ensures r.None? <==> forall i :: 0 <= i < |courses| ==> courses[i].id != id
    ensures r.Some? ==> exists i :: 0 <= i < |courses| && courses[i] == r.value && r.value.id == id
                          && forall j :: 0 <= j < i ==> courses[j].id != id
  {
    if |courses| == 0 then None
    else if courses[0].id == id then Some(courses[0])
    else
      var r := FindCourse(courses[1..], id);
      assert forall i :: 0 <= i < |courses| - 1 ==> courses[1..][i] == courses[i + 1];
      r
  }

  /** The count read from the course's own copy of the level: its `sessionsCount`,
      `classCount` or `classesCount`, whichever is first non-zero (no one is subtracted on
      this path), or 0. */
  function CourseEntryLectures(courses: seq<Course>, l: Level): int {
    match FindCourse(courses, l.courseId)
    case None => 0
    case Some(c) =>
      if c.levels.None? then 0
      else
        match FindLevel(c.levels.value, l.id)
        case None => 0
        case Some(e) => OrNum(e.sessionsCount, OrNum(e.classCount, e.classesCount))
  }

  /** The lecture count `handleChange` computes for the level `levelId`. */
  function LectureCount(levels: seq<Level>, courses: seq<Course>, levelId: int): (n: int)
    ensures n != 0
  {
    var found :=
      match FindLevel(levels, levelId)
      case None => 0
      case Some(l) =>
        if l.sessionsCount != 0 then l.sessionsCount - 1
        else if OrNum(l.classCount, l.classesCount) != 0 then OrNum(l.classCount, l.classesCount)
        else CourseEntryLectures(courses, l);
    if found == 0 then 5 else found
  }

  /** The level's `sessionsCount`, when set, decides the count: one less than it, except that a
      level of a single session falls back to the default of 5. */
  lemma LectureCountFromSessions(levels: seq<Level>, courses: seq<Course>, levelId: int)
    requires FindLevel(levels, levelId).Some? && FindLevel(levels, levelId).value.sessionsCount != 0
    ensures var s := FindLevel(levels, levelId).value.sessionsCount;
            LectureCount(levels, courses, levelId) == if s == 1 then 5 else s - 1
  {
  }

  /** With no `sessionsCount`, the level's `classCount || classesCount` decides the count when
      it is non-zero. */
  lemma LectureCountFromClassFields(levels: seq<Level>, courses: seq<Course>, levelId: int)
    requires FindLevel(levels, levelId).Some?
    requires var l := FindLevel(levels, levelId).value;
             l.sessionsCount == 0 && OrNum(l.classCount, l.classesCount) != 0
    ensures var l := FindLevel(levels, levelId).value;
            LectureCount(levels, courses, levelId) == OrNum(l.classCount, l.classesCount)
  {
  }

  /** With none of the level's own counts set, the count comes from the course's copy of the
      level: its `sessionsCount || classCount || classesCount`, with nothing subtracted, and 5
      when the course, its level list, the copy or all three counts are missing. */
  lemma LectureCountFromCourseEntry(levels: seq<Level>, courses: seq<Course>, levelId: int)
    requires FindLevel(levels, levelId).Some?
    requires var l := FindLevel(levels, levelId).value;
             l.sessionsCount == 0 && OrNum(l.classCount, l.classesCount) == 0
    ensures var l := FindLevel(levels, levelId).value;
            var c := FindCourse(courses, l.courseId);
            var e := if c.Some? && c.value.levels.Some? then FindLevel(c.value.levels.value, l.id) else None;
            var n := if e.Some? then OrNum(e.value.sessionsCount, OrNum(e.value.classCount, e.value.classesCount)) else 0;
            LectureCount(levels, courses, levelId) == if n == 0 then 5 else n
  {
  }

  /** An unknown level gets the default of 5 lectures. */
  lemma LectureCountUnknownLevel(levels: seq<Level>, courses: seq<Course>, levelId: int)
    requires forall i :: 0 <= i < |levels| ==> levels[i].id != levelId
    ensures LectureCount(levels, courses, levelId) == 5
  {
  }

  /** With no negative count in any level record the count is at least 1, so a walk is always
      started; only a negative count skips it. */
  lemma LectureCountPositive(levels: seq<Level>, courses: seq<Course>, levelId: int)
    requires forall i :: 0 <= i < |levels| ==> NonNegativeCounts(levels[i])
    requires forall c :: c in courses && c.levels.Some? ==>
               forall i :: 0 <= i < |c.levels.value| ==> NonNegativeCounts(c.levels.value[i])
    ensures LectureCount(levels, courses, levelId) >= 1
  {
    var f := FindLevel(levels, levelId);
    if f.Some? && f.value.sessionsCount == 0 && OrNum(f.value.classCount, f.value.classesCount) == 0 {
      var c := FindCourse(courses, f.value.courseId);
      if c.Some? && c.value.levels.Some? {
        var e := FindLevel(c.value.levels.value, f.value.id);
        if e.Some? {
          assert NonNegativeCounts(e.value);
        }
      }
    }
  }

  predicate NonNegativeCounts(l: Level) {
    l.sessionsCount >= 0 && l.classCount >= 0 && l.classesCount >= 0
  }

  // ---------------------------------------------------------------------
  // The group form
  // ---------------------------------------------------------------------

  /** The dialog's form; an empty date field (`""`) is `None`. */
  datatype GroupForm = GroupForm(
    name: string,
    startDate: Option<Day>,
    endDate: Option<Day>,
    startTime: string,
    endTime: string,
    instructorId: int,
    levelId: int,
    roomId: int,
    statusId: int,
    studentIds: seq<int>,
    days: seq<int>)

  /** The form a new group starts from. */
  const EmptyForm := GroupForm("", None, None, "", "", 0, 0, 0, 1, [], [])

  /** The field edits the dialog sends to `handleChange`. */
  datatype FieldEdit =
    | Name(name: string)
    | LevelId(levelId: int)
    | InstructorId(instructorId: int)
    | StatusId(statusId: int)
    | RoomId(roomId: int)
    | Days(days: seq<int>)
    | StartDate(startDate: Option<Day>)
    | StartTime(startTime: string)
    | EndTime(endTime: string)

  /** `{ ...prev, [field]: value }`. */
  function Assign(f: GroupForm, e: FieldEdit): GroupForm {
    match e
    case Name(v) => f.(name := v)
    case LevelId(v) => f.(levelId := v)
    case InstructorId(v) => f.(instructorId := v)
    case StatusId(v) => f.(statusId := v)
    case RoomId(v) => f.(roomId := v)
    case Days(v) => f.(days := v)
    case StartDate(v) => f.(startDate := v)
    case StartTime(v) => f.(startTime := v)
    case EndTime(v) => f.(endTime := v)
  }

  /** The start date `handleChange` walks from after the edit `e` of form `f`, if it walks:
      a new non-empty start date, or the existing start date when the level changes; either
      only with days selected. */
  function WalkStart(f: GroupForm, e: FieldEdit): (r: Option<Day>)
    ensures r.Some? ==> |f.days| > 0 && (e.StartDate? || e.LevelId?)
  {
    if e.StartDate? && e.startDate.Some? && |f.days| > 0 then e.startDate
    else if e.LevelId? && f.startDate.Some? && |f.days| > 0 then f.startDate
    else None
  }

  /** The message shown when a start date is picked before any lecture day. */
  const DaysFirstError := "يجب اختيار أيام المحاضرات أولاً"

  /** The group dialog's state: the form and the date error under the picker. */
  class GroupDialog {
    var form: GroupForm
    var dateError: string

    /** `handleAddGroup`: an empty form. */
    constructor ()
      ensures form == EmptyForm && dateError == ""
    {
      form := EmptyForm;
      dateError := "";
    }

    /** `handleChange(field, value)`. The edited field takes its value. A change of days clears
        both dates and the date error. A new start date, or a new level while a start date is
        set, recomputes the end date from the level's lecture count, unless that count is
        negative. `hangs` reports the case where the source's walk never stops; the state is
        then left as it was. */
    method HandleChange(e: FieldEdit, levels: seq<Level>, courses: seq<Course>) returns (hangs: bool)
      modifies this
      ensures var f := Assign(old(form), e);
              var s := WalkStart(old(form), e);
              var n := LectureCount(levels, courses, f.levelId);
              hangs <==> s.Some? && n > 0 && !HasWeekday(f.days)
      ensures hangs ==> form == old(form) && dateError == old(dateError)
      ensures !hangs && e.Days? ==>
                form == old(form).(days := e.days, startDate := None, endDate := None) && dateError == ""
      ensures !hangs && !e.Days? ==> dateError == old(dateError)
      ensures var f := Assign(old(form), e);
              var s := WalkStart(old(form), e);
              var n := LectureCount(levels, courses, f.levelId);
              !hangs && !e.Days? && s.Some? && n > 0 ==>
                form.endDate.Some? && IsEndDate(f.days, s.value, n, form.endDate.value)
                && form == f.(endDate := form.endDate)
      ensures var f := Assign(old(form), e);
              var s := WalkStart(old(form), e);
              var n := LectureCount(levels, courses, f.levelId);
              !hangs && !e.Days? && !(s.Some? && n > 0) ==> form == f
    {
      var f := Assign(form, e);
      if e.Days? {
        form := f.(startDate := None, endDate := None);
        dateError := "";
        return false;
      }
      var s := WalkStart(form, e);
      var n := LectureCount(levels, courses, f.levelId);
      if s.Some? && n > 0 {
        var w := ComputeEndDate(s.value, f.days, n);
        if w.NeverEnds? {
          return true;
        }
        f := f.(endDate := Some(w.end));
      }
      form := f;
      return false;
    }

    /** `handleStudentSelect(id)`. */
    method HandleStudentSelect(id: int)
      modifies this
      ensures form == old(form).(studentIds := ToggleStudent(old(form.studentIds), id))
      ensures dateError == old(dateError)
    {
      form := form.(studentIds := ToggleStudent(form.studentIds, id));
    }

    /** The start-date picker's `onSelect`: with no lecture day selected it only shows an
        error; a day whose weekday id is not selected is refused and the start date is cleared
        through `handleChange` (the end date stays); otherwise the error is cleared and the
        date goes through `handleChange`. */
    method SelectStartDate(date: Day, levels: seq<Level>, courses: seq<Course>) returns (hangs: bool)
      modifies this
      ensures |old(form.days)| == 0 ==> form == old(form) && dateError == DaysFirstError && !hangs
      ensures |old(form.days)| > 0 && !StartDateAccepted(old(form.days), date) ==>
                form == old(form).(startDate := None) && dateError == old(dateError) && !hangs
      ensures |old(form.days)| > 0 && StartDateAccepted(old(form.days), date) && !hangs ==>
                dateError == "" && form == old(form).(startDate := Some(date), endDate := form.endDate)
      ensures var n := LectureCount(levels, courses, old(form.levelId));
              |old(form.days)| > 0 && StartDateAccepted(old(form.days), date) && !hangs ==>
                if n > 0 then form.endDate.Some? && IsEndDate(form.days, date, n, form.endDate.value)
                else form.endDate == old(form.endDate)
    {
      if |form.days| == 0 {
        dateError := DaysFirstError;
        return false;
      }
      if !StartDateAccepted(form.days, date) {
        hangs := HandleChange(StartDate(None), levels, courses);
        return;
      }
      dateError := "";
      hangs := HandleChange(StartDate(Some(date)), levels, courses);
    }
  }

  /** The check both the picker's `onSelect` and its `disabled` rule make on a day: the
      weekday id of the day (1..7) must be in the selected days, which hold `getDay()`
      numbers (0..6). */
  predicate StartDateAccepted(days: seq<int>, date: Day) {
    ConvertJsDayToId(JsWeekday(date)) in days
  }

  /** The calendar's `disabled` rule: days before today, and, once days are selected, days
      that fail the weekday check. */
  predicate CalendarDisabled(days: seq<int>, today: Day, date: Day) {
    date < today || (|days| > 0 && !StartDateAccepted(days, date))
  }

  /** The day checkboxes: checking day `id` appends it, unchecking removes every copy. */
  function CheckDay(days: seq<int>, id: int, checked: bool): (r: seq<int>)
    ensures checked ==> r == days + [id]
    ensures !checked ==> forall x :: x in r <==> x in days && x != id
  {
    if checked then days + [id] else RemoveAll(days, id)
  }

  /** Every day set the checkboxes (ids 0..6) can produce holds only `getDay()` numbers. */
  lemma CheckDayKeepsJsDays(days: seq<int>, id: int, checked: bool)
    requires forall i :: 0 <= i < |days| ==> 0 <= days[i] < 7
    requires 0 <= id < 7
    ensures forall i :: 0 <= i < |CheckDay(days, id, checked)| ==> 0 <= CheckDay(days, id, checked)[i] < 7
  {
    var r := CheckDay(days, id, checked);
    forall i | 0 <= i < |r|
      ensures 0 <= r[i] < 7
    {
      assert r[i] in r;
    }
  }

  /** On Monday to Saturday the picker and the walk agree: the date is accepted exactly when
      its weekday is a lecture day. */
  lemma AcceptedOffSunday(days: seq<int>, date: Day)
    requires JsWeekday(date) != 0
    ensures StartDateAccepted(days, date) <==> Selected(days, date)
  {
  }

  /** A Sunday can never be picked as a start date from checkbox-made day sets: the picker
      looks for 7, the checkboxes store Sunday as 0. With days selected the calendar disables
      every Sunday. */
  lemma SundayNeverAccepted(days: seq<int>, today: Day, date: Day)
    requires forall i :: 0 <= i < |days| ==> 0 <= days[i] < 7
    requires JsWeekday(date) == 0
    ensures !StartDateAccepted(days, date)
    ensures |days| > 0 ==> CalendarDisabled(days, today, date)
  {
  }

  /** With Sunday as the only lecture day, every date of the calendar is disabled. */
  lemma OnlySundayBlocksCalendar(today: Day, date: Day)
    ensures CalendarDisabled([0], today, date)
  {
  }

  // ---------------------------------------------------------------------
  // Student selection
  // ---------------------------------------------------------------------

  /** `ids.filter(x => x !== id)`. */
  function RemoveAll(ids: seq<int>, id: int): (r: seq<int>)
    ensures |r| <= |ids|
    ensures forall x :: x in r <==> x in ids && x != id
    ensures id !in ids ==> r == ids
  {
    if |ids| == 0 then []
    else (if ids[0] == id then [] else [ids[0]]) + RemoveAll(ids[1..], id)
  }

  /** `handleStudentSelect`: a selected id is removed (every copy), another one is appended. */
  function ToggleStudent(ids: seq<int>, id: int): seq<int> {
    if id in ids then RemoveAll(ids, id) else ids + [id]
  }

  /** Toggling flips the membership of the id and keeps every other id's membership. */
  lemma ToggleStudentMembership(ids: seq<int>, id: int, other: int)
    ensures id in ToggleStudent(ids, id) <==> id !in ids
    ensures other != id ==> (other in ToggleStudent(ids, id) <==> other in ids)
  {
  }

  /** Toggling twice restores the membership of every id; an id that was not selected is
      appended and removed again, which gives back exactly the original list. */
  lemma ToggleStudentTwice(ids: seq<int>, id: int, x: int)
    ensures x in ToggleStudent(ToggleStudent(ids, id), id) <==> x in ids
    ensures id !in ids ==> ToggleStudent(ToggleStudent(ids, id), id) == ids
  {
    if id !in ids {
      RemoveAppended(ids, id);
    }
  }

  lemma {:induction false} RemoveAppended(ids: seq<int>, id: int)
    requires id !in ids
    ensures RemoveAll(ids + [id], id) == ids
  {
    if |ids| > 0 {
      assert (ids + [id])[1..] == ids[1..] + [id];
      RemoveAppended(ids[1..], id);
    }
  }

  // ---------------------------------------------------------------------
  // Submit validation
  // ---------------------------------------------------------------------

  /** `handleSubmit`'s check: name, level, instructor, room, start time and start date must be
      set; the end date, the days and the students are not checked. */
  predicate SubmitAccepted(f: GroupForm) {
    f.name != "" && f.levelId != 0 && f.instructorId != 0 && f.roomId != 0
    && f.startTime != "" && f.startDate.Some?
  }

  /** After a change of days the form is refused until a start date is picked again. */
  lemma DaysChangeBlocksSubmit(f: GroupForm, days: seq<int>)
    ensures !SubmitAccepted(f.(days := days, startDate := None, endDate := None))
  {
  }

  /** The empty form of a new group is refused. */
  lemma EmptyFormRefused()
    ensures !SubmitAccepted(EmptyForm)
  {
  }

  // ---------------------------------------------------------------------
  // Response shapes
  // ---------------------------------------------------------------------

  /** `o?.key` on a value that may be absent. */
  function Sub(o: Option<Json>, key: string): (r: Option<Json>)
    ensures r.Some? ==> o.Some? && o.value.JObj? && key in o.value.fields
  {
    if o.Some? then Field(o.value, key) else None
  }

  /** `extractData(response)`: the response itself when it is an array; else the first truthy
      one of `data.items`, `data.results`, `items`, `results`; else `data` when it is an
      array; else an empty array. */
  function ExtractData(response: Json): (r: Json)
    ensures IsArray(response) ==> r == response
    ensures r == response || r == JArr([]) || Truthy(r)
    ensures !IsArray(response) && r != JArr([]) ==> Some(r) in Candidates(response) || Sub(Some(response), "data") == Some(r)
    ensures !IsArray(response) && FirstTruthy(Candidates(response)).Some? ==> r == FirstTruthy(Candidates(response)).value
    ensures !IsArray(response) && FirstTruthy(Candidates(response)).None? ==>
              var data := Sub(Some(response), "data");
              r == if data.Some? && IsArray(data.value) then data.value else JArr([])
  {
    var data := Sub(Some(response), "data");
    FirstTruthyOfFour(Sub(data, "items"), Sub(data, "results"), Sub(Some(response), "items"), Sub(Some(response), "results"));
    if IsArray(response) then response
    else if TruthyOpt(Sub(data, "items")) then Sub(data, "items").value
    else if TruthyOpt(Sub(data, "results")) then Sub(data, "results").value
    else if TruthyOpt(Sub(Some(response), "items")) then Sub(Some(response), "items").value
    else if TruthyOpt(Sub(Some(response), "results")) then Sub(Some(response), "results").value
    else if data.Some? && IsArray(data.value) then data.value
    else JArr([])
  }

  /** The truthy-tested shapes, in the order `extractData` tries them; `None` where a
      property is absent. */
  function Candidates(response: Json): seq<Option<Json>> {
    var data := Sub(Some(response), "data");
    [Sub(data, "items"), Sub(data, "results"), Sub(Some(response), "items"), Sub(Some(response), "results")]
  }

  /** The first truthy value of a list of possibly absent values, if any. */
  function FirstTruthy(xs: seq<Option<Json>>): (r: Option<Json>)
    ensures r.None? <==> forall i :: 0 <= i < |xs| ==> !TruthyOpt(xs[i])
    ensures r.Some? ==> exists i :: 0 <= i < |xs| && xs[i] == r && Truthy(r.value)
                          && forall j :: 0 <= j < i ==> !TruthyOpt(xs[j])
  {
    if |xs| == 0 then None
    else if TruthyOpt(xs[0]) then xs[0]
    else
      var r := FirstTruthy(xs[1..]);
      assert forall i :: 0 <= i < |xs| - 1 ==> xs[1..][i] == xs[i + 1];
      r
  }

  /** On four shapes, the first truthy one. */
  lemma FirstTruthyOfFour(a: Option<Json>, b: Option<Json>, c: Option<Json>, d: Option<Json>)
    ensures FirstTruthy([a, b, c, d]) ==
              if TruthyOpt(a) then a else if TruthyOpt(b) then b
              else if TruthyOpt(c) then c else if TruthyOpt(d) then d else None
  {
    assert [d][1..] == [];
    assert FirstTruthy([d]) == if TruthyOpt(d) then d else None;
    assert [c, d][1..] == [d];
    assert FirstTruthy([c, d]) == if TruthyOpt(c) then c else FirstTruthy([d]);
    assert [b, c, d][1..] == [c, d];
    assert FirstTruthy([b, c, d]) == if TruthyOpt(b) then b else FirstTruthy([c, d]);
    assert [a, b, c, d][1..] == [b, c, d];
  }

  /** The envelopes the backend may wrap a list in. */
  datatype Envelope = Bare | DataItems | DataResults | Items | Results | DataArray

  function Wrap(k: Envelope, xs: seq<Json>): Json {
    match k
    case Bare => JArr(xs)
    case DataItems => JObj(map["data" := JObj(map["items" := JArr(xs)])])
    case DataResults => JObj(map["data" := JObj(map["results" := JArr(xs)])])
    case Items => JObj(map["items" := JArr(xs)])
    case Results => JObj(map["results" := JArr(xs)])
    case DataArray => JObj(map["data" := JArr(xs)])
  }

  /** Round trip: a list wrapped in any known envelope comes back out unchanged, the empty
      list included. */
  lemma ExtractDataUnwraps(k: Envelope, xs: seq<Json>)
    ensures ExtractData(Wrap(k, xs)) == JArr(xs)
  {
    var r := Wrap(k, xs);
    match k
    case Bare =>
    case DataItems =>
      assert Sub(Some(r), "data") == Some(JObj(map["items" := JArr(xs)]));
    case DataResults =>
      assert Sub(Some(r), "data") == Some(JObj(map["results" := JArr(xs)]));
      assert "items" !in map["results" := JArr(xs)];
    case Items =>
      assert "data" !in r.fields;
    case Results =>
      assert "data" !in r.fields && "items" !in r.fields;
    case DataArray =>
      assert Sub(Some(r), "data") == Some(JArr(xs));
      assert "items" !in r.fields && "results" !in r.fields;
  }

  /** Paginated envelopes take precedence: when `data.items` is truthy it is the result,
      whatever top-level `items` or `results` hold. */
  lemma DataItemsFirst(response: Json)
    requires !IsArray(response) && TruthyOpt(Sub(Sub(Some(response), "data"), "items"))
    ensures ExtractData(response) == Sub(Sub(Some(response), "data"), "items").value
  {
  }

  /** A response that matches no shape (null, a number, an object without those keys) gives
      an empty list. */
  lemma ExtractDataFallback(response: Json)
    requires !IsArray(response) && (!response.JObj? || ("data" !in response.fields && "items" !in response.fields && "results" !in response.fields))
    ensures ExtractData(response) == JArr([])
  {
  }
}
