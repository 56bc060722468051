/** The course form of the courses screen (src/pages/Courses.tsx): the list of levels being
    edited (add, change one field, remove with the first level protected), the reset to one
    default level, the checks made before submitting, and the payload sent to the server.
    Numeric inputs are integers; `None` stands for a value that is missing or NaN. */
module Courses {
  import opened Wrappers
  import opened Text

  /** A level in the form. `id` is present only for a level loaded from an existing course. */
  datatype Level = Level(
    id: Option<int>,
    name: string,
    description: Option<string>,
    price: Option<int>,
    sessionsCount: Option<int>,
    sessionsDiortion: Option<int>)

  /** The course form (`formData`). */
  datatype CourseForm = CourseForm(
    name: string,
    description: Option<string>,
    categoryId: Option<int>,
    isActive: Option<bool>,
    levels: seq<Level>)

  /** A course as the server returns it, as far as the form copies it. */
  datatype Course = Course(
    id: int,
    name: string,
    description: Option<string>,
    categoryId: Option<int>,
    isActive: Option<bool>,
    levels: Option<seq<Level>>)

  /** The four level fields the form edits, with their new values. */
  datatype LevelEdit =
    | SetName(name: string)
    | SetPrice(price: Option<int>)
    | SetSessionsCount(count: Option<int>)
    | SetSessionsDiortion(duration: Option<int>)

  /** A number's truthiness: missing, NaN and 0 are falsy. */
  predicate TruthyNum(n: Option<int>) { n.Some? && n.value != 0 }

  /** `n || 0`. */
  function OrZero(n: Option<int>): (r: int)
    ensures TruthyNum(n) ==> r == n.value
    ensures !TruthyNum(n) ==> r == 0
  {
    n.GetOr(0)
  }

  // ---------------------------------------------------------------------
  // Level list edits
  // ---------------------------------------------------------------------

  /** `المستوى ${n}` ("level n"). */
  function LevelName(n: nat): string {
    "المستوى " + NatToString(n)
  }

  /** Different numbers give different level names. */
  lemma LevelNamesDistinct(a: nat, b: nat)
    requires a != b
    ensures LevelName(a) != LevelName(b)
  {
    var p := "المستوى ";
    if LevelName(a) == LevelName(b) {
      assert NatToString(a) == LevelName(a)[|p|..];
      assert NatToString(b) == LevelName(b)[|p|..];
      NatToStringInjective(a, b);
    }
  }

  /** A new level numbered `n`, with zero price, sessions and duration. */
  function NewLevel(n: nat): Level {
    Level(None, LevelName(n), Some(""), Some(0), Some(0), Some(0))
  }

  /** `handleAddLevel`: a level named after the next number is appended. */
  function WithNewLevel(levels: seq<Level>): (r: seq<Level>)
    ensures |r| == |levels| + 1
    ensures r[..|levels|] == levels
    ensures r[|levels|] == NewLevel(|levels| + 1)
  {
    levels + [NewLevel(|levels| + 1)]
  }

  /** Every level is named after its position, as the levels of a reset form and the ones
      added to it are. */
  predicate NumberedInOrder(levels: seq<Level>) {
    forall i :: 0 <= i < |levels| ==> levels[i].name == LevelName(i + 1)
  }

  /** Adding a level keeps the levels named after their positions, so their names stay
      distinct. */
  lemma NewLevelKeepsNumbering(levels: seq<Level>)
    requires NumberedInOrder(levels)
    ensures NumberedInOrder(WithNewLevel(levels))
    ensures forall i, j :: 0 <= i < j < |levels| + 1 ==> WithNewLevel(levels)[i].name != WithNewLevel(levels)[j].name
  {
    var r := WithNewLevel(levels);
    forall i | 0 <= i < |r| ensures r[i].name == LevelName(i + 1) {
      if i < |levels| {
        assert r[i] == r[..|levels|][i];
      }
    }
    forall i, j | 0 <= i < j < |r| ensures r[i].name != r[j].name {
      LevelNamesDistinct(i + 1, j + 1);
    }
  }

  /** One field of a level set to a new value: `{ ...level, [field]: value }`. */
  function ApplyEdit(l: Level, e: LevelEdit): (r: Level)
    ensures r.id == l.id && r.description == l.description
    ensures r.name == (if e.SetName? then e.name else l.name)
    ensures r.price == (if e.SetPrice? then e.price else l.price)
    ensures r.sessionsCount == (if e.SetSessionsCount? then e.count else l.sessionsCount)
    ensures r.sessionsDiortion == (if e.SetSessionsDiortion? then e.duration else l.sessionsDiortion)
  {
    match e
    case SetName(v) => l.(name := v)
    case SetPrice(v) => l.(price := v)
    case SetSessionsCount(v) => l.(sessionsCount := v)
    case SetSessionsDiortion(v) => l.(sessionsDiortion := v)
  }

  /** Setting a field twice keeps only the second value. */
  lemma ApplyEditTwice(l: Level, e1: LevelEdit, e2: LevelEdit)
    requires e1.SetName? == e2.SetName? && e1.SetPrice? == e2.SetPrice?
    requires e1.SetSessionsCount? == e2.SetSessionsCount?
    ensures ApplyEdit(ApplyEdit(l, e1), e2) == ApplyEdit(l, e2)
  {
  }

  /** `handleLevelChange(idx, field, value)` on a position inside the list. */
  function ChangedLevels(levels: seq<Level>, idx: nat, e: LevelEdit): (r: seq<Level>)
    requires idx < |levels|
  {
    levels[idx := ApplyEdit(levels[idx], e)]
  }

  /** Changing a level's field changes that level only, and in that level only that field. */
  lemma ChangeTouchesOneLevel(levels: seq<Level>, idx: nat, e: LevelEdit, j: nat)
    requires idx < |levels| && j < |levels|
    ensures |ChangedLevels(levels, idx, e)| == |levels|
    ensures j != idx ==> ChangedLevels(levels, idx, e)[j] == levels[j]
    ensures ChangedLevels(levels, idx, e)[idx].id == levels[idx].id
    ensures !e.SetSessionsDiortion? ==> ChangedLevels(levels, idx, e)[idx].sessionsDiortion == levels[idx].sessionsDiortion
  {
  }

  /** `handleRemoveLevel(idx)`: position 0 is refused; otherwise `splice(idx, 1)`, which
      removes nothing past the end. */
  function RemovedLevels(levels: seq<Level>, idx: nat): (r: seq<Level>)
    ensures idx == 0 || idx >= |levels| ==> r == levels
    ensures 0 < idx < |levels| ==> |r| == |levels| - 1
  {
    if idx == 0 || idx >= |levels| then levels else levels[..idx] + levels[idx + 1..]
  }

  /** Removing keeps the first level, drops exactly the level at `idx`, and keeps the others
      in their order. */
  lemma RemoveKeepsOthers(levels: seq<Level>, idx: nat)
    requires 0 < idx < |levels|
    ensures RemovedLevels(levels, idx)[0] == levels[0]
    ensures forall j :: 0 <= j < idx ==> RemovedLevels(levels, idx)[j] == levels[j]
    ensures forall j :: idx < j < |levels| ==> RemovedLevels(levels, idx)[j - 1] == levels[j]
    ensures multiset(RemovedLevels(levels, idx)) + multiset{levels[idx]} == multiset(levels)
  {
    var r := RemovedLevels(levels, idx);
    assert levels == levels[..idx] + [levels[idx]] + levels[idx + 1..];
    assert multiset(levels) == multiset(levels[..idx]) + multiset{levels[idx]} + multiset(levels[idx + 1..]);
  }

  /** The first level survives any sequence of removals. */
  lemma {:induction false} FirstLevelSurvives(levels: seq<Level>, idxs: seq<nat>)
    requires |levels| > 0
    ensures |RemoveEach(levels, idxs)| > 0 && RemoveEach(levels, idxs)[0] == levels[0]
  {
    if |idxs| > 0 {
      var next := RemovedLevels(levels, idxs[0]);
      if 0 < idxs[0] < |levels| {
        RemoveKeepsOthers(levels, idxs[0]);
        assert |next| > 0 by {
          assert |levels| >= 2;
        }
      }
      FirstLevelSurvives(next, idxs[1..]);
    }
  }

  /** Removing at each position of `idxs` in turn. */
  function RemoveEach(levels: seq<Level>, idxs: seq<nat>): seq<Level>
    decreases |idxs|
  {
    if |idxs| == 0 then levels else RemoveEach(RemovedLevels(levels, idxs[0]), idxs[1..])
  }

  // ---------------------------------------------------------------------
  // Reset, submit checks and the payload
  // ---------------------------------------------------------------------

  /** The form `resetForm` leaves: empty fields, category 0, active, and one level,
      "المستوى 1", with zero price, sessions and duration. */
  function ResetCourseForm(): (f: CourseForm)
    ensures |f.levels| == 1 && f.levels[0] == NewLevel(1)
    ensures NumberedInOrder(f.levels)
  {
    CourseForm("", Some(""), Some(0), Some(true), [NewLevel(1)])
  }

  /** The default level is literally "المستوى 1". */
  lemma DefaultLevelName()
    ensures ResetCourseForm().levels[0].name == "المستوى 1"
  {
    SmallNumerals();
  }

  /** Why `handleSubmit` refuses a form. */
  datatype Rejection = MissingRequired | NoLevels | MissingDuration

  /** Some level has a falsy `sessionsDiortion`. */
  predicate SomeDurationMissing(levels: seq<Level>) {
    exists i :: 0 <= i < |levels| && !TruthyNum(levels[i].sessionsDiortion)
  }

  /** The checks of `handleSubmit`, in their order. */
  function Rejected(f: CourseForm): (r: Option<Rejection>)
    ensures r.None? <==> f.name != "" && TruthyNum(f.categoryId) && |f.levels| > 0
                         && forall i :: 0 <= i < |f.levels| ==> TruthyNum(f.levels[i].sessionsDiortion)
    ensures r == Some(MissingRequired) <==> f.name == "" || !TruthyNum(f.categoryId)
  {
    if f.name == "" || !TruthyNum(f.categoryId) then Some(MissingRequired)
    else if |f.levels| == 0 then Some(NoLevels)
    else if SomeDurationMissing(f.levels) then Some(MissingDuration)
    else None
  }

  /** A reset form cannot be submitted as it is: its level has no lecture duration yet. */
  lemma ResetFormRefused(name: string, categoryId: int)
    requires name != "" && categoryId != 0
    ensures Rejected(ResetCourseForm().(name := name, categoryId := Some(categoryId))) == Some(MissingDuration)
  {
    var f := ResetCourseForm().(name := name, categoryId := Some(categoryId));
    assert !TruthyNum(f.levels[0].sessionsDiortion);
  }

  /** A level as sent to the server. `id` is sent only for a level that had one. */
  datatype LevelPayload = LevelPayload(
    id: Option<int>,
    name: string,
    description: string,
    price: int,
    sessionsCount: int,
    sessionsDiortion: int)

  /** The course as sent: `id` only when editing. */
  datatype CoursePayload = CoursePayload(
    id: Option<int>,
    name: string,
    description: string,
    categoryId: int,
    isActive: bool,
    levels: seq<LevelPayload>)

  /** One level of the payload; `keepId` is the edit mode, where a level with an id keeps it.
      Missing texts become "" and missing numbers 0. */
  function LevelToPayload(l: Level, keepId: bool): LevelPayload {
    LevelPayload(if keepId then l.id else None, l.name, l.description.GetOr(""),
                 OrZero(l.price), OrZero(l.sessionsCount), OrZero(l.sessionsDiortion))
  }

  function LevelsToPayload(levels: seq<Level>, keepId: bool): (r: seq<LevelPayload>)
    ensures |r| == |levels|
    ensures forall i :: 0 <= i < |levels| ==> r[i] == LevelToPayload(levels[i], keepId)
  {
    seq(|levels|, i requires 0 <= i < |levels| => LevelToPayload(levels[i], keepId))
  }

  /** The payload built for a form that passed the checks: `CourseEditType` when editing a
      course with a (truthy) id, `CourseCreateType` otherwise. */
  function Payload(f: CourseForm, editId: Option<int>): CoursePayload
    requires TruthyNum(f.categoryId)
  {
    CoursePayload(editId, f.name, f.description.GetOr(""), f.categoryId.value,
                  f.isActive.GetOr(true), LevelsToPayload(f.levels, editId.Some?))
  }

  /** In the edit payload a level keeps its id exactly when it had one; a new course sends no
      level ids. Each level keeps its name, and its missing numbers are sent as 0. */
  lemma PayloadLevels(f: CourseForm, editId: Option<int>, i: nat)
    requires TruthyNum(f.categoryId) && i < |f.levels|
    ensures var p := Payload(f, editId).levels[i];
            && (editId.Some? ==> p.id == f.levels[i].id)
            && (editId.None? ==> p.id.None?)
            && p.name == f.levels[i].name
            && (!TruthyNum(f.levels[i].price) ==> p.price == 0)
            && (!TruthyNum(f.levels[i].sessionsCount) ==> p.sessionsCount == 0)
  {
  }

  /** Every level of an accepted form is sent with a non-zero lecture duration. */
  lemma AcceptedPayloadHasDurations(f: CourseForm, editId: Option<int>)
    requires Rejected(f).None?
    ensures forall i :: 0 <= i < |Payload(f, editId).levels| ==> Payload(f, editId).levels[i].sessionsDiortion != 0
    ensures |Payload(f, editId).levels| > 0
  {
  }

  // ---------------------------------------------------------------------
  // The form's state
  // ---------------------------------------------------------------------

  /** What the server call did. The create path catches a 409 conflict itself and carries on;
      any other failure, and every failure while editing, ends in the outer `catch`. */
  datatype ServerOutcome = Succeeded | Conflict | Failed

  /** What `handleSubmit` did: refused the form, or sent a payload. */
  datatype SubmitResult = Refused(why: Rejection) | Sent(payload: CoursePayload)

  class CourseDialog {
    var form: CourseForm
    var isEditMode: bool
    var editCourseId: Option<int>
    var dialogOpen: bool

    /** The screen mounts; the effect that finds no level adds the default first level. */
    constructor ()
      ensures form == CourseForm("", Some(""), Some(0), Some(true), [NewLevel(1)])
      ensures !isEditMode && editCourseId.None? && !dialogOpen
    {
      form := CourseForm("", Some(""), Some(0), Some(true), [NewLevel(1)]);
      isEditMode := false;
      editCourseId := None;
      dialogOpen := false;
    }

    method AddLevel()
      modifies this`form
      ensures form == old(form).(levels := WithNewLevel(old(form).levels))
    {
      form := form.(levels := form.levels + [NewLevel(|form.levels| + 1)]);
    }

    method ChangeLevel(idx: nat, e: LevelEdit)
      requires idx < |form.levels|
      modifies this`form
      ensures form == old(form).(levels := ChangedLevels(old(form).levels, idx, e))
    {
      var updated := form.levels;
      updated := updated[idx := ApplyEdit(updated[idx], e)];
      form := form.(levels := updated);
    }

    method RemoveLevel(idx: nat) returns (removed: bool)
      modifies this`form
      ensures removed <==> idx != 0
      ensures form == old(form).(levels := RemovedLevels(old(form).levels, idx))
    {
      if idx == 0 {
        return false;
      }
      if idx < |form.levels| {
        form := form.(levels := form.levels[..idx] + form.levels[idx + 1..]);
      }
      return true;
    }

    /** `resetForm`: one default level, and edit mode off. */
    method ResetForm()
      modifies this`form, this`isEditMode, this`editCourseId
      ensures form == ResetCourseForm() && !isEditMode && editCourseId.None?
    {
      form := CourseForm("", Some(""), Some(0), Some(true), [NewLevel(1)]);
      isEditMode := false;
      editCourseId := None;
    }

    /** `handleEdit(course)`: the course is copied into the form, with its levels and their
        ids, and the dialog opens in edit mode. */
    method Edit(c: Course)
      modifies this`form, this`isEditMode, this`editCourseId, this`dialogOpen
      ensures form == CourseForm(c.name, Some(c.description.GetOr("")), c.categoryId, c.isActive, c.levels.GetOr([]))
      ensures isEditMode && editCourseId == Some(c.id) && dialogOpen
    {
      form := CourseForm(c.name, Some(c.description.GetOr("")), c.categoryId, c.isActive, c.levels.GetOr([]));
      editCourseId := Some(c.id);
      isEditMode := true;
      dialogOpen := true;
    }

    /** `handleSubmit` with the server's outcome given: a refused form changes nothing; an
        accepted one sends the payload for editing (edit mode and a truthy id) or creating.
        The form is reset and the dialog closed after a success, and after a conflict on
        create; any other failure leaves them as they were. */
    method Submit(outcome: ServerOutcome) returns (r: SubmitResult)
      modifies this`form, this`isEditMode, this`editCourseId, this`dialogOpen
      ensures Rejected(old(form)).Some? ==> r == Refused(Rejected(old(form)).value)
      ensures Rejected(old(form)).Some? || (outcome != Succeeded && (outcome == Failed || (old(isEditMode) && TruthyNum(old(editCourseId)))))
              ==> form == old(form) && isEditMode == old(isEditMode) && editCourseId == old(editCourseId)
                  && dialogOpen == old(dialogOpen)
      ensures Rejected(old(form)).None? ==>
                r == Sent(Payload(old(form), if old(isEditMode) && TruthyNum(old(editCourseId)) then old(editCourseId) else None))
      ensures Rejected(old(form)).None? && (outcome == Succeeded || (outcome == Conflict && !(old(isEditMode) && TruthyNum(old(editCourseId)))))
              ==> form == ResetCourseForm() && !isEditMode && editCourseId.None? && !dialogOpen
    {
      var why := Rejected(form);
      if why.Some? {
        return Refused(why.value);
      }
      var editing := isEditMode && TruthyNum(editCourseId);
      r := Sent(Payload(form, if editing then editCourseId else None));
      if outcome == Succeeded || (outcome == Conflict && !editing) {
        ResetForm();
        dialogOpen := false;
      }
    }
  }
}
