/** The booking screen (src/pages/Booking.tsx): enrolling a student in a group, adding a
    group, recording payments, and the payment ledger from which a student's remaining
    balance is computed. Amounts are integers. */
module Booking {
  import opened Wrappers
  import opened Text

  /** A group as this screen stores it; `students` may be missing from a stored record. */
  datatype Group = Group(
    id: string,
    name: string,
    courseId: string,
    branchId: string,
    startDate: string,
    students: Option<seq<string>>)

  /** The part of a course the balance reads: `totalPrice`, which may be missing. */
  datatype Course = Course(id: string, totalPrice: Option<int>)

  /** A payment record; `date` is the clock's reading when it was saved. */
  datatype Payment = Payment(
    id: string,
    studentId: string,
    groupId: string,
    amount: int,
    date: string,
    status: string,
    note: string)

  /** The payment dialog's state. */
  datatype PaymentDialog = PaymentDialog(open: bool, studentId: string, groupId: string)

  const ClosedDialog := PaymentDialog(false, "", "")

  /** The new-group form. */
  datatype GroupForm = GroupForm(name: string, courseId: string, branchId: string, startDate: string)

  const EmptyGroupForm := GroupForm("", "", "", "")

  // ---------------------------------------------------------------------
  // Booking
  // ---------------------------------------------------------------------

  /** `g.students || []`. */
  function StudentsOf(g: Group): seq<string> {
    g.students.GetOr([])
  }

  /** `groups.map(g => g.id === groupId ? { ...g, students: [...(g.students || []), studentId] } : g)`. */
  function BookedGroups(groups: seq<Group>, groupId: string, studentId: string): (r: seq<Group>)
    ensures |r| == |groups|
    ensures forall i :: 0 <= i < |groups| && groups[i].id != groupId ==> r[i] == groups[i]
    ensures forall i :: 0 <= i < |groups| && groups[i].id == groupId ==>
              r[i] == groups[i].(students := Some(StudentsOf(groups[i]) + [studentId]))
  {
    if |groups| == 0 then []
    else
      var g := groups[0];
      var h := if g.id == groupId then g.(students := Some(StudentsOf(g) + [studentId])) else g;
      [h] + BookedGroups(groups[1..], groupId, studentId)
  }

  /** Booking adds the student exactly once to every group with the selected id: no check for
      an existing enrolment is made, so booking twice lists the student twice. Every other
      student keeps the count they had. */
  lemma BookingCounts(groups: seq<Group>, groupId: string, studentId: string, i: nat, other: string)
    requires i < |groups| && groups[i].id == groupId
    ensures var after := StudentsOf(BookedGroups(groups, groupId, studentId)[i]);
            && multiset(after)[studentId] == multiset(StudentsOf(groups[i]))[studentId] + 1
            && (other != studentId ==> multiset(after)[other] == multiset(StudentsOf(groups[i]))[other])
  {
    var before := StudentsOf(groups[i]);
    assert StudentsOf(BookedGroups(groups, groupId, studentId)[i]) == before + [studentId];
    assert multiset(before + [studentId]) == multiset(before) + multiset{studentId};
  }

  // ---------------------------------------------------------------------
  // The ledger
  // ---------------------------------------------------------------------

  /** A payment for this student in this group. */
  predicate Matches(p: Payment, studentId: string, groupId: string) {
    p.studentId == studentId && p.groupId == groupId
  }

  /** `getStudentPayment`: the matching payments, in the order they were recorded. */
  function StudentPayments(payments: seq<Payment>, studentId: string, groupId: string): (r: seq<Payment>)
    ensures |r| <= |payments|
    ensures forall p :: p in r <==> p in payments && Matches(p, studentId, groupId)
  {
    if |payments| == 0 then []
    else
      var init := StudentPayments(payments[..|payments| - 1], studentId, groupId);
      var last := payments[|payments| - 1];
      assert payments == payments[..|payments| - 1] + [last];
      if Matches(last, studentId, groupId) then init + [last] else init
  }

  /** Keeping the matching payments of a concatenation keeps them from each part, in order. */
  lemma {:induction false} StudentPaymentsAppend(a: seq<Payment>, b: seq<Payment>, studentId: string, groupId: string)
    ensures StudentPayments(a + b, studentId, groupId)
            == StudentPayments(a, studentId, groupId) + StudentPayments(b, studentId, groupId)
  {
    if |b| > 0 {
      var init := b[..|b| - 1];
      assert (a + b)[..|a + b| - 1] == a + init;
      StudentPaymentsAppend(a, init, studentId, groupId);
    } else {
      assert a + b == a;
    }
  }

  /** The sum of the amounts: `reduce((acc, p) => acc + p.amount, 0)`. */
  function TotalPaid(payments: seq<Payment>): int {
    if |payments| == 0 then 0 else TotalPaid(payments[..|payments| - 1]) + payments[|payments| - 1].amount
  }

  lemma {:induction false} TotalPaidAppend(a: seq<Payment>, b: seq<Payment>)
    ensures TotalPaid(a + b) == TotalPaid(a) + TotalPaid(b)
  {
    if |b| > 0 {
      var init := b[..|b| - 1];
      assert (a + b)[..|a + b| - 1] == a + init;
      TotalPaidAppend(a, init);
    } else {
      assert a + b == a;
    }
  }

  /** `groups.find(g => g.id === groupId)`. */
  function FindGroup(groups: seq<Group>, groupId: string): (r: Option<Group>)
    ensures r.Some? ==> r.value in groups && r.value.id == groupId
    ensures r.Some? ==> exists i :: 0 <= i < |groups| && groups[i] == r.value
                          && forall j :: 0 <= j < i ==> groups[j].id != groupId
    ensures r.None? <==> forall g :: g in groups ==> g.id != groupId
  {
    if |groups| == 0 then None
    else if groups[0].id == groupId then Some(groups[0])
    else
      var r := FindGroup(groups[1..], groupId);
      assert forall i :: 0 <= i < |groups| - 1 ==> groups[1..][i] == groups[i + 1];
      r
  }

  /** `courses.find(c => c.id === courseId)`. */
  function FindCourse(courses: seq<Course>, courseId: string): (r: Option<Course>)
    ensures r.Some? ==> r.value in courses && r.value.id == courseId
    ensures r.Some? ==> exists i :: 0 <= i < |courses| && courses[i] == r.value
                          && forall j :: 0 <= j < i ==> courses[j].id != courseId
    ensures r.None? <==> forall c :: c in courses ==> c.id != courseId
  {
    if |courses| == 0 then None
    else if courses[0].id == courseId then Some(courses[0])
    else
      var r := FindCourse(courses[1..], courseId);
      assert forall i :: 0 <= i < |courses| - 1 ==> courses[1..][i] == courses[i + 1];
      r
  }

  /** `courses.find(...)?.totalPrice || 0` for the group's course: 0 when the group, its course
      or the price is missing; otherwise the price of the first course with the group's
      course id. */
  function CoursePrice(courses: seq<Course>, groups: seq<Group>, groupId: string): (total: int)
    ensures FindGroup(groups, groupId).None? ==> total == 0
    ensures FindGroup(groups, groupId).Some? && FindCourse(courses, FindGroup(groups, groupId).value.courseId).None?
            ==> total == 0
    ensures FindGroup(groups, groupId).Some? && FindCourse(courses, FindGroup(groups, groupId).value.courseId).Some?
            ==> total == FindCourse(courses, FindGroup(groups, groupId).value.courseId).value.totalPrice.GetOr(0)
  {
    match FindGroup(groups, groupId)
    case None => 0
    case Some(g) =>
      match FindCourse(courses, g.courseId)
      case None => 0
      case Some(c) => c.totalPrice.GetOr(0)
  }

  /** `getStudentBalance`: the course price less what the student paid for this group. */
  function Balance(courses: seq<Course>, groups: seq<Group>, payments: seq<Payment>,
                   studentId: string, groupId: string): int
  {
    CoursePrice(courses, groups, groupId) - TotalPaid(StudentPayments(payments, studentId, groupId))
  }

  /** A new payment of `a` for the student and group lowers their balance by exactly `a`; a
      payment for anyone else or another group leaves it as it was. */
  lemma PaymentLowersBalance(courses: seq<Course>, groups: seq<Group>, payments: seq<Payment>,
                             p: Payment, studentId: string, groupId: string)
    ensures Matches(p, studentId, groupId) ==>
              Balance(courses, groups, payments + [p], studentId, groupId)
              == Balance(courses, groups, payments, studentId, groupId) - p.amount
    ensures !Matches(p, studentId, groupId) ==>
              Balance(courses, groups, payments + [p], studentId, groupId)
              == Balance(courses, groups, payments, studentId, groupId)
  {
    StudentPaymentsAppend(payments, [p], studentId, groupId);
    var before := StudentPayments(payments, studentId, groupId);
    assert StudentPayments([p], studentId, groupId) == (if Matches(p, studentId, groupId) then [p] else []) by {
      assert [p][..0] == [];
    }
    if Matches(p, studentId, groupId) {
      assert TotalPaid(before + [p]) == TotalPaid(before) + p.amount by {
        assert (before + [p])[..|before|] == before;
      }
    } else {
      assert before + [] == before;
    }
  }

  /** With no payment recorded, the balance is the whole course price. */
  lemma NothingPaidOwesPrice(courses: seq<Course>, groups: seq<Group>, payments: seq<Payment>,
                             studentId: string, groupId: string)
    requires forall p :: p in payments ==> !Matches(p, studentId, groupId)
    ensures Balance(courses, groups, payments, studentId, groupId) == CoursePrice(courses, groups, groupId)
  {
    NoMatchingPayments(payments, studentId, groupId);
  }

  lemma {:induction false} NoMatchingPayments(payments: seq<Payment>, studentId: string, groupId: string)
    requires forall p :: p in payments ==> !Matches(p, studentId, groupId)
    ensures StudentPayments(payments, studentId, groupId) == []
  {
    if |payments| > 0 {
      var init := payments[..|payments| - 1];
      assert forall p :: p in init ==> p in payments;
      NoMatchingPayments(init, studentId, groupId);
      assert payments[|payments| - 1] in payments;
    }
  }

  // ---------------------------------------------------------------------
  // The screen
  // ---------------------------------------------------------------------

  /** The component state, with "latin_academy_groups" and "latin_academy_payments" as
      stored. */
  class BookingScreen {
    var storedGroups: seq<Group>
    var storedPayments: seq<Payment>

    var groups: seq<Group>
    var courses: seq<Course>
    var payments: seq<Payment>
    var selectedStudent: string
    var selectedGroup: string
    var paymentDialog: PaymentDialog
    var paymentAmount: string
    var paymentNote: string
    var groupDialogOpen: bool
    var newGroup: GroupForm

    /** The screen mounts: groups, courses and payments are read from storage. */
    constructor (groups0: seq<Group>, courses0: seq<Course>, payments0: seq<Payment>)
      ensures storedGroups == groups0 && groups == groups0
      ensures storedPayments == payments0 && payments == payments0 && courses == courses0
      ensures selectedStudent == "" && selectedGroup == "" && paymentDialog == ClosedDialog
      ensures paymentAmount == "" && paymentNote == "" && !groupDialogOpen && newGroup == EmptyGroupForm
    {
      storedGroups := groups0;
      storedPayments := payments0;
      groups := groups0;
      courses := courses0;
      payments := payments0;
      selectedStudent := "";
      selectedGroup := "";
      paymentDialog := ClosedDialog;
      paymentAmount := "";
      paymentNote := "";
      groupDialogOpen := false;
      newGroup := EmptyGroupForm;
    }

    /** `handleBook`: without a selected student and group nothing changes; otherwise the
        student is appended to the selected group, the groups are saved and the payment
        dialog opens for that student and group. */
    method Book() returns (booked: bool)
      modifies this`groups, this`storedGroups, this`paymentDialog
      ensures booked <==> selectedStudent != "" && selectedGroup != ""
      ensures !booked ==> groups == old(groups) && storedGroups == old(storedGroups)
                          && paymentDialog == old(paymentDialog)
      ensures booked ==> groups == BookedGroups(old(groups), selectedGroup, selectedStudent)
      ensures booked ==> storedGroups == groups
      ensures booked ==> paymentDialog == PaymentDialog(true, selectedStudent, selectedGroup)
    {
      if selectedStudent == "" || selectedGroup == "" {
        return false;
      }
      var updated := BookedGroups(groups, selectedGroup, selectedStudent);
      groups := updated;
      storedGroups := updated;
      paymentDialog := PaymentDialog(true, selectedStudent, selectedGroup);
      return true;
    }

    /** `handleAddGroup` with the id `generateId("grp-")` gives: every field of the form is
        required; the new group has no students and is appended, the groups are saved, and
        the dialog closes with an empty form. */
    method AddGroup(id: string) returns (added: bool)
      modifies this`groups, this`storedGroups, this`groupDialogOpen, this`newGroup
      ensures added <==> old(newGroup).name != "" && old(newGroup).courseId != ""
                         && old(newGroup).branchId != "" && old(newGroup).startDate != ""
      ensures !added ==> groups == old(groups) && storedGroups == old(storedGroups)
                         && groupDialogOpen == old(groupDialogOpen) && newGroup == old(newGroup)
      ensures added ==> groups == old(groups) + [Group(id, old(newGroup).name, old(newGroup).courseId,
                                                       old(newGroup).branchId, old(newGroup).startDate, Some([]))]
      ensures added ==> storedGroups == groups && !groupDialogOpen && newGroup == EmptyGroupForm
    {
      var f := newGroup;
      if f.name == "" || f.courseId == "" || f.branchId == "" || f.startDate == "" {
        return false;
      }
      var updated := groups + [Group(id, f.name, f.courseId, f.branchId, f.startDate, Some([]))];
      groups := updated;
      storedGroups := updated;
      groupDialogOpen := false;
      newGroup := EmptyGroupForm;
      return true;
    }

    /** `handleSavePayment` with the id `generateId("pay-")` gives and the clock's reading
        `now`: an empty amount or one `Number` cannot read is refused; otherwise one payment
        with status "paid" is appended for the dialog's student and group, the payments are
        saved, and the dialog closes and clears. */
    method SavePayment(id: string, now: string) returns (saved: bool)
      modifies this`payments, this`storedPayments, this`paymentDialog, this`paymentAmount, this`paymentNote
      ensures saved <==> old(paymentAmount) != "" && ParseNumber(old(paymentAmount)).Some?
      ensures !saved ==> payments == old(payments) && storedPayments == old(storedPayments)
                         && paymentDialog == old(paymentDialog) && paymentAmount == old(paymentAmount)
                         && paymentNote == old(paymentNote)
      ensures saved ==> payments == old(payments) + [Payment(id, old(paymentDialog).studentId, old(paymentDialog).groupId,
                                                             ParseNumber(old(paymentAmount)).value, now, "paid", old(paymentNote))]
      ensures saved ==> storedPayments == payments && paymentDialog == ClosedDialog
                        && paymentAmount == "" && paymentNote == ""
      ensures saved ==> Balance(courses, groups, payments, old(paymentDialog).studentId, old(paymentDialog).groupId)
                        == Balance(courses, groups, old(payments), old(paymentDialog).studentId, old(paymentDialog).groupId)
                           - ParseNumber(old(paymentAmount)).value
    {
      var amount := ParseNumber(paymentAmount);
      if paymentAmount == "" || amount.None? {
        return false;
      }
      var p := Payment(id, paymentDialog.studentId, paymentDialog.groupId, amount.value, now, "paid", paymentNote);
      PaymentLowersBalance(courses, groups, payments, p, p.studentId, p.groupId);
      var updated := payments + [p];
      payments := updated;
      storedPayments := updated;
      paymentDialog := ClosedDialog;
      paymentAmount := "";
      paymentNote := "";
      return true;
    }
  }
}
