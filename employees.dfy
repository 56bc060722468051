/** The employees screen (src/pages/Employees.tsx): adding an employee from the form,
    deleting by id, the name search and the role-name lookup. The list is kept under
    "latin_academy_employees". */
module Employees {
  import opened Wrappers
  import opened Text

  datatype Employee = Employee(
    id: string,
    name: string,
    birthDate: string,
    nationalId: string,
    qualification: string,
    status: string,
    salary: int,
    paymentMethod: string,
    paymentAmount: int,
    roleId: string)

  /** The form (`Partial<Employee>`): number inputs go through `parseFloat`, so they may be
      NaN, which is `None` here. */
  datatype EmployeeForm = EmployeeForm(
    name: string,
    birthDate: string,
    nationalId: string,
    qualification: string,
    status: string,
    salary: Option<int>,
    paymentMethod: string,
    paymentAmount: Option<int>,
    roleId: string)

  /** The form's initial and reset state. */
  const EmptyEmployeeForm := EmployeeForm("", "", "", "", "active", Some(0), "monthly", Some(0), "")

  /** A stored role as far as `getRoleName` reads it. */
  datatype Role = Role(id: string, name: string)

  /** `n || 0` on a number that may be NaN. */
  function OrZero(n: Option<int>): int {
    n.GetOr(0)
  }

  /** The fields `handleSubmit` requires. */
  predicate FormComplete(f: EmployeeForm) {
    f.name != "" && f.nationalId != "" && f.roleId != ""
  }

  /** The employee `handleSubmit` builds from a complete form and the id `generateId("emp-")`
      gives: texts are copied, missing numbers become 0. */
  function NewEmployee(f: EmployeeForm, id: string): (e: Employee)
    ensures e.id == id && e.name == f.name && e.nationalId == f.nationalId && e.roleId == f.roleId
    ensures e.birthDate == f.birthDate && e.qualification == f.qualification
    ensures e.status == f.status && e.paymentMethod == f.paymentMethod
    ensures f.salary.None? ==> e.salary == 0
    ensures f.salary.Some? ==> e.salary == f.salary.value
    ensures f.paymentAmount.None? ==> e.paymentAmount == 0
    ensures f.paymentAmount.Some? ==> e.paymentAmount == f.paymentAmount.value
  {
    Employee(id, f.name, f.birthDate, f.nationalId, f.qualification, f.status,
             OrZero(f.salary), f.paymentMethod, OrZero(f.paymentAmount), f.roleId)
  }

  // ---------------------------------------------------------------------
  // Delete
  // ---------------------------------------------------------------------

  /** `employees.filter(e => e.id !== id)`. */
  function WithoutId(employees: seq<Employee>, id: string): (r: seq<Employee>)
    ensures |r| <= |employees|
    ensures forall e :: e in r <==> e in employees && e.id != id
  {
    if |employees| == 0 then []
    else
      var init := WithoutId(employees[..|employees| - 1], id);
      var last := employees[|employees| - 1];
      assert employees == employees[..|employees| - 1] + [last];
      if last.id != id then init + [last] else init
  }

  /** Deleting from a concatenation deletes from each part and keeps their order. */
  lemma {:induction false} WithoutIdAppend(a: seq<Employee>, b: seq<Employee>, id: string)
    ensures WithoutId(a + b, id) == WithoutId(a, id) + WithoutId(b, id)
  {
    if |b| > 0 {
      var init := b[..|b| - 1];
      assert (a + b)[..|a + b| - 1] == a + init;
      WithoutIdAppend(a, init, id);
    } else {
      assert a + b == a;
    }
  }

  /** With no employee carrying the id, deleting it changes nothing. */
  lemma {:induction false} WithoutAbsentId(employees: seq<Employee>, id: string)
    requires forall e :: e in employees ==> e.id != id
    ensures WithoutId(employees, id) == employees
  {
    if |employees| > 0 {
      var init := employees[..|employees| - 1];
      assert forall e :: e in init ==> e in employees;
      WithoutAbsentId(init, id);
      assert employees[|employees| - 1] in employees;
      assert init + [employees[|employees| - 1]] == employees;
    }
  }

  /** Deleting twice is deleting once. */
  lemma DeleteIdempotent(employees: seq<Employee>, id: string)
    ensures WithoutId(WithoutId(employees, id), id) == WithoutId(employees, id)
  {
    WithoutAbsentId(WithoutId(employees, id), id);
  }

  /** Deleting an employee just added under a fresh id gives the list back as it was. */
  lemma DeleteUndoesAdd(employees: seq<Employee>, e: Employee)
    requires forall x :: x in employees ==> x.id != e.id
    ensures WithoutId(employees + [e], e.id) == employees
  {
    WithoutIdAppend(employees, [e], e.id);
    WithoutAbsentId(employees, e.id);
    assert WithoutId([e], e.id) == [] by {
      assert [e][..0] == [];
    }
    assert employees + [] == employees;
  }

  // ---------------------------------------------------------------------
  // Search and role names
  // ---------------------------------------------------------------------

  /** `employee.name.toLowerCase().includes(searchTerm.toLowerCase())`. */
  predicate NameMatches(e: Employee, term: string) {
    Contains(ToLower(e.name), ToLower(term))
  }

  /** `filteredEmployees`. */
  function Filtered(employees: seq<Employee>, term: string): (r: seq<Employee>)
    ensures |r| <= |employees|
    ensures forall e :: e in r <==> e in employees && NameMatches(e, term)
  {
    if |employees| == 0 then []
    else
      var init := Filtered(employees[..|employees| - 1], term);
      var last := employees[|employees| - 1];
      assert employees == employees[..|employees| - 1] + [last];
      if NameMatches(last, term) then init + [last] else init
  }

  /** An empty search shows every employee, in order. */
  lemma {:induction false} EmptySearchShowsAll(employees: seq<Employee>)
    ensures Filtered(employees, "") == employees
  {
    if |employees| > 0 {
      var init := employees[..|employees| - 1];
      EmptySearchShowsAll(init);
      assert StartsWith(ToLower(employees[|employees| - 1].name), ToLower(""));
      assert init + [employees[|employees| - 1]] == employees;
    }
  }

  /** Searching for an employee's own name, in any letter case, shows them. */
  lemma OwnNameFound(employees: seq<Employee>, i: nat, term: string)
    requires i < |employees| && ToLower(term) == ToLower(employees[i].name)
    ensures employees[i] in Filtered(employees, term)
  {
    var s := ToLower(employees[i].name);
    assert s[..|s|] == s;
    assert StartsWith(s, ToLower(term));
  }

  /** `getRoleName`: the name of the first role with the id, or "غير معروف" ("unknown")
      when there is none or its name is empty. */
  function RoleName(roles: seq<Role>, roleId: string): (r: string)
    ensures (forall x :: x in roles ==> x.id != roleId) ==> r == "غير معروف"
    ensures r != "غير معروف" ==> exists x :: x in roles && x.id == roleId && x.name == r
    ensures forall i :: 0 <= i < |roles| && roles[i].id == roleId
                        && (forall j :: 0 <= j < i ==> roles[j].id != roleId)
                        ==> r == if roles[i].name != "" then roles[i].name else "غير معروف"
  {
    if |roles| == 0 then "غير معروف"
    else if roles[0].id == roleId then (if roles[0].name != "" then roles[0].name else "غير معروف")
    else
      var r := RoleName(roles[1..], roleId);
      assert forall i :: 0 <= i < |roles| - 1 ==> roles[1..][i] == roles[i + 1];
      r
  }

  // ---------------------------------------------------------------------
  // The screen
  // ---------------------------------------------------------------------

  class EmployeesScreen {
    /** "latin_academy_employees" as stored. */
    var storedEmployees: seq<Employee>
    var employees: seq<Employee>
    var roles: seq<Role>
    var form: EmployeeForm
    var dialogOpen: bool

    /** The screen mounts: employees and roles are read from storage. */
    constructor (employees0: seq<Employee>, roles0: seq<Role>)
      ensures storedEmployees == employees0 && employees == employees0 && roles == roles0
      ensures form == EmptyEmployeeForm && !dialogOpen
    {
      storedEmployees := employees0;
      employees := employees0;
      roles := roles0;
      form := EmptyEmployeeForm;
      dialogOpen := false;
    }

    /** `handleSubmit` with the id `generateId("emp-")` gives: an incomplete form changes
        nothing; otherwise the new employee is appended and saved, and the form resets with
        the dialog closed. */
    method Submit(id: string) returns (added: bool)
      modifies this`employees, this`storedEmployees, this`form, this`dialogOpen
      ensures added <==> FormComplete(old(form))
      ensures !added ==> employees == old(employees) && storedEmployees == old(storedEmployees)
                         && form == old(form) && dialogOpen == old(dialogOpen)
      ensures added ==> employees == old(employees) + [NewEmployee(old(form), id)]
      ensures added ==> storedEmployees == employees && form == EmptyEmployeeForm && !dialogOpen
    {
      if form.name == "" || form.nationalId == "" || form.roleId == "" {
        return false;
      }
      var updated := employees + [NewEmployee(form, id)];
      employees := updated;
      storedEmployees := updated;
      form := EmptyEmployeeForm;
      dialogOpen := false;
      return true;
    }

    /** `handleDelete(id)`: every employee with the id is removed, the others keep their order,
        and the list is saved. */
    method Delete(id: string)
      modifies this`employees, this`storedEmployees
      ensures employees == WithoutId(old(employees), id) && storedEmployees == employees
    {
      var updated := WithoutId(employees, id);
      employees := updated;
      storedEmployees := updated;
    }
  }
}
