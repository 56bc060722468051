/** First-run seeding of the browser's storage (src/utils/mockData.ts, `initializeData`):
    governorates, roles, departments and branches are written when their key is absent;
    labs, employees and courses are written when their key is absent and the collection
    they refer to has entries; five further collections start as empty lists. No existing
    key is ever overwritten.

    The steps are stated over any set of default records (`Defaults`), and
    `SourceDefaults` holds the ones the dashboard writes; `generateId` is a parameter, `ids`,
    giving the id made at each of the eighteen places the seeding calls it. JavaScript property access on what storage holds is modelled as
    far as it can throw: `null.length`, `undefined.id` and `null.id` raise a `TypeError`,
    which ends the seeding with the writes made so far kept. */
module MockData {
  import opened Wrappers
  import opened Text
  import opened JsonValue
  import opened LocalStore

  const GovernoratesKey := "latin_academy_governorates"
  const RolesKey := "latin_academy_roles"
  const DepartmentsKey := "latin_academy_departments"
  const BranchesKey := "latin_academy_branches"
  const LabsKey := "latin_academy_labs"
  const EmployeesKey := "latin_academy_employees"
  const CoursesKey := "latin_academy_courses"
  const StudentsKey := "latin_academy_students"
  const TeachersKey := "latin_academy_teachers"
  const GroupsKey := "latin_academy_groups"
  const LeadsKey := "latin_academy_leads"
  const PaymentsKey := "latin_academy_payments"

  /** The keys the seeding may write. */
  const SeedKeys: set<string> := {GovernoratesKey, RolesKey, DepartmentsKey, BranchesKey,
    LabsKey, EmployeesKey, CoursesKey, StudentsKey, TeachersKey, GroupsKey, LeadsKey,
    PaymentsKey}

  /** The id `generateId` gives at each call site, numbered in the order the seeding
      reaches them: roles 0-2, departments 3-5, branches 6-7, labs 8-9, employees 10-11,
      the first course 12 and its levels 13-15, the second course 16 and its level 17. */
  type IdSource = nat -> string

  // ---------------------------------------------------------------------
  // Evaluation that may throw
  // ---------------------------------------------------------------------

  /** A JavaScript evaluation that raises a `TypeError` or gives a value. */
  datatype Outcome<T> = Threw | Got(value: T)

  /** `x.length > 0` is decided on this: `null.length` throws; arrays and strings have their
      length; an object has its `length` property when that is a number; anything else has
      an `undefined` length, which is not positive. */
  function LengthOf(j: Json): Outcome<int> {
    match j
    case JNull => Threw
    case JArr(items) => Got(|items|)
    case JStr(s) => Got(|s|)
    case JObj(fields) =>
      if "length" in fields && fields["length"].JNum? then Got(fields["length"].n) else Got(0)
    case _ => Got(0)
  }

  /** `x[i]`, with `undefined` as `None`: an array or string element, an object's property
      named by the index, or nothing. */
  function ElementAt(j: Json, i: nat): Option<Json> {
    match j
    case JArr(items) => if i < |items| then Some(items[i]) else None
    case JStr(s) => if i < |s| then Some(JStr([s[i]])) else None
    case JObj(_) => Field(j, NatToString(i))
    case _ => None
  }

  /** `x[i].id`: it throws when the element is `undefined` or `null`, and is `undefined`
      when the element has no `id` property. */
  function IdAt(j: Json, i: nat): (r: Outcome<Option<Json>>)
    ensures r.Threw? <==> ElementAt(j, i).None? || ElementAt(j, i) == Some(JNull)
    ensures r.Got? ==> r.value == Field(ElementAt(j, i).value, "id")
  {
    match ElementAt(j, i)
    case None => Threw
    case Some(x) => if x.JNull? then Threw else Got(Field(x, "id"))
  }

  /** The items of a stored list, or none when the value is not an array. */
  function Elements(j: Json): seq<Json> {
    if j.JArr? then j.items else []
  }

  // ---------------------------------------------------------------------
  // The default records
  // ---------------------------------------------------------------------

  /** What the seeding writes when a key is absent. Labs, employees and courses are
      templates: each receives, when written, the id of the branch, role or department it
      is attached to. */
  datatype Defaults = Defaults(
    governorates: Json,
    roles: Json,
    departments: Json,
    branches: Json,
    firstLab: map<string, Json>,
    secondLab: map<string, Json>,
    firstEmployee: map<string, Json>,
    secondEmployee: map<string, Json>,
    firstCourse: map<string, Json>,
    secondCourse: map<string, Json>)

  /** The two labs, both attached to `branchId`; an `undefined` id is dropped when the list
      is saved. */
  function LabList(d: Defaults, branchId: Option<Json>): Json {
    JArr([JObj(WithOpt(d.firstLab, "branchId", branchId)),
          JObj(WithOpt(d.secondLab, "branchId", branchId))])
  }

  /** The two employees, with the first and the second role. */
  function EmployeeList(d: Defaults, firstRole: Option<Json>, secondRole: Option<Json>): Json {
    JArr([JObj(WithOpt(d.firstEmployee, "roleId", firstRole)),
          JObj(WithOpt(d.secondEmployee, "roleId", secondRole))])
  }

  /** The two courses, with the first and the second department. */
  function CourseList(d: Defaults, firstDepartment: Option<Json>,
                      secondDepartment: Option<Json>): Json {
    JArr([JObj(WithOpt(d.firstCourse, "departmentId", firstDepartment)),
          JObj(WithOpt(d.secondCourse, "departmentId", secondDepartment))])
  }

  const Governorates: seq<string> := ["القاهرة", "الجيزة", "الإسكندرية", "البحر الأحمر",
    "البحيرة", "بني سويف", "بورسعيد", "جنوب سيناء", "الدقهلية", "دمياط", "سوهاج", "السويس",
    "الشرقية", "شمال سيناء", "الغربية", "الفيوم", "القليوبية", "قنا", "كفر الشيخ", "مطروح",
    "المنوفية", "المنيا", "الوادي الجديد"]

  /** The twelve screens the administrator role is given. */
  const AdminScreens: seq<string> := ["employees", "branches", "labs", "departments",
    "courses", "roles", "teachers", "students", "groups", "attendance", "finance",
    "messaging"]

  function Permission(screen: string, view: bool, add: bool, edit: bool, delete: bool): Json {
    JObj(map["screen" := JStr(screen), "view" := JBool(view), "add" := JBool(add),
             "edit" := JBool(edit), "delete" := JBool(delete)])
  }

  function AdminPermissions(): seq<Json> {
    seq(|AdminScreens|, i requires 0 <= i < |AdminScreens| =>
      Permission(AdminScreens[i], true, true, true, true))
  }

  function RoleRecord(id: string, code: string, name: string, permissions: seq<Json>): Json {
    JObj(map["id" := JStr(id), "code" := JStr(code), "name" := JStr(name),
             "permissions" := JArr(permissions)])
  }

  function DepartmentRecord(id: string, code: string, name: string): Json {
    JObj(map["id" := JStr(id), "code" := JStr(code), "name" := JStr(name)])
  }

  function BranchRecord(id: string, code: string, name: string, governorate: string): Json {
    JObj(map["id" := JStr(id), "code" := JStr(code), "name" := JStr(name),
             "governorate" := JStr(governorate)])
  }

  function LabTemplate(id: string, code: string, name: string, location: string,
                       capacity: int, kind: string): map<string, Json> {
    map["id" := JStr(id), "code" := JStr(code), "name" := JStr(name),
        "location" := JStr(location), "capacity" := JNum(capacity), "type" := JStr(kind)]
  }

  function EmployeeTemplate(id: string, name: string, birthDate: string, nationalId: string,
                            qualification: string, salary: int): map<string, Json> {
    map["id" := JStr(id), "name" := JStr(name), "birthDate" := JStr(birthDate),
        "nationalId" := JStr(nationalId), "qualification" := JStr(qualification),
        "status" := JStr("active"), "salary" := JNum(salary),
        "paymentMethod" := JStr("monthly"), "paymentAmount" := JNum(salary)]
  }

  function LevelRecord(id: string, code: string, courseName: string, levelNumber: int,
                       lectureCount: int, lectureDuration: int, price: int): Json {
    JObj(map["id" := JStr(id), "code" := JStr(code), "courseName" := JStr(courseName),
             "levelNumber" := JNum(levelNumber), "lectureCount" := JNum(lectureCount),
             "lectureDuration" := JNum(lectureDuration), "price" := JNum(price)])
  }

  function CourseTemplate(id: string, code: string, name: string, description: string,
                          totalDuration: int, totalPrice: int, levels: seq<Json>): map<string, Json> {
    map["id" := JStr(id), "code" := JStr(code), "name" := JStr(name),
        "description" := JStr(description), "totalDuration" := JNum(totalDuration),
        "totalPrice" := JNum(totalPrice), "levels" := JArr(levels)]
  }

  const EnglishCourse := "اللغة الإنجليزية للمبتدئين"
  const ComputerCourse := "أساسيات الكمبيوتر والإنترنت"

  function EnglishLevels(ids: IdSource): seq<Json> {
    [LevelRecord(ids(13), "CRS001-1", EnglishCourse, 1, 12, 2, 500),
     LevelRecord(ids(14), "CRS001-2", EnglishCourse, 2, 12, 2, 500),
     LevelRecord(ids(15), "CRS001-3", EnglishCourse, 3, 12, 2, 500)]
  }

  function GovernorateList(): Json {
    JArr(seq(|Governorates|, i requires 0 <= i < |Governorates| => JStr(Governorates[i])))
  }

  function DefaultRoles(ids: IdSource): Json {
    JArr([
      RoleRecord(ids(0), "ROL001", "مدير النظام", AdminPermissions()),
      RoleRecord(ids(1), "ROL002", "موظف استقبال", [
        Permission("students", true, true, true, false),
        Permission("groups", true, false, false, false),
        Permission("finance", true, true, false, false)]),
      RoleRecord(ids(2), "ROL003", "مدرس", [
        Permission("students", true, false, false, false),
        Permission("groups", true, false, false, false),
        Permission("attendance", true, true, true, false)])])
  }

  function DefaultDepartments(ids: IdSource): Json {
    JArr([DepartmentRecord(ids(3), "DEP001", "اللغة الإنجليزية"),
          DepartmentRecord(ids(4), "DEP002", "الكمبيوتر"),
          DepartmentRecord(ids(5), "DEP003", "تعليم الأطفال")])
  }

  function DefaultBranches(ids: IdSource): Json {
    JArr([BranchRecord(ids(6), "BR001", "الفرع الرئيسي - المعادي", "القاهرة"),
          BranchRecord(ids(7), "BR002", "فرع الإسكندرية", "الإسكندرية")])
  }

  function FirstCourseTemplate(ids: IdSource): map<string, Json> {
    CourseTemplate(ids(12), "CRS001", EnglishCourse, "دورة شاملة في أساسيات اللغة الإنجليزية",
                   48, 1500, EnglishLevels(ids))
  }

  function SecondCourseTemplate(ids: IdSource): map<string, Json> {
    CourseTemplate(ids(16), "CRS002", ComputerCourse,
                   "تعلم المهارات الأساسية للتعامل مع الكمبيوتر والإنترنت", 30, 1200,
                   [LevelRecord(ids(17), "CRS002-1", ComputerCourse, 1, 10, 3, 1200)])
  }

  /** The records src/utils/mockData.ts writes. */
  function SourceDefaults(ids: IdSource): Defaults {
    Defaults(
      GovernorateList(), DefaultRoles(ids), DefaultDepartments(ids), DefaultBranches(ids),
      LabTemplate(ids(8), "LAB001", "معمل الكمبيوتر 1", "الطابق الأول", 20, "computer"),
      LabTemplate(ids(9), "LAB002", "قاعة اللغات 1", "الطابق الثاني", 15, "language"),
      EmployeeTemplate(ids(10), "محمد أحمد", "1985-05-15", "28505151234567",
                       "بكالوريوس إدارة أعمال", 5000),
      EmployeeTemplate(ids(11), "سارة محمود", "1990-08-20", "29008201234567",
                       "ليسانس آداب", 3500),
      FirstCourseTemplate(ids), SecondCourseTemplate(ids))
  }

  // ---------------------------------------------------------------------
  // The steps
  // ---------------------------------------------------------------------

  /** `if (!localStorage.getItem(key)) saveToLocalStorage(key, v)`. */
  function PutIfAbsent(m: Entries, key: string, v: Json): Entries {
    if Present(m, key) then m else Write(m, key, v)
  }

  /** How many entries the employee and course steps need before they seed: `length > 0`
      as written, two once corrected, since both seeds read the second entry. */
  function Needed(fixed: bool): int {
    if fixed then 2 else 1
  }

  /** The labs step: seeded from the first branch when branches exist. */
  function SeedLabs(m: Entries, d: Defaults): Outcome<Entries> {
    if Present(m, LabsKey) then Got(m)
    else
      var branches := Read(m, BranchesKey, JArr([]));
      match LengthOf(branches)
      case Threw => Threw
      case Got(n) =>
        if n <= 0 then Got(m)
        else
          match IdAt(branches, 0)
          case Threw => Threw
          case Got(b) => Got(Write(m, LabsKey, LabList(d, b)))
  }

  /** The employees step: the two employees take the first and the second role. */
  function SeedEmployees(m: Entries, d: Defaults, fixed: bool): Outcome<Entries> {
    if Present(m, EmployeesKey) then Got(m)
    else
      var roles := Read(m, RolesKey, JArr([]));
      match LengthOf(roles)
      case Threw => Threw
      case Got(n) =>
        if n < Needed(fixed) then Got(m)
        else
          match IdAt(roles, 0)
          case Threw => Threw
          case Got(r0) =>
            match IdAt(roles, 1)
            case Threw => Threw
            case Got(r1) => Got(Write(m, EmployeesKey, EmployeeList(d, r0, r1)))
  }

  /** The courses step: the two courses take the first and the second department. */
  function SeedCourses(m: Entries, d: Defaults, fixed: bool): Outcome<Entries> {
    if Present(m, CoursesKey) then Got(m)
    else
      var departments := Read(m, DepartmentsKey, JArr([]));
      match LengthOf(departments)
      case Threw => Threw
      case Got(n) =>
        if n < Needed(fixed) then Got(m)
        else
          match IdAt(departments, 0)
          case Threw => Threw
          case Got(d0) =>
            match IdAt(departments, 1)
            case Threw => Threw
            case Got(d1) => Got(Write(m, CoursesKey, CourseList(d, d0, d1)))
  }

  /** The four collections seeded unconditionally. */
  function SeedBasics(m: Entries, d: Defaults): Entries {
    var m1 := PutIfAbsent(m, GovernoratesKey, d.governorates);
    var m2 := PutIfAbsent(m1, RolesKey, d.roles);
    var m3 := PutIfAbsent(m2, DepartmentsKey, d.departments);
    PutIfAbsent(m3, BranchesKey, d.branches)
  }

  /** The five collections that start empty. */
  function SeedEmptyLists(m: Entries): Entries {
    var m1 := PutIfAbsent(m, StudentsKey, JArr([]));
    var m2 := PutIfAbsent(m1, TeachersKey, JArr([]));
    var m3 := PutIfAbsent(m2, GroupsKey, JArr([]));
    var m4 := PutIfAbsent(m3, LeadsKey, JArr([]));
    PutIfAbsent(m4, PaymentsKey, JArr([]))
  }

  /** The storage after `initializeData`, and whether it ran to the end. */
  datatype Run = Run(entries: Entries, completed: bool)

  /** `initializeData` on the storage `m` with the default records `d`; `fixed` selects the
      corrected guard on the employee and course steps. */
  function Initialize(m: Entries, d: Defaults, fixed: bool): Run {
    FromLabs(SeedBasics(m, d), d, fixed)
  }

  /** The seeding from the labs step on. */
  function FromLabs(m: Entries, d: Defaults, fixed: bool): Run {
    match SeedLabs(m, d)
    case Threw => Run(m, false)
    case Got(m') => FromEmployees(m', d, fixed)
  }

  /** The seeding from the employees step on. */
  function FromEmployees(m: Entries, d: Defaults, fixed: bool): Run {
    match SeedEmployees(m, d, fixed)
    case Threw => Run(m, false)
    case Got(m') => FromCourses(m', d, fixed)
  }

  /** The seeding from the courses step on. */
  function FromCourses(m: Entries, d: Defaults, fixed: bool): Run {
    match SeedCourses(m, d, fixed)
    case Threw => Run(m, false)
    case Got(m') => Run(SeedEmptyLists(m'), true)
  }

  // ---------------------------------------------------------------------
  // Nothing stored is overwritten
  // ---------------------------------------------------------------------

  const BasicKeys: set<string> := {GovernoratesKey, RolesKey, DepartmentsKey, BranchesKey}
  const ListKeys: set<string> := {StudentsKey, TeachersKey, GroupsKey, LeadsKey, PaymentsKey}

  /** `a` and `b` hold the same thing under `key`, or both nothing. */
  predicate SameAt(a: Entries, b: Entries, key: string) {
    (key in a <==> key in b) && (key in a ==> a[key] == b[key])
  }

  // Each step changes at most its own keys, and only where they held no value.

  lemma BasicsKeep(m: Entries, d: Defaults, key: string)
    requires key !in BasicKeys || Present(m, key)
    ensures SameAt(m, SeedBasics(m, d), key)
  {
  }

  lemma LabsKeep(m: Entries, d: Defaults, key: string)
    requires key != LabsKey || Present(m, key)
    ensures SeedLabs(m, d).Got? ==> SameAt(m, SeedLabs(m, d).value, key)
  {
  }

  lemma EmployeesKeep(m: Entries, d: Defaults, fixed: bool, key: string)
    requires key != EmployeesKey || Present(m, key)
    ensures SeedEmployees(m, d, fixed).Got? ==> SameAt(m, SeedEmployees(m, d, fixed).value, key)
  {
  }

  lemma CoursesKeep(m: Entries, d: Defaults, fixed: bool, key: string)
    requires key != CoursesKey || Present(m, key)
    ensures SeedCourses(m, d, fixed).Got? ==> SameAt(m, SeedCourses(m, d, fixed).value, key)
  {
  }

  lemma EmptyListsKeep(m: Entries, key: string)
    requires key !in ListKeys || Present(m, key)
    ensures SameAt(m, SeedEmptyLists(m), key)
  {
  }

  lemma FromCoursesKeeps(m: Entries, d: Defaults, fixed: bool, key: string)
    requires (key != CoursesKey && key !in ListKeys) || Present(m, key)
    ensures SameAt(m, FromCourses(m, d, fixed).entries, key)
  {
    CoursesKeep(m, d, fixed, key);
    if SeedCourses(m, d, fixed).Got? {
      EmptyListsKeep(SeedCourses(m, d, fixed).value, key);
    }
  }

  lemma FromEmployeesKeeps(m: Entries, d: Defaults, fixed: bool, key: string)
    requires (key != EmployeesKey && key != CoursesKey && key !in ListKeys) || Present(m, key)
    ensures SameAt(m, FromEmployees(m, d, fixed).entries, key)
  {
    EmployeesKeep(m, d, fixed, key);
    if SeedEmployees(m, d, fixed).Got? {
      FromCoursesKeeps(SeedEmployees(m, d, fixed).value, d, fixed, key);
    }
  }

  lemma FromLabsKeeps(m: Entries, d: Defaults, fixed: bool, key: string)
    requires key !in SeedKeys - BasicKeys || Present(m, key)
    ensures SameAt(m, FromLabs(m, d, fixed).entries, key)
  {
    LabsKeep(m, d, key);
    if SeedLabs(m, d).Got? {
      FromEmployeesKeeps(SeedLabs(m, d).value, d, fixed, key);
    }
  }

  /** A key that already holds a value, or that the seeding never writes, is left exactly
      as it was: stored data is never overwritten. */
  lemma InitializeKeepsExisting(m: Entries, d: Defaults, fixed: bool, key: string)
    requires Present(m, key) || key !in SeedKeys
    ensures SameAt(m, Initialize(m, d, fixed).entries, key)
  {
    BasicsKeep(m, d, key);
    FromLabsKeeps(SeedBasics(m, d), d, fixed, key);
  }

  /** The governorates, roles, departments and branches always hold a value afterwards,
      and so do the five lists when the seeding ran to the end. */
  lemma InitializeFillsKeys(m: Entries, d: Defaults, fixed: bool)
    ensures var r := Initialize(m, d, fixed);
            Present(r.entries, GovernoratesKey) && Present(r.entries, RolesKey) &&
            Present(r.entries, DepartmentsKey) && Present(r.entries, BranchesKey)
    ensures var r := Initialize(m, d, fixed);
            r.completed ==>
              Present(r.entries, StudentsKey) && Present(r.entries, TeachersKey) &&
              Present(r.entries, GroupsKey) && Present(r.entries, LeadsKey) &&
              Present(r.entries, PaymentsKey)
  {
    var m4 := SeedBasics(m, d);
    BasicsFill(m, d);
    FromLabsKeeps(m4, d, fixed, GovernoratesKey);
    FromLabsKeeps(m4, d, fixed, RolesKey);
    FromLabsKeeps(m4, d, fixed, DepartmentsKey);
    FromLabsKeeps(m4, d, fixed, BranchesKey);
    CompletedFillsLists(m4, d, fixed);
  }

  lemma BasicsFill(m: Entries, d: Defaults)
    ensures var m4 := SeedBasics(m, d);
            Present(m4, GovernoratesKey) && Present(m4, RolesKey) &&
            Present(m4, DepartmentsKey) && Present(m4, BranchesKey)
  {
  }

  lemma EmptyListsFill(m: Entries)
    ensures var r := SeedEmptyLists(m);
            Present(r, StudentsKey) && Present(r, TeachersKey) && Present(r, GroupsKey) &&
            Present(r, LeadsKey) && Present(r, PaymentsKey)
  {
  }

  lemma CompletedFillsLists(m: Entries, d: Defaults, fixed: bool)
    ensures var r := FromLabs(m, d, fixed);
            r.completed ==>
              Present(r.entries, StudentsKey) && Present(r.entries, TeachersKey) &&
              Present(r.entries, GroupsKey) && Present(r.entries, LeadsKey) &&
              Present(r.entries, PaymentsKey)
  {
    if SeedLabs(m, d).Got? {
      var m5 := SeedLabs(m, d).value;
      if SeedEmployees(m5, d, fixed).Got? {
        var m6 := SeedEmployees(m5, d, fixed).value;
        if SeedCourses(m6, d, fixed).Got? {
          EmptyListsFill(SeedCourses(m6, d, fixed).value);
        }
      }
    }
  }

  // ---------------------------------------------------------------------
  // A second run changes nothing
  // ---------------------------------------------------------------------

  // A step that found nothing to do, or wrote its key, finds nothing to do again on any
  // storage that agrees with its result on the keys it reads and writes.

  lemma LabsStable(x: Entries, z: Entries, d: Defaults)
    requires SeedLabs(x, d).Got?
    requires SameAt(SeedLabs(x, d).value, z, LabsKey) && SameAt(x, z, BranchesKey)
    ensures SeedLabs(z, d) == Got(z)
  {
  }

  lemma EmployeesStable(x: Entries, z: Entries, d: Defaults, fixed: bool)
    requires SeedEmployees(x, d, fixed).Got?
    requires SameAt(SeedEmployees(x, d, fixed).value, z, EmployeesKey) && SameAt(x, z, RolesKey)
    ensures SeedEmployees(z, d, fixed) == Got(z)
  {
  }

  lemma CoursesStable(x: Entries, z: Entries, d: Defaults, fixed: bool)
    requires SeedCourses(x, d, fixed).Got?
    requires SameAt(SeedCourses(x, d, fixed).value, z, CoursesKey) && SameAt(x, z, DepartmentsKey)
    ensures SeedCourses(z, d, fixed) == Got(z)
  {
  }

  lemma EmptyListsIdle(m: Entries)
    ensures SeedEmptyLists(SeedEmptyLists(m)) == SeedEmptyLists(m)
  {
    EmptyListsFill(m);
    EmptyListsIdleWhenPresent(SeedEmptyLists(m));
  }

  lemma EmptyListsIdleWhenPresent(m: Entries)
    requires Present(m, StudentsKey) && Present(m, TeachersKey) && Present(m, GroupsKey)
    requires Present(m, LeadsKey) && Present(m, PaymentsKey)
    ensures SeedEmptyLists(m) == m
  {
  }

  lemma BasicsIdle(m: Entries, d: Defaults)
    requires Present(m, GovernoratesKey) && Present(m, RolesKey)
    requires Present(m, DepartmentsKey) && Present(m, BranchesKey)
    ensures SeedBasics(m, d) == m
  {
  }

  lemma FromCoursesAgain(m: Entries, d: Defaults, fixed: bool)
    ensures FromCourses(FromCourses(m, d, fixed).entries, d, fixed) == FromCourses(m, d, fixed)
  {
    if SeedCourses(m, d, fixed).Got? {
      var m' := SeedCourses(m, d, fixed).value;
      EmptyListsKeep(m', CoursesKey);
      CoursesKeep(m, d, fixed, DepartmentsKey);
      EmptyListsKeep(m', DepartmentsKey);
      CoursesStable(m, SeedEmptyLists(m'), d, fixed);
      EmptyListsIdle(m');
    }
  }

  lemma FromEmployeesAgain(m: Entries, d: Defaults, fixed: bool)
    ensures FromEmployees(FromEmployees(m, d, fixed).entries, d, fixed) == FromEmployees(m, d, fixed)
  {
    if SeedEmployees(m, d, fixed).Got? {
      var m' := SeedEmployees(m, d, fixed).value;
      var f := FromCourses(m', d, fixed).entries;
      FromCoursesKeeps(m', d, fixed, EmployeesKey);
      EmployeesKeep(m, d, fixed, RolesKey);
      FromCoursesKeeps(m', d, fixed, RolesKey);
      EmployeesStable(m, f, d, fixed);
      FromCoursesAgain(m', d, fixed);
    }
  }

  lemma FromLabsAgain(m: Entries, d: Defaults, fixed: bool)
    ensures FromLabs(FromLabs(m, d, fixed).entries, d, fixed) == FromLabs(m, d, fixed)
  {
    if SeedLabs(m, d).Got? {
      var m' := SeedLabs(m, d).value;
      var f := FromEmployees(m', d, fixed).entries;
      FromEmployeesKeeps(m', d, fixed, LabsKey);
      LabsKeep(m, d, BranchesKey);
      FromEmployeesKeeps(m', d, fixed, BranchesKey);
      LabsStable(m, f, d);
      FromEmployeesAgain(m', d, fixed);
    }
  }

  /** Running the seeding a second time changes nothing: every key it wrote is now present,
      and a step that stopped it stops it again at the same point. */
  lemma InitializeIdempotent(m: Entries, d: Defaults, fixed: bool)
    ensures Initialize(Initialize(m, d, fixed).entries, d, fixed) == Initialize(m, d, fixed)
  {
    var f := Initialize(m, d, fixed).entries;
    InitializeFillsKeys(m, d, fixed);
    BasicsIdle(f, d);
    FromLabsAgain(SeedBasics(m, d), d, fixed);
  }

  // ---------------------------------------------------------------------
  // What the seeded records refer to
  // ---------------------------------------------------------------------

  /** Labs are stored exactly when the stored branches are a non-empty collection whose
      first entry can be read, and then both labs carry that first branch's id. */
  predicate LabsFollowBranches(r: Entries) {
    var branches := Read(r, BranchesKey, JArr([]));
    var labs := Elements(Read(r, LabsKey, JArr([])));
    (Present(r, LabsKey) <==>
       LengthOf(branches).Got? && LengthOf(branches).value > 0 && IdAt(branches, 0).Got?) &&
    (Present(r, LabsKey) ==>
       |labs| == 2 && forall lab :: lab in labs ==> Field(lab, "branchId") == IdAt(branches, 0).value)
  }

  /** Employees are stored only when the stored roles reach the needed count, and then the
      two employees carry the first and the second role's id; with fewer roles there are
      none. */
  predicate EmployeesFollowRoles(r: Entries, fixed: bool) {
    var roles := Read(r, RolesKey, JArr([]));
    var employees := Elements(Read(r, EmployeesKey, JArr([])));
    (Present(r, EmployeesKey) ==>
       LengthOf(roles).Got? && LengthOf(roles).value >= Needed(fixed) &&
       IdAt(roles, 0).Got? && IdAt(roles, 1).Got? && |employees| == 2 &&
       Field(employees[0], "roleId") == IdAt(roles, 0).value &&
       Field(employees[1], "roleId") == IdAt(roles, 1).value) &&
    (LengthOf(roles).Got? && LengthOf(roles).value < Needed(fixed) ==> !Present(r, EmployeesKey))
  }

  /** Courses are stored only when the stored departments reach the needed count, and then
      the two courses carry the first and the second department's id; with fewer
      departments there are none. */
  predicate CoursesFollowDepartments(r: Entries, fixed: bool) {
    var departments := Read(r, DepartmentsKey, JArr([]));
    var courses := Elements(Read(r, CoursesKey, JArr([])));
    (Present(r, CoursesKey) ==>
       LengthOf(departments).Got? && LengthOf(departments).value >= Needed(fixed) &&
       IdAt(departments, 0).Got? && IdAt(departments, 1).Got? && |courses| == 2 &&
       Field(courses[0], "departmentId") == IdAt(departments, 0).value &&
       Field(courses[1], "departmentId") == IdAt(departments, 1).value) &&
    (LengthOf(departments).Got? && LengthOf(departments).value < Needed(fixed) ==>
       !Present(r, CoursesKey))
  }

  /** Where no labs were stored, the seeded labs follow the branches. */
  lemma LabsFromFirstBranch(m: Entries, d: Defaults, fixed: bool)
    requires !Present(m, LabsKey)
    ensures LabsFollowBranches(Initialize(m, d, fixed).entries)
  {
    BasicsKeep(m, d, LabsKey);
    LabsFromFirstBranchFrom(SeedBasics(m, d), d, fixed);
  }

  lemma LabsFromFirstBranchFrom(x: Entries, d: Defaults, fixed: bool)
    requires !Present(x, LabsKey)
    ensures LabsFollowBranches(FromLabs(x, d, fixed).entries)
  {
    var f := FromLabs(x, d, fixed).entries;
    FromLabsKeeps(x, d, fixed, BranchesKey);
    var branches := Read(x, BranchesKey, JArr([]));
    assert Read(f, BranchesKey, JArr([])) == branches;
    LabsStep(x, d);
    if SeedLabs(x, d).Got? {
      var m5 := SeedLabs(x, d).value;
      FromEmployeesKeeps(m5, d, fixed, LabsKey);
      assert SameAt(m5, f, LabsKey);
      if Present(m5, LabsKey) {
        LabListReference(d, IdAt(branches, 0).value);
      }
    }
  }

  /** The labs step on its own, where no labs are stored. */
  lemma LabsStep(m: Entries, d: Defaults)
    requires !Present(m, LabsKey)
    ensures var branches := Read(m, BranchesKey, JArr([]));
            var r := SeedLabs(m, d);
            r.Got? && Present(r.value, LabsKey) <==>
              LengthOf(branches).Got? && LengthOf(branches).value > 0 && IdAt(branches, 0).Got?
    ensures var branches := Read(m, BranchesKey, JArr([]));
            var r := SeedLabs(m, d);
            r.Got? && Present(r.value, LabsKey) ==>
              Read(r.value, LabsKey, JArr([])) == LabList(d, IdAt(branches, 0).value)
  {
  }

  /** Both labs carry the branch id they are given. */
  lemma LabListReference(d: Defaults, branchId: Option<Json>)
    ensures var labs := Elements(LabList(d, branchId));
            |labs| == 2 && forall lab :: lab in labs ==> Field(lab, "branchId") == branchId
  {
  }

  /** Where no employees were stored, the seeded employees follow the roles. */
  lemma EmployeesFromFirstRoles(m: Entries, d: Defaults, fixed: bool)
    requires !Present(m, EmployeesKey)
    ensures EmployeesFollowRoles(Initialize(m, d, fixed).entries, fixed)
  {
    BasicsKeep(m, d, EmployeesKey);
    EmployeesFromFirstRolesFrom(SeedBasics(m, d), d, fixed);
  }

  lemma EmployeesFromFirstRolesFrom(x: Entries, d: Defaults, fixed: bool)
    requires !Present(x, EmployeesKey)
    ensures EmployeesFollowRoles(FromLabs(x, d, fixed).entries, fixed)
  {
    var f := FromLabs(x, d, fixed).entries;
    FromLabsKeeps(x, d, fixed, RolesKey);
    var roles := Read(x, RolesKey, JArr([]));
    assert Read(f, RolesKey, JArr([])) == roles;
    LabsKeep(x, d, EmployeesKey);
    LabsKeep(x, d, RolesKey);
    if SeedLabs(x, d).Got? {
      var m5 := SeedLabs(x, d).value;
      assert Read(m5, RolesKey, JArr([])) == roles;
      EmployeesStep(m5, d, fixed);
      if SeedEmployees(m5, d, fixed).Got? {
        var m6 := SeedEmployees(m5, d, fixed).value;
        FromCoursesKeeps(m6, d, fixed, EmployeesKey);
        assert SameAt(m6, f, EmployeesKey);
        if Present(m6, EmployeesKey) {
          EmployeeListReference(d, IdAt(roles, 0).value, IdAt(roles, 1).value);
        }
      }
    }
  }

  /** The employees step on its own, where no employees are stored. */
  lemma EmployeesStep(m: Entries, d: Defaults, fixed: bool)
    requires !Present(m, EmployeesKey)
    ensures var roles := Read(m, RolesKey, JArr([]));
            var r := SeedEmployees(m, d, fixed);
            r.Got? && Present(r.value, EmployeesKey) ==>
              LengthOf(roles).Got? && LengthOf(roles).value >= Needed(fixed) &&
              IdAt(roles, 0).Got? && IdAt(roles, 1).Got? &&
              Read(r.value, EmployeesKey, JArr([])) ==
                EmployeeList(d, IdAt(roles, 0).value, IdAt(roles, 1).value)
    ensures var roles := Read(m, RolesKey, JArr([]));
            var r := SeedEmployees(m, d, fixed);
            LengthOf(roles).Got? && LengthOf(roles).value < Needed(fixed) ==> r == Got(m)
  {
  }

  /** The two employees carry the role ids they are given. */
  lemma EmployeeListReference(d: Defaults, firstRole: Option<Json>, secondRole: Option<Json>)
    ensures var employees := Elements(EmployeeList(d, firstRole, secondRole));
            |employees| == 2 && Field(employees[0], "roleId") == firstRole &&
            Field(employees[1], "roleId") == secondRole
  {
  }

  /** Where no courses were stored, the seeded courses follow the departments. */
  lemma CoursesFromFirstDepartments(m: Entries, d: Defaults, fixed: bool)
    requires !Present(m, CoursesKey)
    ensures CoursesFollowDepartments(Initialize(m, d, fixed).entries, fixed)
  {
    BasicsKeep(m, d, CoursesKey);
    CoursesFromFirstDepartmentsFrom(SeedBasics(m, d), d, fixed);
  }

  lemma CoursesFromFirstDepartmentsFrom(x: Entries, d: Defaults, fixed: bool)
    requires !Present(x, CoursesKey)
    ensures CoursesFollowDepartments(FromLabs(x, d, fixed).entries, fixed)
  {
    LabsKeep(x, d, CoursesKey);
    if SeedLabs(x, d).Got? {
      var m5 := SeedLabs(x, d).value;
      EmployeesKeep(m5, d, fixed, CoursesKey);
      if SeedEmployees(m5, d, fixed).Got? {
        CoursesFromCourseStep(SeedEmployees(m5, d, fixed).value, d, fixed);
      } else {
        assert FromLabs(x, d, fixed).entries == m5;
        LabsKeep(x, d, DepartmentsKey);
      }
    } else {
      assert FromLabs(x, d, fixed).entries == x;
    }
  }

  lemma CoursesFromCourseStep(x: Entries, d: Defaults, fixed: bool)
    requires !Present(x, CoursesKey)
    ensures CoursesFollowDepartments(FromCourses(x, d, fixed).entries, fixed)
  {
    var f := FromCourses(x, d, fixed).entries;
    FromCoursesKeeps(x, d, fixed, DepartmentsKey);
    var departments := Read(x, DepartmentsKey, JArr([]));
    assert Read(f, DepartmentsKey, JArr([])) == departments;
    CoursesStep(x, d, fixed);
    if SeedCourses(x, d, fixed).Got? {
      var m7 := SeedCourses(x, d, fixed).value;
      EmptyListsKeep(m7, CoursesKey);
      assert SameAt(m7, f, CoursesKey);
      if Present(m7, CoursesKey) {
        CourseListReference(d, IdAt(departments, 0).value, IdAt(departments, 1).value);
      }
    }
  }

  /** The two courses carry the department ids they are given. */
  lemma CourseListReference(d: Defaults, firstDepartment: Option<Json>,
                            secondDepartment: Option<Json>)
    ensures var courses := Elements(CourseList(d, firstDepartment, secondDepartment));
            |courses| == 2 && Field(courses[0], "departmentId") == firstDepartment &&
            Field(courses[1], "departmentId") == secondDepartment
  {
  }

  /** The courses step on its own, where no courses are stored. */
  lemma CoursesStep(m: Entries, d: Defaults, fixed: bool)
    requires !Present(m, CoursesKey)
    ensures var departments := Read(m, DepartmentsKey, JArr([]));
            var r := SeedCourses(m, d, fixed);
            r.Got? && Present(r.value, CoursesKey) ==>
              LengthOf(departments).Got? && LengthOf(departments).value >= Needed(fixed) &&
              IdAt(departments, 0).Got? && IdAt(departments, 1).Got? &&
              Read(r.value, CoursesKey, JArr([])) ==
                CourseList(d, IdAt(departments, 0).value, IdAt(departments, 1).value)
    ensures var departments := Read(m, DepartmentsKey, JArr([]));
            var r := SeedCourses(m, d, fixed);
            LengthOf(departments).Got? && LengthOf(departments).value < Needed(fixed) ==> r == Got(m)
  {
  }

  // ---------------------------------------------------------------------
  // The records the dashboard writes
  // ---------------------------------------------------------------------

  /** Three default roles; the first, ROL001, may view, add, edit and delete on each of the
      twelve screens, which are all different. */
  lemma AdminRoleHasEveryPermission(ids: IdSource)
    ensures var roles := Elements(DefaultRoles(ids));
            |roles| == 3 && Field(roles[0], "code") == Some(JStr("ROL001")) &&
            Field(roles[0], "permissions").Some? &&
            var permissions := Elements(Field(roles[0], "permissions").value);
            |permissions| == |AdminScreens| == 12 &&
            forall i :: 0 <= i < 12 ==>
              Field(permissions[i], "screen") == Some(JStr(AdminScreens[i])) &&
              Field(permissions[i], "view") == Some(JBool(true)) &&
              Field(permissions[i], "add") == Some(JBool(true)) &&
              Field(permissions[i], "edit") == Some(JBool(true)) &&
              Field(permissions[i], "delete") == Some(JBool(true))
    ensures forall i, j :: 0 <= i < j < |AdminScreens| ==> AdminScreens[i] != AdminScreens[j]
  {
    var admin := RoleRecord(ids(0), "ROL001", "مدير النظام", AdminPermissions());
    assert Elements(DefaultRoles(ids))[0] == admin;
    assert Field(admin, "permissions") == Some(JArr(AdminPermissions()));
    AdminPermissionsFull();
    AdminScreensDistinct();
  }

  lemma AdminPermissionsFull()
    ensures |AdminPermissions()| == 12
    ensures forall i :: 0 <= i < 12 ==>
              Field(AdminPermissions()[i], "screen") == Some(JStr(AdminScreens[i])) &&
              Field(AdminPermissions()[i], "view") == Some(JBool(true)) &&
              Field(AdminPermissions()[i], "add") == Some(JBool(true)) &&
              Field(AdminPermissions()[i], "edit") == Some(JBool(true)) &&
              Field(AdminPermissions()[i], "delete") == Some(JBool(true))
  {
  }

  lemma AdminScreensDistinct()
    ensures forall i, j :: 0 <= i < j < |AdminScreens| ==> AdminScreens[i] != AdminScreens[j]
  {
  }

  /** The first default course has three levels numbered 1, 2 and 3. */
  lemma FirstCourseLevels(ids: IdSource)
    ensures var course := FirstCourseTemplate(ids);
            "levels" in course &&
            var levels := Elements(course["levels"]);
            |levels| == 3 &&
            forall i :: 0 <= i < 3 ==> Field(levels[i], "levelNumber") == Some(JNum(i + 1))
  {
  }

  // ---------------------------------------------------------------------
  // When the seeding throws
  // ---------------------------------------------------------------------

  /** A stored list whose entries can all be read: an array with no `null` in it. */
  predicate ReadableList(j: Json) {
    j.JArr? && JNull !in j.items
  }

  /** The default roles, departments and branches are such lists. */
  predicate ReadableDefaults(d: Defaults) {
    ReadableList(d.roles) && ReadableList(d.departments) && ReadableList(d.branches)
  }

  lemma SourceDefaultsReadable(ids: IdSource)
    ensures ReadableDefaults(SourceDefaults(ids))
  {
    var d := SourceDefaults(ids);
    assert d.roles == DefaultRoles(ids) && d.departments == DefaultDepartments(ids);
    assert d.branches == DefaultBranches(ids);
    DefaultListsReadable(ids);
  }

  lemma DefaultListsReadable(ids: IdSource)
    ensures ReadableList(DefaultRoles(ids))
    ensures ReadableList(DefaultDepartments(ids))
    ensures ReadableList(DefaultBranches(ids))
  {
  }

  /** With the corrected guard, the seeding runs to the end whenever the stored branches,
      roles and departments, where there are any, are arrays without `null` entries. */
  lemma CorrectedSeedCompletes(m: Entries, d: Defaults)
    requires ReadableDefaults(d)
    requires ReadableList(Read(m, BranchesKey, JArr([])))
    requires ReadableList(Read(m, RolesKey, JArr([])))
    requires ReadableList(Read(m, DepartmentsKey, JArr([])))
    ensures Initialize(m, d, true).completed
  {
    BasicsReadable(m, d);
    FromLabsCompletes(SeedBasics(m, d), d);
  }

  lemma BasicsReadable(m: Entries, d: Defaults)
    requires ReadableDefaults(d)
    requires ReadableList(Read(m, BranchesKey, JArr([])))
    requires ReadableList(Read(m, RolesKey, JArr([])))
    requires ReadableList(Read(m, DepartmentsKey, JArr([])))
    ensures var m4 := SeedBasics(m, d);
            ReadableList(Read(m4, BranchesKey, JArr([]))) &&
            ReadableList(Read(m4, RolesKey, JArr([]))) &&
            ReadableList(Read(m4, DepartmentsKey, JArr([])))
  {
  }

  lemma FromLabsCompletes(x: Entries, d: Defaults)
    requires ReadableList(Read(x, BranchesKey, JArr([])))
    requires ReadableList(Read(x, RolesKey, JArr([])))
    requires ReadableList(Read(x, DepartmentsKey, JArr([])))
    ensures FromLabs(x, d, true).completed
  {
    var branches := Read(x, BranchesKey, JArr([]));
    assert |branches.items| > 0 ==> branches.items[0] in branches.items;
    LabsKeep(x, d, RolesKey);
    LabsKeep(x, d, DepartmentsKey);
    var m5 := SeedLabs(x, d).value;
    var roles := Read(m5, RolesKey, JArr([]));
    assert |roles.items| > 1 ==> roles.items[0] in roles.items && roles.items[1] in roles.items;
    EmployeesKeep(m5, d, true, DepartmentsKey);
    var m6 := SeedEmployees(m5, d, true).value;
    var departments := Read(m6, DepartmentsKey, JArr([]));
    assert |departments.items| > 1 ==>
      departments.items[0] in departments.items && departments.items[1] in departments.items;
  }

  /** As written, one stored role is enough to reach `roles[1].id`, which throws: the
      seeding stops before the courses and the empty lists, although the storage meets
      the conditions under which the corrected seeding completes. */
  lemma OneRoleStopsSeeding(d: Defaults)
    ensures var m: Entries := map[RolesKey := Doc(JArr([JObj(map["id" := JStr("role-1")])]))];
            var r := Initialize(m, d, false);
            ReadableList(Read(m, RolesKey, JArr([]))) && !r.completed &&
            !Present(r.entries, EmployeesKey) && !Present(r.entries, CoursesKey) &&
            !Present(r.entries, StudentsKey) && !Present(r.entries, PaymentsKey)
  {
    var m: Entries := map[RolesKey := Doc(JArr([JObj(map["id" := JStr("role-1")])]))];
    var m4 := SeedBasics(m, d);
    BasicsKeep(m, d, RolesKey);
    BasicsKeep(m, d, EmployeesKey);
    BasicsKeep(m, d, CoursesKey);
    BasicsKeep(m, d, StudentsKey);
    BasicsKeep(m, d, PaymentsKey);
    if SeedLabs(m4, d).Got? {
      var m5 := SeedLabs(m4, d).value;
      LabsKeep(m4, d, RolesKey);
      LabsKeep(m4, d, EmployeesKey);
      LabsKeep(m4, d, CoursesKey);
      LabsKeep(m4, d, StudentsKey);
      LabsKeep(m4, d, PaymentsKey);
      assert Read(m5, RolesKey, JArr([])) == JArr([JObj(map["id" := JStr("role-1")])]);
      assert SeedEmployees(m5, d, false) == Threw;
    }
  }

  // ---------------------------------------------------------------------
  // The seeding on the shared storage
  // ---------------------------------------------------------------------

  /** `if (!localStorage.getItem(key)) saveToLocalStorage(key, v)` on the shared storage. */
  method PutIfAbsentIn(store: Store, key: string, v: Json)
    modifies store
    ensures store.entries == PutIfAbsent(old(store.entries), key, v)
  {
    if !Present(store.entries, key) {
      store.Save(key, v);
    }
  }

  /** The labs step on the shared storage; `ok` is false where it throws. */
  method SeedLabsIn(store: Store, d: Defaults) returns (ok: bool)
    modifies store
    ensures ok == SeedLabs(old(store.entries), d).Got?
    ensures ok ==> store.entries == SeedLabs(old(store.entries), d).value
    ensures !ok ==> store.entries == old(store.entries)
  {
    if !Present(store.entries, LabsKey) {
      var branches := Read(store.entries, BranchesKey, JArr([]));
      var n := LengthOf(branches);
      if n.Threw? {
        return false;
      }
      if n.value > 0 {
        var b := IdAt(branches, 0);
        if b.Threw? {
          return false;
        }
        store.Save(LabsKey, LabList(d, b.value));
      }
    }
    return true;
  }

  /** The employees step on the shared storage; `ok` is false where it throws. */
  method SeedEmployeesIn(store: Store, d: Defaults, fixed: bool) returns (ok: bool)
    modifies store
    ensures ok == SeedEmployees(old(store.entries), d, fixed).Got?
    ensures ok ==> store.entries == SeedEmployees(old(store.entries), d, fixed).value
    ensures !ok ==> store.entries == old(store.entries)
  {
    if !Present(store.entries, EmployeesKey) {
      var roles := Read(store.entries, RolesKey, JArr([]));
      var n := LengthOf(roles);
      if n.Threw? {
        return false;
      }
      if n.value >= Needed(fixed) {
        var r0 := IdAt(roles, 0);
        if r0.Threw? {
          return false;
        }
        var r1 := IdAt(roles, 1);
        if r1.Threw? {
          return false;
        }
        store.Save(EmployeesKey, EmployeeList(d, r0.value, r1.value));
      }
    }
    return true;
  }

  /** The courses step on the shared storage; `ok` is false where it throws. */
  method SeedCoursesIn(store: Store, d: Defaults, fixed: bool) returns (ok: bool)
    modifies store
    ensures ok == SeedCourses(old(store.entries), d, fixed).Got?
    ensures ok ==> store.entries == SeedCourses(old(store.entries), d, fixed).value
    ensures !ok ==> store.entries == old(store.entries)
  {
    if !Present(store.entries, CoursesKey) {
      var departments := Read(store.entries, DepartmentsKey, JArr([]));
      var n := LengthOf(departments);
      if n.Threw? {
        return false;
      }
      if n.value >= Needed(fixed) {
        var d0 := IdAt(departments, 0);
        if d0.Threw? {
          return false;
        }
        var d1 := IdAt(departments, 1);
        if d1.Threw? {
          return false;
        }
        store.Save(CoursesKey, CourseList(d, d0.value, d1.value));
      }
    }
    return true;
  }

  /** `initializeData` on the shared storage with the default records `d`, one conditional
      write after another; it stops where the JavaScript would throw. */
  method InitializeWith(store: Store, d: Defaults, fixed: bool) returns (completed: bool)
    modifies store
    ensures store.entries == Initialize(old(store.entries), d, fixed).entries
    ensures completed == Initialize(old(store.entries), d, fixed).completed
  {
    PutIfAbsentIn(store, GovernoratesKey, d.governorates);
    PutIfAbsentIn(store, RolesKey, d.roles);
    PutIfAbsentIn(store, DepartmentsKey, d.departments);
    PutIfAbsentIn(store, BranchesKey, d.branches);
    assert store.entries == SeedBasics(old(store.entries), d);
    var ok := SeedLabsIn(store, d);
    if !ok {
      return false;
    }
    ok := SeedEmployeesIn(store, d, fixed);
    if !ok {
      return false;
    }
    ok := SeedCoursesIn(store, d, fixed);
    if !ok {
      return false;
    }
    ghost var m7 := store.entries;
    PutIfAbsentIn(store, StudentsKey, JArr([]));
    PutIfAbsentIn(store, TeachersKey, JArr([]));
    PutIfAbsentIn(store, GroupsKey, JArr([]));
    PutIfAbsentIn(store, LeadsKey, JArr([]));
    PutIfAbsentIn(store, PaymentsKey, JArr([]));
    assert store.entries == SeedEmptyLists(m7);
    return true;
  }

  /** `initializeData` itself, with the dashboard's default records. */
  method InitializeData(store: Store, ids: IdSource, fixed: bool) returns (completed: bool)
    modifies store
    ensures store.entries == Initialize(old(store.entries), SourceDefaults(ids), fixed).entries
    ensures completed == Initialize(old(store.entries), SourceDefaults(ids), fixed).completed
  {
    completed := InitializeWith(store, SourceDefaults(ids), fixed);
  }
}
