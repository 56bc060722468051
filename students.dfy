/** The students screen (src/pages/Students.tsx): application numbers "std-<year><serial>"
    generated from the stored students and renumbered per year, the repair of stored students
    when the screen loads, adding a student, and the list filter. Students are kept as the
    parsed JSON the screen reads back, since its code guards against malformed records. */
module Students {
  import opened Wrappers
  import opened Text
  import opened JsonValue
  import opened LocalStore

  const StudentsKey := "latin_academy_students"
  const GroupsKey := "latin_academy_groups"
  const CoursesKey := "latin_academy_courses"
  const BranchesKey := "latin_academy_branches"

  // ---------------------------------------------------------------------
  // Application numbers
  // ---------------------------------------------------------------------

  /** `typeof s.id === 'string' ? s.id : undefined`. */
  function IdOf(s: Json): Option<string> {
    match Field(s, "id")
    case Some(JStr(id)) => Some(id)
    case _ => None
  }

  /** `id.match(/^std-(\d{2})(\d{4,})$/)`, giving the value of its second group: "std-", two
      digits, then at least four digits up to the end. */
  function SerialOf(id: string): (r: Option<nat>)
    ensures r.Some? <==> |id| >= 10 && id[..4] == "std-" && AllDigits(id[4..])
  {
    if |id| >= 10 && id[..4] == "std-" && AllDigits(id[4..]) then
      assert forall i :: 0 <= i < |id[6..]| ==> id[6..][i] == id[4..][i + 2];
      Some(DigitsValue(id[6..]))
    else None
  }

  /** The serial a stored student contributes to the maximum: its id is text starting with
      the year's prefix and matching the pattern. */
  function StudentSerial(prefix: string, s: Json): Option<nat> {
    match IdOf(s)
    case Some(id) => if StartsWith(id, prefix) then SerialOf(id) else None
    case None => None
  }

  /** The largest such serial, starting from 1000 (`let maxNum = 1000`). */
  function MaxSerial(prefix: string, students: seq<Json>): (m: nat)
    ensures m >= 1000
  {
    if |students| == 0 then 1000
    else
      var m := MaxSerial(prefix, students[..|students| - 1]);
      match StudentSerial(prefix, students[|students| - 1])
      case Some(n) => if n > m then n else m
      case None => m
  }

  lemma {:induction false} MaxSerialBounds(prefix: string, students: seq<Json>, i: nat)
    requires i < |students| && StudentSerial(prefix, students[i]).Some?
    ensures StudentSerial(prefix, students[i]).value <= MaxSerial(prefix, students)
  {
    var init := students[..|students| - 1];
    if i < |students| - 1 {
      assert init[i] == students[i];
      MaxSerialBounds(prefix, init, i);
    }
  }

  lemma {:induction false} MaxSerialDefault(prefix: string, students: seq<Json>)
    requires forall i :: 0 <= i < |students| ==> StudentSerial(prefix, students[i]).None?
    ensures MaxSerial(prefix, students) == 1000
  {
    if |students| > 0 {
      var init := students[..|students| - 1];
      assert forall i :: 0 <= i < |init| ==> init[i] == students[i];
      MaxSerialDefault(prefix, init);
    }
  }

  /** The `forEach` over the students that keeps the largest serial. */
  method FindMaxSerial(prefix: string, students: seq<Json>) returns (maxNum: nat)
    ensures maxNum == MaxSerial(prefix, students)
  {
    maxNum := 1000;
    var i := 0;
    while i < |students|
      invariant 0 <= i <= |students|
      invariant maxNum == MaxSerial(prefix, students[..i])
    {
      assert students[..i + 1][..i] == students[..i];
      match StudentSerial(prefix, students[i]) {
        case Some(n) =>
          if n > maxNum {
            maxNum := n;
          }
        case None =>
      }
      i := i + 1;
    }
    assert students[..i] == students;
  }

  /** `generateStudentId` as written: the prefix is "std-" and the year's last two digits as
      `${year}` prints them, so a year below 10 gets one digit. */
  function StudentIdAsWritten(students: seq<Json>, year: nat): string {
    var prefix := "std-" + NatToString(year);
    IdAfter(prefix, MaxSerial(prefix, students))
  }

  /** The id that follows the serial `max`: `${prefix}${max + 1}`. */
  function IdAfter(prefix: string, max: nat): string {
    prefix + NatToString(max + 1)
  }

  method GenerateStudentIdAsWritten(students: seq<Json>, fullYear: nat) returns (id: string)
    ensures id == StudentIdAsWritten(students, fullYear % 100)
  {
    var year := fullYear % 100;
    var prefix := "std-" + NatToString(year);
    var maxNum := FindMaxSerial(prefix, students);
    id := IdAfter(prefix, maxNum);
  }

  /** A record without a counted serial leaves the maximum as it was. */
  lemma MaxSerialSkips(prefix: string, students: seq<Json>, s: Json)
    requires StudentSerial(prefix, s).None?
    ensures MaxSerial(prefix, students + [s]) == MaxSerial(prefix, students)
  {
    assert (students + [s])[..|students|] == students;
  }

  /** In a year below 10 the generated id has one year digit, so it never matches the
      pattern and is not counted next time: once the year's first id is stored, the same id
      is handed out again. */
  lemma SingleDigitYearRepeatsId(students: seq<Json>, year: nat)
    requires year < 10
    requires forall i :: 0 <= i < |students| ==> StudentSerial("std-" + NatToString(year), students[i]).None?
    ensures var id := StudentIdAsWritten(students, year);
            var stored := students + [JObj(map["id" := JStr(id)])];
            && IdOf(stored[|students|]) == Some(id)
            && StudentIdAsWritten(stored, year) == id
  {
    var prefix := "std-" + NatToString(year);
    var id := StudentIdAsWritten(students, year);
    MaxSerialDefault(prefix, students);
    OneDigitYearId(year);
    assert id == prefix + "1001";
    var s := JObj(map["id" := JStr(id)]);
    assert IdOf(s) == Some(id);
    assert StudentSerial(prefix, s).None?;
    AsWrittenSkips(students, year, s);
    assert (students + [s])[|students|] == s;
  }

  /** A record without a counted serial leaves the as-written id unchanged. */
  lemma AsWrittenSkips(students: seq<Json>, year: nat, s: Json)
    requires StudentSerial("std-" + NatToString(year), s).None?
    ensures StudentIdAsWritten(students + [s], year) == StudentIdAsWritten(students, year)
  {
    MaxSerialSkips("std-" + NatToString(year), students, s);
  }

  /** The first id of a year below 10 has nine characters, too few for the pattern. */
  lemma OneDigitYearId(year: nat)
    requires year < 10
    ensures var prefix := "std-" + NatToString(year);
            && StartsWith(prefix + "1001", prefix)
            && SerialOf(prefix + "1001").None?
            && NatToString(1001) == "1001"
  {
    SmallNumerals();
    assert |NatToString(year)| == 1;
  }

  /** The corrected prefix: the year's last two digits, zero-padded. */
  function YearPrefix(year: nat): (r: string)
    requires year < 100
    ensures |r| == 6 && r[..4] == "std-" && AllDigits(r[4..])
  {
    var t := NatToString(year);
    assert |t| <= 2 by {
      if year >= 10 {
        assert |t| == |NatToString(year / 10)| + 1;
      }
    }
    var p := PadStart(t, 2, '0');
    assert AllDigits(p) by {
      forall i | 0 <= i < |p| ensures IsDigit(p[i]) {
        if i >= |p| - |t| {
          assert p[i] == p[|p| - |t|..][i - (|p| - |t|)];
        }
      }
    }
    var r := "std-" + p;
    assert r[4..] == p;
    r
  }

  /** `generateStudentId` with the year zero-padded: the year's prefix followed by the next
      serial. */
  function NewStudentId(students: seq<Json>, year: nat): (r: string)
    requires year < 100
    ensures StartsWith(r, YearPrefix(year))
    ensures SerialOf(r) == Some(MaxSerial(YearPrefix(year), students) + 1)
  {
    var prefix := YearPrefix(year);
    var r := IdAfter(prefix, MaxSerial(prefix, students));
    IdAfterSerial(prefix, MaxSerial(prefix, students));
    r
  }

  /** For a year from 10 to 99 the padding adds nothing: the corrected id is the id
      `generateStudentId` writes. */
  lemma NewStudentIdMatchesAsWritten(students: seq<Json>, year: nat)
    requires 10 <= year < 100
    ensures NewStudentId(students, year) == StudentIdAsWritten(students, year)
  {
    var t := NatToString(year);
    assert |t| == |NatToString(year / 10)| + 1;
    assert PadStart(t, 2, '0') == t;
    assert YearPrefix(year) == "std-" + t;
  }

  /** After a six-character prefix "std-" plus two digits, the id matches the pattern and
      carries the next serial. */
  lemma IdAfterSerial(prefix: string, max: nat)
    requires |prefix| == 6 && prefix[..4] == "std-" && AllDigits(prefix[4..])
    requires max >= 1000
    ensures StartsWith(IdAfter(prefix, max), prefix)
    ensures SerialOf(IdAfter(prefix, max)) == Some(max + 1)
  {
    var n := max + 1;
    var r := IdAfter(prefix, max);
    assert r == prefix + NatToString(n);
    assert r[..|prefix|] == prefix;
    NatToStringAtLeastFourDigits(n);
    assert r[..4] == "std-";
    assert r[4..] == prefix[4..] + NatToString(n);
    assert AllDigits(r[4..]);
    assert r[6..] == NatToString(n);
    NatToStringValue(n);
    assert SerialOf(r) == Some(DigitsValue(r[6..]));
  }

  method GenerateStudentId(students: seq<Json>, fullYear: nat) returns (id: string)
    ensures id == NewStudentId(students, fullYear % 100)
  {
    var year := fullYear % 100;
    var prefix := "std-" + PadStart(NatToString(year), 2, '0');
    var maxNum := FindMaxSerial(prefix, students);
    id := IdAfter(prefix, maxNum);
  }

  /** The new serial is larger than every serial of the same year's stored ids. */
  lemma NewSerialExceedsExisting(students: seq<Json>, year: nat, i: nat)
    requires year < 100 && i < |students| && StudentSerial(YearPrefix(year), students[i]).Some?
    ensures StudentSerial(YearPrefix(year), students[i]).value < SerialOf(NewStudentId(students, year)).value
  {
    MaxSerialBounds(YearPrefix(year), students, i);
  }

  /** The corrected id is different from the id of every stored student. */
  lemma NewStudentIdFresh(students: seq<Json>, year: nat, i: nat)
    requires year < 100 && i < |students|
    ensures IdOf(students[i]) != Some(NewStudentId(students, year))
  {
    var id := NewStudentId(students, year);
    if IdOf(students[i]) == Some(id) {
      assert StudentSerial(YearPrefix(year), students[i]) == SerialOf(id);
      MaxSerialBounds(YearPrefix(year), students, i);
      assert false;
    }
  }

  /** With no numbered id of the year stored, the first id is the prefix followed by 1001. */
  lemma FirstStudentIdOfYear(students: seq<Json>, year: nat)
    requires year < 100
    requires forall i :: 0 <= i < |students| ==> StudentSerial(YearPrefix(year), students[i]).None?
    ensures NewStudentId(students, year) == YearPrefix(year) + "1001"
  {
    MaxSerialDefault(YearPrefix(year), students);
    SmallNumerals();
    assert IdAfter(YearPrefix(year), 1000) == YearPrefix(year) + "1001";
  }

  // ---------------------------------------------------------------------
  // fixAllStudentIds
  // ---------------------------------------------------------------------

  /** `a < b` on text: the first differing character decides, and a proper prefix comes
      first. */
  predicate TextLess(a: string, b: string)
    decreases |a|
  {
    if |a| == 0 then |b| > 0
    else if |b| == 0 then false
    else if a[0] != b[0] then a[0] < b[0]
    else TextLess(a[1..], b[1..])
  }

  lemma {:induction false} TextLessIrreflexive(a: string)
    ensures !TextLess(a, a)
  {
    if |a| > 0 {
      TextLessIrreflexive(a[1..]);
    }
  }

  lemma {:induction false} TextLessTotal(a: string, b: string)
    requires a != b
    ensures TextLess(a, b) || TextLess(b, a)
  {
    if |a| > 0 && |b| > 0 && a[0] == b[0] {
      assert a == [a[0]] + a[1..] && b == [b[0]] + b[1..];
      TextLessTotal(a[1..], b[1..]);
    }
  }

  lemma {:induction false} TextLessTransitive(a: string, b: string, c: string)
    requires TextLess(a, b) && TextLess(b, c)
    ensures TextLess(a, c)
  {
    if |a| > 0 && |b| > 0 && |c| > 0 && a[0] == b[0] && b[0] == c[0] {
      TextLessTransitive(a[1..], b[1..], c[1..]);
    }
  }

  /** The order a year's students are renumbered in: by sort key (`createdAt`, else
      `birthDate`, else empty text), students with equal keys in list order. */
  predicate SortsBefore(keys: seq<string>, j: nat, i: nat)
    requires j < |keys| && i < |keys|
  {
    TextLess(keys[j], keys[i]) || (keys[j] == keys[i] && j < i)
  }

  lemma SortsBeforeTotal(keys: seq<string>, i: nat, j: nat)
    requires i < |keys| && j < |keys| && i != j
    ensures SortsBefore(keys, i, j) || SortsBefore(keys, j, i)
    ensures !(SortsBefore(keys, i, j) && SortsBefore(keys, j, i))
  {
    if keys[i] != keys[j] {
      TextLessTotal(keys[i], keys[j]);
      if TextLess(keys[i], keys[j]) && TextLess(keys[j], keys[i]) {
        TextLessTransitive(keys[i], keys[j], keys[i]);
        TextLessIrreflexive(keys[i]);
      }
    } else {
      TextLessIrreflexive(keys[i]);
    }
  }

  lemma SortsBeforeTransitive(keys: seq<string>, a: nat, b: nat, c: nat)
    requires a < |keys| && b < |keys| && c < |keys|
    requires SortsBefore(keys, a, b) && SortsBefore(keys, b, c)
    ensures SortsBefore(keys, a, c)
  {
    if TextLess(keys[a], keys[b]) && TextLess(keys[b], keys[c]) {
      TextLessTransitive(keys[a], keys[b], keys[c]);
    }
  }

  lemma SortsBeforeIrreflexive(keys: seq<string>, i: nat)
    requires i < |keys|
    ensures !SortsBefore(keys, i, i)
  {
    TextLessIrreflexive(keys[i]);
  }

  /** How many of the first `k` students share student `i`'s year and sort before it. */
  function CountBefore(years: seq<nat>, keys: seq<string>, i: nat, k: nat): nat
    requires |years| == |keys| && i < |years| && k <= |years|
  {
    if k == 0 then 0
    else CountBefore(years, keys, i, k - 1) + (if years[k - 1] == years[i] && SortsBefore(keys, k - 1, i) then 1 else 0)
  }

  /** Student `i`'s place in its year's sorted list. */
  function Rank(years: seq<nat>, keys: seq<string>, i: nat): nat
    requires |years| == |keys| && i < |years|
  {
    CountBefore(years, keys, i, |years|)
  }

  /** `std-${year}${1001 + idx}`, the year written as the object key prints it. */
  function RenumberedId(year: nat, rank: nat): string {
    "std-" + NatToString(year) + NatToString(1001 + rank)
  }

  lemma {:induction false} CountBeforeMonotone(years: seq<nat>, keys: seq<string>, i: nat, j: nat, k: nat)
    requires |years| == |keys| && i < |years| && j < |years| && k <= |years|
    requires years[i] == years[j] && SortsBefore(keys, i, j)
    ensures CountBefore(years, keys, i, k) + (if i < k then 1 else 0) <= CountBefore(years, keys, j, k)
  {
    if k > 0 {
      CountBeforeMonotone(years, keys, i, j, k - 1);
      var m := k - 1;
      if years[m] == years[i] && SortsBefore(keys, m, i) {
        SortsBeforeTransitive(keys, m, i, j);
      }
      if m == i {
        SortsBeforeIrreflexive(keys, i);
      }
    }
  }

  /** Two students of the same year get different ranks. */
  lemma RankInjective(years: seq<nat>, keys: seq<string>, i: nat, j: nat)
    requires |years| == |keys| && i < |years| && j < |years| && i != j && years[i] == years[j]
    ensures Rank(years, keys, i) != Rank(years, keys, j)
  {
    SortsBeforeTotal(keys, i, j);
    if SortsBefore(keys, i, j) {
      CountBeforeMonotone(years, keys, i, j, |years|);
    } else {
      CountBeforeMonotone(years, keys, j, i, |years|);
    }
  }

  /** How many of the first `k` students belong to `year`. */
  function YearCount(years: seq<nat>, year: nat, k: nat): nat
    requires k <= |years|
  {
    if k == 0 then 0 else YearCount(years, year, k - 1) + (if years[k - 1] == year then 1 else 0)
  }

  lemma {:induction false} CountBeforeBelowYearCount(years: seq<nat>, keys: seq<string>, i: nat, k: nat)
    requires |years| == |keys| && i < |years| && k <= |years|
    ensures CountBefore(years, keys, i, k) + (if i < k then 1 else 0) <= YearCount(years, years[i], k)
  {
    if k > 0 {
      CountBeforeBelowYearCount(years, keys, i, k - 1);
      if k - 1 == i {
        SortsBeforeIrreflexive(keys, i);
      }
    }
  }

  /** Renumbering gives the students of one year distinct ids, with serials from 1001 up to
      1000 plus the number of students of that year. */
  lemma RenumberedIdsDistinct(years: seq<nat>, keys: seq<string>, i: nat, j: nat)
    requires |years| == |keys| && i < |years| && j < |years| && i != j && years[i] == years[j]
    ensures RenumberedId(years[i], Rank(years, keys, i)) != RenumberedId(years[j], Rank(years, keys, j))
    ensures 1001 <= 1001 + Rank(years, keys, i) <= 1000 + YearCount(years, years[i], |years|)
  {
    RankInjective(years, keys, i, j);
    CountBeforeBelowYearCount(years, keys, i, |years|);
    var p := "std-" + NatToString(years[i]);
    var a := NatToString(1001 + Rank(years, keys, i));
    var b := NatToString(1001 + Rank(years, keys, j));
    if p + a == p + b {
      assert (p + a)[|p|..] == a && (p + b)[|p|..] == b;
      NatToStringInjective(1001 + Rank(years, keys, i), 1001 + Rank(years, keys, j));
    }
  }

  /** `s && typeof s === 'object'`. */
  predicate IsStudentObject(s: Json) { Truthy(s) && IsObjectLike(s) }

  /** `Array.isArray(raw) ? raw.filter(s => s && typeof s === 'object') : []`. */
  function StudentObjects(raw: Json): (r: seq<Json>)
    ensures forall s :: s in r <==> raw.JArr? && s in raw.items && IsStudentObject(s)
    ensures raw.JArr? ==> r == Filter(raw.items, IsStudentObject)
    ensures !raw.JArr? ==> r == []
  {
    if raw.JArr? then Filter(raw.items, IsStudentObject) else []
  }

  /** `s.id = id`; a property set on an array is dropped when the list is saved. */
  function WithId(s: Json, id: string): (r: Json)
    ensures s.JObj? ==> IdOf(r) == Some(id)
  {
    if s.JObj? then JObj(s.fields["id" := JStr(id)]) else s
  }

  /** Counts the students of student `i`'s year that sort before it. */
  method CountRank(years: seq<nat>, keys: seq<string>, i: nat) returns (rank: nat)
    requires |years| == |keys| && i < |years|
    ensures rank == Rank(years, keys, i)
  {
    rank := 0;
    var j := 0;
    while j < |years|
      invariant 0 <= j <= |years| && rank == CountBefore(years, keys, i, j)
    {
      if years[j] == years[i] && (TextLess(keys[j], keys[i]) || (keys[j] == keys[i] && j < i)) {
        rank := rank + 1;
      }
      j := j + 1;
    }
  }

  /** The renumbering loop: each record in turn gets the id of its rank within its year. */
  method Renumber(students: seq<Json>, years: seq<nat>, keys: seq<string>) returns (fixed: seq<Json>)
    requires |years| == |keys| == |students|
    ensures |fixed| == |students|
    ensures forall i :: 0 <= i < |fixed| ==> fixed[i] == WithId(students[i], RenumberedId(years[i], Rank(years, keys, i)))
  {
    fixed := students;
    var i := 0;
    while i < |students|
      invariant 0 <= i <= |students| && |fixed| == |students|
      invariant forall k :: 0 <= k < i ==> fixed[k] == WithId(students[k], RenumberedId(years[k], Rank(years, keys, k)))
      invariant forall k :: i <= k < |students| ==> fixed[k] == students[k]
    {
      var rank := CountRank(years, keys, i);
      fixed := fixed[i := WithId(fixed[i], RenumberedId(years[i], rank))];
      i := i + 1;
    }
  }

  /** `fixAllStudentIds`, with each student's year and sort key given: the stored students
      are renumbered, year by year in sorted order, and saved. The page reload that follows
      is not modelled. */
  method FixAllStudentIds(store: Store, years: seq<nat>, keys: seq<string>) returns (fixed: seq<Json>)
    requires |years| == |keys| == |StudentObjects(Read(store.entries, StudentsKey, JArr([])))|
    modifies store
    ensures var students := StudentObjects(Read(old(store.entries), StudentsKey, JArr([])));
            && |fixed| == |students|
            && (forall i :: 0 <= i < |fixed| ==> fixed[i] == WithId(students[i], RenumberedId(years[i], Rank(years, keys, i))))
            && store.entries == Write(old(store.entries), StudentsKey, JArr(fixed))
  {
    var students := StudentObjects(Read(store.entries, StudentsKey, JArr([])));
    fixed := Renumber(students, years, keys);
    store.Save(StudentsKey, JArr(fixed));
  }

  // ---------------------------------------------------------------------
  // Loading: repair and enrollments
  // ---------------------------------------------------------------------

  /** A branch or course the screen keeps: its id and name are text that is not blank. */
  predicate IsNamed(x: Json) {
    && Truthy(x)
    && (match Field(x, "id") case Some(JStr(id)) => Trim(id) != "" case _ => false)
    && (match Field(x, "name") case Some(JStr(name)) => Trim(name) != "" case _ => false)
  }

  /** The branches or courses list as loaded: named entries of a stored array, else none. */
  function NamedList(raw: Json): (r: seq<Json>)
    ensures forall x :: x in r ==> IsNamed(x)
  {
    if raw.JArr? then Filter(raw.items, IsNamed) else []
  }

  /** `list.find(x => x.id === id)`. */
  function FindById(list: seq<Json>, id: Option<Json>): (r: Option<Json>)
    ensures r.Some? ==> r.value in list && StrictEquals(Field(r.value, "id"), id)
    ensures r.Some? ==> exists i :: 0 <= i < |list| && list[i] == r.value
                          && forall j :: 0 <= j < i ==> !StrictEquals(Field(list[j], "id"), id)
    ensures r.None? ==> forall k :: 0 <= k < |list| ==> !StrictEquals(Field(list[k], "id"), id)
  {
    if |list| == 0 then None
    else if StrictEquals(Field(list[0], "id"), id) then Some(list[0])
    else
      var r := FindById(list[1..], id);
      assert forall i :: 0 <= i < |list| - 1 ==> list[1..][i] == list[i + 1];
      r
  }

  /** The name of the entry found, or the empty text (`found ? found.name : ''`). */
  function NameOrEmpty(found: Option<Json>): Json {
    match found
    case Some(x) => Field(x, "name").GetOr(JStr(""))
    case None => JStr("")
  }

  /** `Array.isArray(g.studentIds) && g.studentIds.includes(id)`. */
  predicate Enrolls(g: Json, id: Option<Json>) {
    match Field(g, "studentIds")
    case Some(JArr(ids)) => Includes(ids, id)
    case _ => false
  }

  /** The enrollment shown for one group: its id and name, its course's and branch's names
      (empty when unknown), its status (empty when falsy), nothing paid and nothing left. */
  function Enrollment(g: Json, courses: seq<Json>, branches: seq<Json>): Json {
    var status := Field(g, "status");
    JObj(WithOpt(WithOpt(map[
        "courseName" := NameOrEmpty(FindById(courses, Field(g, "courseId"))),
        "branchName" := NameOrEmpty(FindById(branches, Field(g, "branchId"))),
        "status" := if TruthyOpt(status) then status.value else JStr(""),
        "paid" := JNum(0),
        "remaining" := JNum(0)], "groupId", Field(g, "id")), "groupName", Field(g, "name")))
  }

  /** The enrollments of the student with this id: one per stored group listing it, in the
      groups' order. */
  function Enrollments(groups: seq<Json>, id: Option<Json>, courses: seq<Json>, branches: seq<Json>): (r: seq<Json>)
    ensures |r| <= |groups|
  {
    if |groups| == 0 then []
    else
      (if Enrolls(groups[0], id) then [Enrollment(groups[0], courses, branches)] else [])
      + Enrollments(groups[1..], id, courses, branches)
  }

  const DefaultGuardian := JObj(map["name" := JStr(""), "type" := JStr("الأب"), "mobile" := JStr("")])

  /** A guardian field that is not text is reset to its default. */
  function TextOr(fields: map<string, Json>, key: string, default: string): map<string, Json> {
    if key in fields && fields[key].JStr? then fields else fields[key := JStr(default)]
  }

  /** The guardian after repair, and whether it was replaced: a falsy or non-object guardian
      becomes the default one; an object keeps its text fields and has the others reset (on
      an array the reset fields are dropped when saved). */
  function RepairedGuardian(g: Option<Json>): (Json, bool) {
    if !TruthyOpt(g) || !IsObjectLike(g.value) then (DefaultGuardian, true)
    else match g.value
      case JObj(f) => (JObj(TextOr(TextOr(TextOr(f, "name", ""), "type", "الأب"), "mobile", "")), false)
      case _ => (g.value, false)
  }

  /** One student after repair, and whether the repair sets the flag that makes the screen
      save: the groups field is not an array, or the guardian is replaced. */
  function RepairedStudent(s: Json, groups: seq<Json>, courses: seq<Json>, branches: seq<Json>): (Json, bool) {
    var groupsFixed := match Field(s, "groups") case Some(JArr(_)) => false case _ => true;
    var (guardian, guardianFixed) := RepairedGuardian(Field(s, "guardian"));
    var enrolled := Enrollments(groups, Field(s, "id"), courses, branches);
    var fixed := groupsFixed || guardianFixed;
    match s
    case JObj(f) => (JObj(f["guardian" := guardian]["groups" := JArr(enrolled)]), fixed)
    case _ => (s, fixed)
  }

  /** Whether the enrollment derivation throws: it indexes every stored group, so stored
      groups that are not an array, or that hold `null`, make it fail. */
  predicate GroupsBreakLoad(rawGroups: Json) {
    !rawGroups.JArr? || JNull in rawGroups.items
  }

  /** The students list the screen shows after loading and whether it saves it back, or
      `None` when the derivation throws (there is at least one student and the stored groups
      break it). */
  function LoadStudents(rawStudents: Json, rawGroups: Json, courses: seq<Json>, branches: seq<Json>): (r: Option<(seq<Json>, bool)>)
    ensures r.None? <==> |StudentObjects(rawStudents)| > 0 && GroupsBreakLoad(rawGroups)
    ensures r.Some? ==> |r.value.0| == |StudentObjects(rawStudents)|
  {
    var students := StudentObjects(rawStudents);
    if |students| > 0 && GroupsBreakLoad(rawGroups) then None
    else
      var groups := if rawGroups.JArr? then rawGroups.items else [];
      Some(RepairAll(students, groups, courses, branches))
  }

  /** The `map` over the student records, collecting the save flag. */
  function RepairAll(students: seq<Json>, groups: seq<Json>, courses: seq<Json>, branches: seq<Json>): (r: (seq<Json>, bool))
    ensures |r.0| == |students|
    ensures forall i :: 0 <= i < |students| ==> r.0[i] == RepairedStudent(students[i], groups, courses, branches).0
    ensures r.1 <==> exists i :: 0 <= i < |students| && RepairedStudent(students[i], groups, courses, branches).1
  {
    if |students| == 0 then ([], false)
    else
      var last := RepairedStudent(students[|students| - 1], groups, courses, branches);
      var init := RepairAll(students[..|students| - 1], groups, courses, branches);
      assert forall i :: 0 <= i < |students| - 1 ==> students[..|students| - 1][i] == students[i];
      (init.0 + [last.0], init.1 || last.1)
  }

  /** Every enrollment derived for a student belongs to a stored group that lists the
      student's id, and carries nothing paid and nothing left; each such group gives one. */
  lemma {:induction false} EnrollmentsAreEnrolledGroups(groups: seq<Json>, id: Option<Json>, courses: seq<Json>, branches: seq<Json>)
    ensures |Enrollments(groups, id, courses, branches)| == |Filter(groups, g => Enrolls(g, id))|
    ensures forall e :: e in Enrollments(groups, id, courses, branches) ==>
              exists g :: g in groups && Enrolls(g, id) && e == Enrollment(g, courses, branches)
  {
    if |groups| > 0 {
      EnrollmentsAreEnrolledGroups(groups[1..], id, courses, branches);
    }
  }

  lemma EnrollmentOwesNothing(g: Json, courses: seq<Json>, branches: seq<Json>)
    ensures Field(Enrollment(g, courses, branches), "paid") == Some(JNum(0))
    ensures Field(Enrollment(g, courses, branches), "remaining") == Some(JNum(0))
    ensures Field(Enrollment(g, courses, branches), "groupId") == Field(g, "id")
  {
  }

  /** A repaired student object lists exactly its enrollments and has an object guardian
      whose name, type and mobile are text. */
  lemma RepairedStudentShape(s: Json, groups: seq<Json>, courses: seq<Json>, branches: seq<Json>)
    requires s.JObj?
    ensures var r := RepairedStudent(s, groups, courses, branches).0;
            && Field(r, "groups") == Some(JArr(Enrollments(groups, Field(s, "id"), courses, branches)))
            && Field(r, "id") == Field(s, "id")
            && (Field(r, "guardian").value.JObj? ==>
                  var gf := Field(r, "guardian").value.fields;
                  && "name" in gf && gf["name"].JStr? && "type" in gf && gf["type"].JStr?
                  && "mobile" in gf && gf["mobile"].JStr?)
            && (Field(r, "guardian").value.JObj? || (Field(s, "guardian").Some? && Field(s, "guardian").value.JArr?))
  {
  }

  // ---------------------------------------------------------------------
  // The list filter
  // ---------------------------------------------------------------------

  /** `v && v.includes(term)`: text contains the term; an array contains it as an element. */
  predicate TextMatches(v: Option<Json>, term: string) {
    match v
    case Some(JStr(t)) => t != "" && Contains(t, term)
    case Some(JArr(items)) => Includes(items, Some(JStr(term)))
    case _ => false
  }

  /** The search box matches the student's name, mobile or id. */
  predicate MatchesSearch(s: Json, term: string) {
    TextMatches(Field(s, "name"), term) || TextMatches(Field(s, "mobile"), term) || TextMatches(Field(s, "id"), term)
  }

  /** `s.groups && s.groups.some(g => g && g[key] === name)`. */
  predicate AnyEnrollment(s: Json, key: string, name: Option<Json>) {
    match Field(s, "groups")
    case Some(JArr(gs)) => exists k :: 0 <= k < |gs| && Truthy(gs[k]) && StrictEquals(Field(gs[k], key), name)
    case _ => false
  }

  /** A branch or course filter: off when empty or "__all__", otherwise some enrollment
      names the selected entry (`list.find(x => x.id === selected)?.name`). */
  predicate MatchesSelection(s: Json, selected: string, list: seq<Json>, key: string) {
    if selected == "" || selected == "__all__" then true
    else
      var found := FindById(list, Some(JStr(selected)));
      AnyEnrollment(s, key, if found.Some? then Field(found.value, "name") else None)
  }

  predicate Shown(s: Json, term: string, branch: string, course: string, branches: seq<Json>, courses: seq<Json>) {
    && Truthy(s)
    && MatchesSelection(s, branch, branches, "branchName")
    && MatchesSelection(s, course, courses, "courseName")
    && MatchesSearch(s, term)
  }

  /** `filteredStudents`. */
  function FilteredStudents(students: seq<Json>, term: string, branch: string, course: string,
                            branches: seq<Json>, courses: seq<Json>): (r: seq<Json>)
    ensures forall s :: s in r <==> s in students && Shown(s, term, branch, course, branches, courses)
  {
    Filter(students, s => Shown(s, term, branch, course, branches, courses))
  }

  lemma {:induction false} FilterSame(xs: seq<Json>, p: Json -> bool, q: Json -> bool)
    requires forall x :: p(x) == q(x)
    ensures Filter(xs, p) == Filter(xs, q)
  {
    if |xs| > 0 {
      FilterSame(xs[1..], p, q);
    }
  }

  /** With both selections at "__all__" the list is exactly the students the search matches,
      in list order, and it never holds a student that is not in the list. */
  lemma AllSelectionsShowSearchMatches(students: seq<Json>, term: string, branches: seq<Json>, courses: seq<Json>)
    ensures FilteredStudents(students, term, "__all__", "__all__", branches, courses)
            == Filter(students, s => Truthy(s) && MatchesSearch(s, term))
    ensures forall s :: s in FilteredStudents(students, term, "__all__", "__all__", branches, courses) ==> s in students
  {
    FilterSame(students, s => Shown(s, term, "__all__", "__all__", branches, courses), s => Truthy(s) && MatchesSearch(s, term));
  }

  // ---------------------------------------------------------------------
  // The screen
  // ---------------------------------------------------------------------

  /** The add-student form. */
  datatype StudentForm = StudentForm(
    name: string, mobile: string, whatsapp: string, birthDate: string, qualification: string,
    gender: string, address: string, guardianName: string, guardianType: string, guardianMobile: string)

  const EmptyStudentForm := StudentForm("", "", "", "", "", "ذكر", "", "", "الأب", "")

  /** `v || default` on a text field. */
  function Or(v: string, default: string): (r: string)
    ensures r == "" ==> default == ""
    ensures v != "" ==> r == v
  {
    if v == "" then default else v
  }

  /** The record `handleAddStudent` stores: the form's fields with defaults for the empty
      ones, the generated id and password, and no groups. */
  function NewStudentRecord(f: StudentForm, id: string, password: string): Json {
    JObj(map[
      "id" := JStr(id), "password" := JStr(password), "groups" := JArr([]),
      "guardian" := JObj(map["name" := JStr(f.guardianName), "type" := JStr(Or(f.guardianType, "الأب")),
                             "mobile" := JStr(f.guardianMobile)]),
      "name" := JStr(f.name), "mobile" := JStr(f.mobile), "whatsapp" := JStr(f.whatsapp),
      "birthDate" := JStr(f.birthDate), "qualification" := JStr(f.qualification),
      "gender" := JStr(Or(f.gender, "ذكر")), "address" := JStr(f.address)])
  }

  class StudentsScreen {
    var branches: seq<Json>
    var courses: seq<Json>
    var students: seq<Json>
    var form: StudentForm

    constructor ()
      ensures branches == [] && courses == [] && students == [] && form == EmptyStudentForm
    {
      branches := [];
      courses := [];
      students := [];
      form := EmptyStudentForm;
    }

    /** The load effect: branches and courses are read and filtered, the students are
        repaired and shown, and saved back when a repair set the flag. When the enrollment
        derivation throws, the students are neither shown nor saved. */
    method Mount(store: Store) returns (ok: bool)
      modifies this`branches, this`courses, this`students, store
      ensures branches == NamedList(Read(old(store.entries), BranchesKey, JArr([])))
      ensures courses == NamedList(Read(old(store.entries), CoursesKey, JArr([])))
      ensures var loaded := LoadStudents(Read(old(store.entries), StudentsKey, JArr([])),
                                         Read(old(store.entries), GroupsKey, JArr([])), courses, branches);
              && (ok <==> loaded.Some?)
              && (!ok ==> students == old(students) && store.entries == old(store.entries))
              && (ok ==> students == loaded.value.0)
              && (ok && loaded.value.1 ==> store.entries == Write(old(store.entries), StudentsKey, JArr(students)))
              && (ok && !loaded.value.1 ==> store.entries == old(store.entries))
    {
      branches := NamedList(Read(store.entries, BranchesKey, JArr([])));
      courses := NamedList(Read(store.entries, CoursesKey, JArr([])));
      var loaded := LoadStudents(Read(store.entries, StudentsKey, JArr([])), Read(store.entries, GroupsKey, JArr([])), courses, branches);
      if loaded.None? {
        return false;
      }
      var (list, fixed) := loaded.value;
      if fixed {
        store.Save(StudentsKey, JArr(list));
      }
      students := list;
      return true;
    }

    /** `handleAddStudent`, with the current year and the random password given: an empty
        name or mobile is refused; otherwise the student, under a fresh id, is appended to
        the stored records, saved and shown, and the form is reset. */
    method AddStudent(store: Store, fullYear: nat, password: string) returns (added: bool)
      modifies this`students, this`form, store
      ensures added <==> old(form).name != "" && old(form).mobile != ""
      ensures !added ==> students == old(students) && form == old(form) && store.entries == old(store.entries)
      ensures added ==> students == StudentObjects(Read(old(store.entries), StudentsKey, JArr([])))
                          + [NewStudentRecord(old(form), NewStudentId(StudentObjects(Read(old(store.entries), StudentsKey, JArr([]))), fullYear % 100), password)]
      ensures added ==> store.entries == Write(old(store.entries), StudentsKey, JArr(students))
      ensures added ==> form == EmptyStudentForm
    {
      if form.name == "" || form.mobile == "" {
        return false;
      }
      var stored := StudentObjects(Read(store.entries, StudentsKey, JArr([])));
      var id := NewStudentId(stored, fullYear % 100);
      var record := NewStudentRecord(form, id, password);
      var list := stored + [record];
      store.Save(StudentsKey, JArr(list));
      students := list;
      form := EmptyStudentForm;
      return true;
    }
  }

  /** The added student's id differs from every stored student's id, and the list grows by
      exactly one. */
  lemma AddedStudentIsNew(stored: seq<Json>, f: StudentForm, fullYear: nat, password: string, i: nat)
    requires i < |stored|
    ensures var added := NewStudentRecord(f, NewStudentId(stored, fullYear % 100), password);
            && |stored + [added]| == |stored| + 1
            && IdOf(added) == Some(NewStudentId(stored, fullYear % 100))
            && IdOf(stored[i]) != IdOf(added)
  {
    NewStudentIdFresh(stored, fullYear % 100, i);
  }
}
