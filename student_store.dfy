/** The mock student store of the EduManage front end: the in-memory array the student service
    falls back to when the API is unreachable, with its search, create, update, delete, bulk update
    and statistics. A record field the source leaves undefined is the empty string here. */
module StudentStore {
  import opened Wrappers
  import opened Text

  datatype Student = Student(id: int, code: string, name: string, email: string, klass: string,
                             status: string, gender: string, admissionDate: string,
                             totalFees: Option<int>, feeBalance: int, paidFees: int)

  /** The fields a caller passes to create or update: `None` leaves a field as it is. */
  datatype Patch = Patch(code: Option<string>, name: Option<string>, email: Option<string>,
                         klass: Option<string>, status: Option<string>, gender: Option<string>,
                         totalFees: Option<int>, feeBalance: Option<int>, paidFees: Option<int>)

  const NotFound := "Student not found"
  const NoChange := Patch(None, None, None, None, None, None, None, None, None)

  /** `{ ...student, ...patch }`: every field the patch carries replaces the stored one. */
  function Merge(s: Student, p: Patch): (r: Student)
    ensures r.id == s.id && r.admissionDate == s.admissionDate
    ensures p.status.Some? ==> r.status == p.status.value
    ensures p.status.None? ==> r.status == s.status
    ensures r.code == p.code.GetOr(s.code) && r.name == p.name.GetOr(s.name) && r.email == p.email.GetOr(s.email)
    ensures r.klass == p.klass.GetOr(s.klass) && r.gender == p.gender.GetOr(s.gender)
    ensures r.totalFees == (if p.totalFees.Some? then p.totalFees else s.totalFees)
    ensures r.feeBalance == p.feeBalance.GetOr(s.feeBalance) && r.paidFees == p.paidFees.GetOr(s.paidFees)
  {
    s.(code := p.code.GetOr(s.code), name := p.name.GetOr(s.name), email := p.email.GetOr(s.email),
       klass := p.klass.GetOr(s.klass), status := p.status.GetOr(s.status), gender := p.gender.GetOr(s.gender),
       totalFees := if p.totalFees.Some? then p.totalFees else s.totalFees,
       feeBalance := p.feeBalance.GetOr(s.feeBalance), paidFees := p.paidFees.GetOr(s.paidFees))
  }

  /** Merging the same patch again changes nothing. */
  lemma MergeIdempotent(s: Student, p: Patch)
    ensures Merge(Merge(s, p), p) == Merge(s, p)
  {
  }

  lemma MergeNothing(s: Student)
    ensures Merge(s, NoChange) == s
  {
  }

  /** No two stored students share an id. */
  predicate UniqueIds(xs: seq<Student>) {
    forall i, j :: 0 <= i < j < |xs| ==> xs[i].id != xs[j].id
  }

  // ---------------------------------------------------------------- filtering

  /** The filters of a student search; the empty string or 0 stands for an absent filter. */
  datatype Filters = Filters(search: string, klass: string, status: string, page: int, limit: int)

  datatype Listing = Listing(students: seq<Student>, total: int, page: int, limit: int)

  /** One of the three filter passes of a search. */
  datatype Pass = BySearch(term: string) | ByClass(klass: string) | ByStatus(status: string)

  predicate Passes(pass: Pass, s: Student) {
    match pass
    case BySearch(term) => SearchHit(s, term)
    case ByClass(c) => s.klass == c
    case ByStatus(st) => s.status == st
  }

  /** `a` is `b` with some entries left out: what `Array.filter` returns, in order and without
      repeats. */
  predicate IsSubseq<T(==)>(a: seq<T>, b: seq<T>)
    decreases |b|
  {
    if a == [] then true
    else if b == [] then false
    else (a[0] == b[0] && IsSubseq(a[1..], b[1..])) || IsSubseq(a, b[1..])
  }

  lemma {:induction false} IsSubseqTransitive<T>(a: seq<T>, b: seq<T>, c: seq<T>)
    requires IsSubseq(a, b) && IsSubseq(b, c)
    ensures IsSubseq(a, c)
    decreases |c|
  {
    if a != [] {
      if IsSubseq(b, c[1..]) {
        IsSubseqTransitive(a, b, c[1..]);
      } else if a[0] == b[0] && IsSubseq(a[1..], b[1..]) {
        IsSubseqTransitive(a[1..], b[1..], c[1..]);
      } else {
        IsSubseqTransitive(a, b[1..], c[1..]);
      }
    }
  }

  lemma {:induction false} IsSubseqRefl<T>(a: seq<T>)
    ensures IsSubseq(a, a)
    decreases |a|
  {
    if a != [] {
      IsSubseqRefl(a[1..]);
    }
  }

  /** `array.filter(...)` with one pass. */
  function Where(xs: seq<Student>, pass: Pass): (r: seq<Student>)
    ensures IsSubseq(r, xs)
    ensures |r| <= |xs|
    ensures forall x :: x in r <==> x in xs && Passes(pass, x)
  {
    if xs == [] then []
    else
      var rest := Where(xs[1..], pass);
      var r := (if Passes(pass, xs[0]) then [xs[0]] else []) + rest;
      if Passes(pass, xs[0]) then
        assert r[0] == xs[0] && r[1..] == rest;
        r
      else
        assert r == rest && IsSubseq(rest, xs[1..]);
        r
  }

  /** A pass that every entry survives keeps the array as it is. */
  lemma {:induction false} WhereAll(xs: seq<Student>, pass: Pass)
    requires forall k :: 0 <= k < |xs| ==> Passes(pass, xs[k])
    ensures Where(xs, pass) == xs
  {
    if xs != [] {
      WhereAll(xs[1..], pass);
      assert [xs[0]] + xs[1..] == xs;
    }
  }

  /** The search term matches the name, the student code or the email, ignoring case. */
  predicate SearchHit(s: Student, term: string) {
    var t := Lower(term);
    Contains(Lower(s.name), t) || Contains(Lower(s.code), t) || Contains(Lower(s.email), t)
  }

  /** A class or status filter is skipped when it is absent or 'all'. */
  predicate Applies(filter: string) {
    filter != "" && filter != "all"
  }

  /** What a search keeps, as one condition. */
  predicate Selected(f: Filters, s: Student)
    ensures f.search == "" && !Applies(f.klass) && !Applies(f.status) ==> Selected(f, s)
    ensures Selected(f, s) && Applies(f.klass) ==> s.klass == f.klass
    ensures Selected(f, s) && Applies(f.status) ==> s.status == f.status
  {
    (f.search == "" || SearchHit(s, f.search)) &&
    (!Applies(f.klass) || s.klass == f.klass) &&
    (!Applies(f.status) || s.status == f.status)
  }

  /** The fallback of `getStudents`: the three filters one after the other. */
  function Query(xs: seq<Student>, f: Filters): (r: Listing)
    ensures forall x :: x in r.students <==> x in xs && Selected(f, x)
    ensures IsSubseq(r.students, xs)
    ensures |r.students| <= |xs| && r.total == |r.students|
    ensures r.page == (if f.page == 0 then 1 else f.page)
    ensures r.limit == (if f.limit == 0 then 10 else f.limit)
  {
    var bySearch := if f.search != "" then Where(xs, BySearch(f.search)) else xs;
    var byClass := if Applies(f.klass) then Where(bySearch, ByClass(f.klass)) else bySearch;
    var byStatus := if Applies(f.status) then Where(byClass, ByStatus(f.status)) else byClass;
    IsSubseqRefl(xs);
    IsSubseqRefl(bySearch);
    IsSubseqRefl(byClass);
    IsSubseqTransitive(byClass, bySearch, xs);
    IsSubseqTransitive(byStatus, byClass, xs);
    Listing(byStatus, |byStatus|, if f.page == 0 then 1 else f.page, if f.limit == 0 then 10 else f.limit)
  }

  /** With no filter the whole store is listed, in order. */
  lemma QueryNoFilter(xs: seq<Student>, page: int, limit: int)
    ensures Query(xs, Filters("", "", "all", page, limit)).students == xs
  {
  }

  /** Searching the result of a search with the same filters finds all of it again. */
  lemma QueryIdempotent(xs: seq<Student>, f: Filters)
    ensures Query(Query(xs, f).students, f).students == Query(xs, f).students
  {
    var once := Query(xs, f).students;
    assert forall k :: 0 <= k < |once| ==> once[k] in once && Selected(f, once[k]);
    if f.search != "" {
      WhereAll(once, BySearch(f.search));
    }
    if Applies(f.klass) {
      WhereAll(once, ByClass(f.klass));
    }
    if Applies(f.status) {
      WhereAll(once, ByStatus(f.status));
    }
  }

  // ---------------------------------------------------------------- lookup

  /** `findIndex(s => s.id === id)`: the first position holding that id. */
  function IndexOf(xs: seq<Student>, id: int): (r: Option<nat>)
    ensures r.Some? ==> r.value < |xs| && xs[r.value].id == id && forall k :: 0 <= k < r.value ==> xs[k].id != id
    ensures r.None? <==> forall k :: 0 <= k < |xs| ==> xs[k].id != id
  {
    if xs == [] then None
    else if xs[0].id == id then Some(0)
    else match IndexOf(xs[1..], id)
      case None => None
      case Some(k) => Some(k + 1)
  }

  /** The fallback of `getStudent`. */
  function Find(xs: seq<Student>, id: int): (r: Result<Student, string>)
    ensures r.Ok? ==> r.value in xs && r.value.id == id
    ensures r.Err? <==> forall k :: 0 <= k < |xs| ==> xs[k].id != id
    ensures r.Err? ==> r.error == NotFound
  {
    match IndexOf(xs, id)
    case None => Err(NotFound)
    case Some(i) => Ok(xs[i])
  }

  // ---------------------------------------------------------------- create

  /** The largest id in a non-empty store. */
  function MaxId(xs: seq<Student>): (m: int)
    requires xs != []
    ensures forall k :: 0 <= k < |xs| ==> xs[k].id <= m
    ensures exists k :: 0 <= k < |xs| && xs[k].id == m
  {
    if |xs| == 1 then xs[0].id
    else
      var m := MaxId(xs[1..]);
      assert xs[1..][0] == xs[1];
      if xs[0].id >= m then xs[0].id else m
  }

  /** The id a new student receives: one more than the largest id, and 1 in an empty store. */
  function NextId(xs: seq<Student>): (r: int)
    ensures forall k :: 0 <= k < |xs| ==> xs[k].id < r
    ensures xs != [] ==> r == MaxId(xs) + 1
    ensures xs == [] ==> r == 1
  {
    if xs == [] then 1 else MaxId(xs) + 1
  }

  /** A JavaScript number as `Math.max` can produce it: a finite value or -Infinity. */
  datatype JsNumber = Finite(v: int) | NegInfinity

  /** `Math.max(...xs)`: -Infinity for no arguments. */
  function JsMax(xs: seq<JsNumber>): (m: JsNumber)
    ensures m.NegInfinity? <==> forall k :: 0 <= k < |xs| ==> xs[k].NegInfinity?
    ensures m.Finite? ==> m in xs && forall k :: 0 <= k < |xs| && xs[k].Finite? ==> xs[k].v <= m.v
  {
    if xs == [] then NegInfinity
    else
      var m := JsMax(xs[1..]);
      match (xs[0], m)
      case (NegInfinity, _) => m
      case (Finite(a), NegInfinity) => xs[0]
      case (Finite(a), Finite(b)) => if a >= b then xs[0] else m
  }

  function JsPlusOne(x: JsNumber): JsNumber {
    match x
    case Finite(v) => Finite(v + 1)
    case NegInfinity => NegInfinity
  }

  function IdsOf(xs: seq<Student>): (r: seq<JsNumber>)
    ensures |r| == |xs| && forall k :: 0 <= k < |xs| ==> r[k] == Finite(xs[k].id)
  {
    if xs == [] then [] else [Finite(xs[0].id)] + IdsOf(xs[1..])
  }

  /** The id `createStudent` computes, as written: `Math.max(...ids) + 1`. */
  function NextIdAsWritten(ids: seq<JsNumber>): (r: JsNumber)
    ensures ids == [] ==> r == NegInfinity
    ensures r.Finite? ==> forall k :: 0 <= k < |ids| && ids[k].Finite? ==> ids[k].v < r.v
  {
    JsPlusOne(JsMax(ids))
  }

  /** On an empty store the written rule yields -Infinity, and so does every later create:
      all students created from an empty store share one id that no lookup by number finds. */
  lemma EmptyStoreIdAsWritten()
    ensures NextIdAsWritten([]) == NegInfinity
    ensures NextIdAsWritten([NegInfinity]) == NegInfinity
  {
    assert [NegInfinity][1..] == [];
  }

  /** On a non-empty store the written rule and NextId agree. */
  lemma {:induction false} NextIdAgrees(xs: seq<Student>)
    requires xs != []
    ensures NextIdAsWritten(IdsOf(xs)) == Finite(NextId(xs))
  {
    assert JsMax(IdsOf(xs)) == Finite(MaxId(xs)) by {
      MaxAgrees(xs);
    }
  }

  lemma {:induction false} MaxAgrees(xs: seq<Student>)
    requires xs != []
    ensures JsMax(IdsOf(xs)) == Finite(MaxId(xs))
  {
    var ids := IdsOf(xs);
    assert ids[1..] == IdsOf(xs[1..]);
    if |xs| == 1 {
      assert ids[1..] == [];
    } else {
      MaxAgrees(xs[1..]);
      assert xs[1..][0] == xs[1];
    }
  }

  /** The code of the student created when the store holds n entries: "STU2024" and n + 1 in at
      least three digits. */
  function CodeFor(n: nat): (r: string)
    ensures |r| >= 10 && r[..7] == "STU2024"
  {
    "STU2024" + PadStart(NatToDec(n + 1), 3, '0')
  }

  /** `totalFees || 5000`: an absent or zero total gives the default balance. */
  function OpeningBalance(totalFees: Option<int>): (b: int)
    ensures totalFees.Some? && totalFees.value != 0 ==> b == totalFees.value
    ensures totalFees.None? || totalFees.value == 0 ==> b == 5000
  {
    if totalFees.Some? && totalFees.value != 0 then totalFees.value else 5000
  }

  /** The record `createStudent` appends. */
  function NewStudent(xs: seq<Student>, data: Patch, today: string): (s: Student)
    ensures forall k :: 0 <= k < |xs| ==> xs[k].id < s.id
    ensures s.id == NextId(xs)
    ensures s.status == "active" && s.paidFees == 0 && s.admissionDate == today
    ensures s.feeBalance == OpeningBalance(data.totalFees)
    ensures s.code == data.code.GetOr(CodeFor(|xs|))
    ensures s.name == data.name.GetOr("") && s.email == data.email.GetOr("") && s.klass == data.klass.GetOr("")
    ensures s.gender == data.gender.GetOr("") && s.totalFees == data.totalFees
  {
    Student(NextId(xs), data.code.GetOr(CodeFor(|xs|)), data.name.GetOr(""), data.email.GetOr(""),
            data.klass.GetOr(""), "active", data.gender.GetOr(""), today, data.totalFees,
            OpeningBalance(data.totalFees), 0)
  }

  /** Appending a created student keeps the ids distinct. */
  lemma CreateKeepsUnique(xs: seq<Student>, data: Patch, today: string)
    requires UniqueIds(xs)
    ensures UniqueIds(xs + [NewStudent(xs, data, today)])
  {
  }

  // ---------------------------------------------------------------- update and delete

  /** The fallback of `updateStudent` on the array. */
  function Update(xs: seq<Student>, id: int, p: Patch): (r: Result<seq<Student>, string>)
    ensures r.Err? <==> forall k :: 0 <= k < |xs| ==> xs[k].id != id
    ensures r.Err? ==> r.error == NotFound
    ensures r.Ok? ==> |r.value| == |xs| && forall k :: 0 <= k < |xs| ==> r.value[k].id == xs[k].id
  {
    match IndexOf(xs, id)
    case None => Err(NotFound)
    case Some(i) => Ok(xs[i := Merge(xs[i], p)])
  }

  /** With distinct ids, an update merges into the one entry with that id and leaves the rest. */
  lemma UpdateTouchesOne(xs: seq<Student>, id: int, p: Patch)
    requires UniqueIds(xs) && Update(xs, id, p).Ok?
    ensures var ys := Update(xs, id, p).value;
            UniqueIds(ys) &&
            forall k :: 0 <= k < |xs| ==> ys[k] == if xs[k].id == id then Merge(xs[k], p) else xs[k]
  {
  }

  /** The fallback of `deleteStudent` on the array. */
  function Delete(xs: seq<Student>, id: int): (r: Result<seq<Student>, string>)
    ensures r.Err? <==> forall k :: 0 <= k < |xs| ==> xs[k].id != id
    ensures r.Err? ==> r.error == NotFound
    ensures r.Ok? ==> |r.value| == |xs| - 1
  {
    match IndexOf(xs, id)
    case None => Err(NotFound)
    case Some(i) => Ok(xs[..i] + xs[i + 1..])
  }

  /** With distinct ids, a delete removes exactly the entry with that id. */
  lemma DeleteRemovesOne(xs: seq<Student>, id: int)
    requires UniqueIds(xs) && Delete(xs, id).Ok?
    ensures var ys := Delete(xs, id).value;
            UniqueIds(ys) && forall x :: x in ys <==> x in xs && x.id != id
  {
    var i := IndexOf(xs, id).value;
    var ys := xs[..i] + xs[i + 1..];
    assert forall k :: 0 <= k < |ys| ==> ys[k] == if k < i then xs[k] else xs[k + 1];
    forall x | x in xs && x.id != id
      ensures x in ys
    {
      var k :| 0 <= k < |xs| && xs[k] == x;
      if k < i {
        assert ys[k] == x;
      } else {
        assert ys[k - 1] == x;
      }
    }
  }

  // ---------------------------------------------------------------- bulk update

  /** The store after `bulkUpdateStudents` has visited the ids in order. */
  function BulkUpdate(xs: seq<Student>, ids: seq<int>, p: Patch): (r: seq<Student>)
    ensures |r| == |xs| && forall k :: 0 <= k < |xs| ==> r[k].id == xs[k].id
    decreases |ids|
  {
    if ids == [] then xs
    else
      var ys := BulkUpdate(xs, ids[..|ids| - 1], p);
      match Update(ys, ids[|ids| - 1], p)
      case Ok(zs) => zs
      case Err(_) => ys
  }

  /** With distinct ids, a bulk update merges the patch into exactly the listed students. */
  lemma {:induction false} BulkUpdateMeans(xs: seq<Student>, ids: seq<int>, p: Patch)
    requires UniqueIds(xs)
    ensures var r := BulkUpdate(xs, ids, p);
            UniqueIds(r) &&
            forall k :: 0 <= k < |xs| ==> r[k] == if xs[k].id in ids then Merge(xs[k], p) else xs[k]
    decreases |ids|
  {
    if ids != [] {
      var init := ids[..|ids| - 1];
      var last := ids[|ids| - 1];
      assert ids == init + [last];
      BulkUpdateMeans(xs, init, p);
      var ys := BulkUpdate(xs, init, p);
      var r := BulkUpdate(xs, ids, p);
      if Update(ys, last, p).Ok? {
        UpdateTouchesOne(ys, last, p);
        forall k | 0 <= k < |xs|
          ensures r[k] == if xs[k].id in ids then Merge(xs[k], p) else xs[k]
        {
          MergeIdempotent(xs[k], p);
        }
      }
    }
  }

  /** A bulk update naming no stored id changes nothing, yet the source reports every id as updated. */
  lemma BulkUpdateUnknownIds(xs: seq<Student>, ids: seq<int>, p: Patch)
    requires UniqueIds(xs)
    requires forall k :: 0 <= k < |xs| ==> xs[k].id !in ids
    ensures BulkUpdate(xs, ids, p) == xs
  {
    BulkUpdateMeans(xs, ids, p);
  }

  // ---------------------------------------------------------------- statistics

  predicate IsActive(s: Student) { s.status == "active" }
  predicate NotActive(s: Student) { s.status != "active" }
  predicate IsMale(s: Student) { s.gender == "Male" }
  predicate IsFemale(s: Student) { s.gender == "Female" }

  /** `array.filter(p).length`. */
  function CountWhere(xs: seq<Student>, p: Student -> bool): (n: nat)
    ensures n <= |xs|
  {
    if xs == [] then 0 else (if p(xs[0]) then 1 else 0) + CountWhere(xs[1..], p)
  }

  /** Every student is either active or not, so the two counts add up to the total. */
  lemma {:induction false} ActiveSplit(xs: seq<Student>)
    ensures CountWhere(xs, IsActive) + CountWhere(xs, NotActive) == |xs|
  {
    if xs != [] {
      ActiveSplit(xs[1..]);
    }
  }

  /** The number of students in class c, counted from the end. */
  function CountClass(xs: seq<Student>, c: string): (n: nat)
    ensures n <= |xs|
  {
    if xs == [] then 0 else CountClass(xs[..|xs| - 1], c) + (if xs[|xs| - 1].klass == c then 1 else 0)
  }

  /** `reduce` building the per-class counts. */
  function ClassCounts(xs: seq<Student>): (m: map<string, nat>)
    ensures forall c :: c in m <==> exists k :: 0 <= k < |xs| && xs[k].klass == c
  {
    if xs == [] then map[]
    else
      var rest := ClassCounts(xs[..|xs| - 1]);
      var c := xs[|xs| - 1].klass;
      assert forall k :: 0 <= k < |xs| - 1 ==> xs[..|xs| - 1][k] == xs[k];
      rest[c := (if c in rest then rest[c] else 0) + 1]
  }

  /** The count of a class is the number of its students. */
  lemma {:induction false} ClassCountsCount(xs: seq<Student>, c: string)
    requires c in ClassCounts(xs)
    ensures ClassCounts(xs)[c] == CountClass(xs, c)
  {
    var init := xs[..|xs| - 1];
    if c in ClassCounts(init) {
      ClassCountsCount(init, c);
    } else {
      CountClassNone(init, c);
    }
  }

  lemma {:induction false} CountClassNone(xs: seq<Student>, c: string)
    requires c !in ClassCounts(xs)
    ensures CountClass(xs, c) == 0
  {
    if xs != [] {
      var init := xs[..|xs| - 1];
      assert forall k :: 0 <= k < |init| ==> init[k] == xs[k];
      CountClassNone(init, c);
    }
  }

  datatype StudentStats = StudentStats(total: nat, active: nat, inactive: int, byClass: map<string, nat>,
                                       male: nat, female: nat)

  /** The fallback of `getStudentStats` (without the admissions of the current month). */
  function Stats(xs: seq<Student>): (r: StudentStats)
    ensures r.total == |xs|
    ensures r.inactive == CountWhere(xs, NotActive)
    ensures r.active + r.inactive == r.total
    ensures r.byClass.Keys == set k | 0 <= k < |xs| :: xs[k].klass
  {
    ActiveSplit(xs);
    var active := CountWhere(xs, IsActive);
    StudentStats(|xs|, active, |xs| - active, ClassCounts(xs), CountWhere(xs, IsMale), CountWhere(xs, IsFemale))
  }

  // ---------------------------------------------------------------- the store

  class Store {
    var students: seq<Student>

    constructor (seed: seq<Student>)
      ensures students == seed
    {
      students := seed;
    }

    predicate Valid()
      reads this
    {
      UniqueIds(students)
    }

    /** `createStudent`: appends one record and returns it. */
    method CreateStudent(data: Patch, today: string) returns (s: Student)
      modifies this
      ensures s == NewStudent(old(students), data, today)
      ensures students == old(students) + [s]
      ensures old(Valid()) ==> Valid()
    {
      s := NewStudent(students, data, today);
      if Valid() {
        CreateKeepsUnique(students, data, today);
      }
      students := students + [s];
    }

    /** `updateStudent`: merges into the entry with that id, or fails with "Student not found". */
    method UpdateStudent(id: int, data: Patch) returns (r: Result<Student, string>)
      modifies this
      ensures var o := Update(old(students), id, data);
              (o.Ok? ==> students == o.value && r.Ok? && r.value.id == id && r.value in students) &&
              (o.Err? ==> students == old(students) && r == Err(NotFound))
      ensures old(Valid()) ==> Valid()
    {
      var i := IndexOf(students, id);
      if i.None? {
        return Err(NotFound);
      }
      if Valid() {
        UpdateTouchesOne(students, id, data);
      }
      students := students[i.value := Merge(students[i.value], data)];
      r := Ok(students[i.value]);
    }

    /** `deleteStudent`: removes the entry with that id, or fails with "Student not found". */
    method DeleteStudent(id: int) returns (r: Result<bool, string>)
      modifies this
      ensures var o := Delete(old(students), id);
              (o.Ok? ==> students == o.value && r == Ok(true)) && (o.Err? ==> students == old(students) && r == Err(NotFound))
      ensures old(Valid()) ==> Valid()
    {
      var i := IndexOf(students, id);
      if i.None? {
        return Err(NotFound);
      }
      if Valid() {
        DeleteRemovesOne(students, id);
      }
      students := students[..i.value] + students[i.value + 1..];
      r := Ok(true);
    }

    /** `bulkUpdateStudents`: merges the patch into every listed id that is found and reports the
        number of ids it was given. */
    method BulkUpdateStudents(ids: seq<int>, data: Patch) returns (updated: int)
      modifies this
      ensures students == BulkUpdate(old(students), ids, data)
      ensures updated == |ids|
      ensures old(Valid()) ==> Valid()
    {
      if Valid() {
        BulkUpdateMeans(students, ids, data);
      }
      students := MergeListed(students, ids, data);
      updated := |ids|;
    }
  }

  /** The `forEach` loop of `bulkUpdateStudents` over the array. */
  method MergeListed(xs: seq<Student>, ids: seq<int>, data: Patch) returns (ys: seq<Student>)
    ensures ys == BulkUpdate(xs, ids, data)
  {
    ys := xs;
    var i := 0;
    while i < |ids|
      invariant 0 <= i <= |ids|
      invariant ys == BulkUpdate(xs, ids[..i], data)
    {
      assert ids[..i + 1][..i] == ids[..i];
      var k := IndexOf(ys, ids[i]);
      if k.Some? {
        ys := ys[k.value := Merge(ys[k.value], data)];
      }
      i := i + 1;
    }
    assert ids[..|ids|] == ids;
  }
}
