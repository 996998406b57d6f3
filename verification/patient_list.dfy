/** The patient table's query pipeline: a case-insensitive text search on name or id, an optional
    exact status filter, and an optional sort by name or by most recent log. */
module PatientList {
  import opened Common
  import opened JsText
  import opened Seqs

  /** One row of the table. `id` is optional: the doctor dashboard's patients carry none.
      `lastLog` is the day of the last log as the number yyyymmdd, which orders like the date. */
  datatype Patient = Patient(name: string, id: Option<string>, status: string, lastLog: int)

  /** The TypeError thrown by reading `toLowerCase` of an undefined `id`. */
  datatype QueryError = UndefinedId

  /** What the text search means: the name, or else the id, contains the search text,
      ignoring the case of ASCII letters. A missing id contains nothing. */
  predicate MatchesText(p: Patient, search: string)
  {
    MatchesLowered(p, Lower(search))
  }

  /** The same test against an already lower-cased search text `q`. */
  predicate MatchesLowered(p: Patient, q: string)
  {
    Includes(Lower(p.name), q) || (p.id.Some? && Includes(Lower(p.id.value), q))
  }

  /** The search misses the name of a patient without id, so the filter goes on to read the id. */
  predicate ReadsMissingId(p: Patient, search: string)
  {
    !Includes(Lower(p.name), Lower(search)) && p.id.None?
  }

  /** The text test as a function value, for a lower-cased search text `q`. */
  function MatchesLoweredOf(q: string): Patient -> bool
  {
    p => MatchesLowered(p, q)
  }

  predicate StatusPasses(p: Patient, filter: string)
  {
    filter == "" || p.status == filter
  }

  function StatusPassesOf(filter: string): Patient -> bool
  {
    p => StatusPasses(p, filter)
  }

  /** The callback of the first `filter`: `||` only evaluates the id test when the name misses. */
  function TestText(p: Patient, search: string): (r: Result<bool, QueryError>)
    ensures r.Err? <==> ReadsMissingId(p, search)
    ensures r.Ok? ==> (r.value <==> MatchesText(p, search))
  {
    var q := Lower(search);
    if Includes(Lower(p.name), q) then Ok(true)
    else
      match p.id
      case None => Err(UndefinedId)
      case Some(id) => Ok(Includes(Lower(id), q))
  }

  /** The first `filter` over the patients; a throwing callback aborts the whole call. */
  function FilterByText(ps: seq<Patient>, search: string): (r: Result<seq<Patient>, QueryError>)
    ensures r.Err? <==> exists i :: 0 <= i < |ps| && ReadsMissingId(ps[i], search)
    ensures r.Ok? ==> r.value == Select(ps, MatchesLoweredOf(Lower(search)))
    decreases |ps|
  {
    if |ps| == 0 then Ok([])
    else
      match TestText(ps[0], search)
      case Err(e) => Err(e)
      case Ok(keep) =>
        match FilterByText(ps[1..], search)
        case Err(e) =>
          assert forall i :: 0 <= i < |ps| - 1 ==> ps[1..][i] == ps[i + 1];
          Err(e)
        case Ok(rest) =>
          assert forall i :: 1 <= i < |ps| ==> ps[i] == ps[1..][i - 1];
          Ok(if keep then [ps[0]] + rest else rest)
  }

  /** `if (filter) filtered = filtered.filter((p) => p.status === filter)`. */
  function FilterByStatus(ps: seq<Patient>, filter: string): (r: seq<Patient>)
    ensures filter == "" ==> r == ps
    ensures forall p :: p in r ==> p.status == filter || filter == ""
    ensures forall p :: p in ps && StatusPasses(p, filter) ==> p in r
    ensures forall p :: multiset(r)[p] == (if StatusPasses(p, filter) then multiset(ps)[p] else 0)
    ensures IsSubsequence(r, ps)
  {
    if filter == "" then
      SubsequenceOfSelf(ps);
      ps
    else
      var r := Select(ps, StatusPassesOf(filter));
      assert forall p :: p in ps && StatusPasses(p, filter) ==> multiset(r)[p] > 0;
      r
  }

  /** The sort keys the page recognises; any other value of `sort` leaves the order alone. */
  datatype SortKey = ByName | ByLastLog

  function ParseSortKey(sort: string): (r: Option<SortKey>)
    ensures r == Some(ByName) <==> sort == "name"
    ensures r == Some(ByLastLog) <==> sort == "lastLog"
  {
    if sort == "name" then Some(ByName)
    else if sort == "lastLog" then Some(ByLastLog)
    else None
  }

  /** The comparator allows `a` before `b`: names ascending, or last logs newest first. */
  predicate InOrder(k: SortKey, a: Patient, b: Patient)
  {
    match k
    case ByName => LexLe(a.name, b.name)
    case ByLastLog => a.lastLog >= b.lastLog
  }

  lemma InOrderTotal(k: SortKey, a: Patient, b: Patient)
    ensures InOrder(k, a, b) || InOrder(k, b, a)
  {
    if k == ByName {
      LexLeTotal(a.name, b.name);
    }
  }

  lemma InOrderTransitive(k: SortKey, a: Patient, b: Patient, c: Patient)
    requires InOrder(k, a, b) && InOrder(k, b, c)
    ensures InOrder(k, a, c)
  {
    if k == ByName {
      LexLeTransitive(a.name, b.name, c.name);
    }
  }

  predicate Sorted(k: SortKey, s: seq<Patient>)
  {
    forall i, j :: 0 <= i < j < |s| ==> InOrder(k, s[i], s[j])
  }

  /** Places `p` before the first element it may precede, so that it stays ahead of its equals. */
  function Insert(k: SortKey, p: Patient, s: seq<Patient>): (r: seq<Patient>)
    requires Sorted(k, s)
    ensures Sorted(k, r)
    ensures multiset(r) == multiset(s) + multiset{p}
    decreases |s|
  {
    if |s| == 0 then [p]
    else if InOrder(k, p, s[0]) then
      PrependSorted(k, p, s);
      [p] + s
    else
      InOrderTotal(k, p, s[0]);
      var rest := Insert(k, p, s[1..]);
      assert s == [s[0]] + s[1..];
      ConsSorted(k, s[0], rest, p, s[1..]);
      [s[0]] + rest
  }

  lemma PrependSorted(k: SortKey, p: Patient, s: seq<Patient>)
    requires |s| > 0 && Sorted(k, s) && InOrder(k, p, s[0])
    ensures Sorted(k, [p] + s)
    ensures multiset([p] + s) == multiset(s) + multiset{p}
  {
    forall j | 0 <= j < |s| ensures InOrder(k, p, s[j]) {
      if j > 0 {
        InOrderTransitive(k, p, s[0], s[j]);
      }
    }
    var r := [p] + s;
    assert forall i :: 0 < i < |r| ==> r[i] == s[i - 1];
  }

  lemma ConsSorted(k: SortKey, x: Patient, rest: seq<Patient>, p: Patient, tail: seq<Patient>)
    requires Sorted(k, [x] + tail) && InOrder(k, x, p)
    requires Sorted(k, rest) && multiset(rest) == multiset(tail) + multiset{p}
    ensures Sorted(k, [x] + rest)
  {
    var s := [x] + tail;
    forall y | y in rest ensures InOrder(k, x, y) {
      assert y in multiset(rest);
      if y != p {
        assert y in tail;
        var j :| 0 <= j < |tail| && tail[j] == y;
        assert s[0] == x && s[j + 1] == y;
      }
    }
    var r := [x] + rest;
    forall i, j | 0 <= i < j < |r| ensures InOrder(k, r[i], r[j]) {
      if i == 0 {
        assert r[j] in rest;
      } else {
        assert r[i] == rest[i - 1] && r[j] == rest[j - 1];
      }
    }
  }

  /** `Array.prototype.sort` with the key's comparator, as an insertion sort. */
  function SortBy(k: SortKey, s: seq<Patient>): (r: seq<Patient>)
    ensures Sorted(k, r)
    ensures multiset(r) == multiset(s)
    decreases |s|
  {
    if |s| == 0 then []
    else
      assert s == [s[0]] + s[1..];
      Insert(k, s[0], SortBy(k, s[1..]))
  }

  /** The status filter and the sort, applied to what the text search kept. */
  function Arrange(found: seq<Patient>, filter: string, sort: string): seq<Patient>
  {
    var kept := FilterByStatus(found, filter);
    match ParseSortKey(sort)
    case None => kept
    case Some(k) => SortBy(k, kept)
  }

  /** The list the page renders for the current `search`, `filter` and `sort`, or the error
      the render throws. */
  function Query(patients: seq<Patient>, search: string, filter: string, sort: string): Result<seq<Patient>, QueryError>
  {
    match FilterByText(patients, search)
    case Err(e) => Err(e)
    case Ok(found) => Ok(Arrange(found, filter, sort))
  }

  /** The patients the page should list: those matching the search and the status filter. */
  predicate Wanted(p: Patient, search: string, filter: string)
  {
    MatchesText(p, search) && StatusPasses(p, filter)
  }

  /** Whatever the sort, the arranged list holds exactly the found patients that pass the
      status filter, each as often as in `found`. */
  lemma ArrangeCounts(found: seq<Patient>, filter: string, sort: string)
    ensures forall p :: multiset(Arrange(found, filter, sort))[p] == (if StatusPasses(p, filter) then multiset(found)[p] else 0)
  {
    var kept := FilterByStatus(found, filter);
    if filter != "" {
      assert kept == Select(found, StatusPassesOf(filter));
    }
  }

  /** The render throws exactly when some patient has no id and a name the search misses. */
  lemma QueryFailsIff(patients: seq<Patient>, search: string, filter: string, sort: string)
    ensures Query(patients, search, filter, sort).Err?
        <==> exists i :: 0 <= i < |patients| && ReadsMissingId(patients[i], search)
  {
  }

  /** A successful query lists exactly the wanted patients, with their multiplicities: sorting
      permutes the filtered list and neither filter drops a wanted patient. */
  lemma QueryListsExactlyWanted(patients: seq<Patient>, search: string, filter: string, sort: string)
    requires Query(patients, search, filter, sort).Ok?
    ensures forall p :: multiset(Query(patients, search, filter, sort).value)[p]
                        == (if Wanted(p, search, filter) then multiset(patients)[p] else 0)
    ensures forall p :: p in Query(patients, search, filter, sort).value
                        <==> p in patients && Wanted(p, search, filter)
  {
    var found := Select(patients, MatchesLoweredOf(Lower(search)));
    ArrangeCounts(found, filter, sort);
    var r := Query(patients, search, filter, sort).value;
    assert forall p :: p in r <==> multiset(r)[p] > 0;
    assert forall p :: p in patients <==> multiset(patients)[p] > 0;
  }

  /** Without a recognised sort key the result keeps the input's relative order. */
  lemma QueryUnsortedKeepsOrder(patients: seq<Patient>, search: string, filter: string, sort: string)
    ensures Query(patients, search, filter, sort).Ok? && ParseSortKey(sort).None? ==>
              IsSubsequence(Query(patients, search, filter, sort).value, patients)
  {
    var found := Select(patients, MatchesLoweredOf(Lower(search)));
    SubsequenceTransitive(FilterByStatus(found, filter), found, patients);
  }

  /** `sort == "name"` lists names in ascending order. */
  lemma QuerySortedByName(patients: seq<Patient>, search: string, filter: string)
    requires Query(patients, search, filter, "name").Ok?
    ensures var r := Query(patients, search, filter, "name").value;
            forall i, j :: 0 <= i < j < |r| ==> LexLe(r[i].name, r[j].name)
  {
    assert Sorted(ByName, Query(patients, search, filter, "name").value);
  }

  /** `sort == "lastLog"` lists the most recent log first. */
  lemma QuerySortedByLastLog(patients: seq<Patient>, search: string, filter: string)
    requires Query(patients, search, filter, "lastLog").Ok?
    ensures var r := Query(patients, search, filter, "lastLog").value;
            forall i, j :: 0 <= i < j < |r| ==> r[i].lastLog >= r[j].lastLog
  {
    assert Sorted(ByLastLog, Query(patients, search, filter, "lastLog").value);
  }

  /** An empty search keeps every patient and never reads an id, so it never throws. */
  lemma QueryEmptySearch(patients: seq<Patient>, filter: string, sort: string)
    ensures Query(patients, "", filter, sort) == Ok(Arrange(patients, filter, sort))
  {
    forall p: Patient ensures MatchesText(p, "") && !ReadsMissingId(p, "") {
      IncludesEmpty(Lower(p.name));
    }
    SelectAll(patients, MatchesLoweredOf(Lower("")));
  }

  /** Changing the case of letters in the search text does not change the outcome. */
  lemma QueryIgnoresCase(patients: seq<Patient>, s1: string, s2: string, filter: string, sort: string)
    requires SameUpToCase(s1, s2)
    ensures Query(patients, s1, filter, sort) == Query(patients, s2, filter, sort)
  {
    LowerEqIffSameUpToCase(s1, s2);
    assert forall p :: ReadsMissingId(p, s1) == ReadsMissingId(p, s2);
    var f1 := FilterByText(patients, s1);
    var f2 := FilterByText(patients, s2);
    assert f1.Err? == f2.Err?;
    if f1.Ok? {
      assert f1.value == Select(patients, MatchesLoweredOf(Lower(s2))) == f2.value;
    } else {
      assert f1.error == UndefinedId == f2.error;
    }
  }

  /** The patients the doctor dashboard hands to the page: none of them has an id. */
  function DoctorDashboardPatients(): seq<Patient>
  {
    [ Patient("John Doe", None, "Critical", 20250829),
      Patient("Jane Roe", None, "Moderate", 20250828),
      Patient("Sam Lee", None, "Stable", 20250830) ]
  }

  /** As written, typing a letter that no name contains (here "x") makes the page throw. */
  lemma DoctorPatientsSearchThrows()
    ensures Query(DoctorDashboardPatients(), "x", "", "") == Err(UndefinedId)
  {
    var ps := DoctorDashboardPatients();
    var name := ps[0].name;
    assert forall i :: 0 <= i < |name| ==> name[i] != 'x' && name[i] != 'X';
    assert 'x' !in Lower(name);
    assert Lower("x") == "x" by {
      assert Lower("x")[0] == 'x';
    }
    IncludesCharIff(Lower(name), 'x');
    assert TestText(ps[0], "x") == Err(UndefinedId);
  }

  /** The evidently intended search: a missing id simply does not match. */
  function SafeQuery(patients: seq<Patient>, search: string, filter: string, sort: string): (r: seq<Patient>)
    ensures forall p :: multiset(r)[p] == (if Wanted(p, search, filter) then multiset(patients)[p] else 0)
    ensures ParseSortKey(sort).None? ==> IsSubsequence(r, patients)
    ensures forall k :: ParseSortKey(sort) == Some(k) ==> Sorted(k, r)
    ensures Query(patients, search, filter, sort).Ok? ==> Query(patients, search, filter, sort).value == r
  {
    var found := Select(patients, MatchesLoweredOf(Lower(search)));
    ArrangeCounts(found, filter, sort);
    SubsequenceTransitive(FilterByStatus(found, filter), found, patients);
    Arrange(found, filter, sort)
  }
}
