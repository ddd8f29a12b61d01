/**
 * The record store `CrimeManagementSystem`: the collection `crimes`, the criteria of the list
 * view and the id of the record the form is editing, with the operations that change them and
 * the views read off them.
 */
module Store {
  import opened Wrappers
  import opened Strings
  import opened Records
  import opened Filtering
  import opened Aggregation

  // ---------------------------------------------------------------- ids

  /** No two records share an id. */
  predicate UniqueIds(s: seq<Crime>) {
    forall i, j :: 0 <= i < j < |s| ==> s[i].id != s[j].id
  }

  /** Some record carries the id. */
  predicate HasId(s: seq<Crime>, id: Id) {
    exists i :: 0 <= i < |s| && s[i].id == id
  }

  /** `crimes.findIndex(c => c.id === id)`, with `None` for `-1`. */
  function FindIndex(s: seq<Crime>, id: Id): (r: Option<nat>)
    ensures r.Some? ==> r.value < |s| && s[r.value].id == id
    ensures r.Some? ==> forall j :: 0 <= j < r.value ==> s[j].id != id
    ensures r.None? <==> !HasId(s, id)
  {
    if s == [] then None
    else if s[0].id == id then Some(0)
    else match FindIndex(s[1..], id)
      case None =>
        assert forall j :: 1 <= j < |s| ==> s[j] == s[1..][j - 1];
        None
      case Some(i) => Some(i + 1)
  }

  // ---------------------------------------------------------------- edit

  /**
   * The store after `crimes[index] = { ...crimes[index], ...crimeData }` at the first record with
   * the id, or unchanged when there is none.
   */
  function Edited(s: seq<Crime>, id: Id, d: CrimeData): seq<Crime> {
    match FindIndex(s, id)
    case Some(i) => s[i := Crime(s[i].id, d)]
    case None => s
  }

  /**
   * Editing keeps the length and every record's id and position; the first record with the id
   * takes the new fields, every other record is unchanged; an unknown id changes nothing.
   */
  lemma EditChangesOnlyTheRecord(s: seq<Crime>, id: Id, d: CrimeData)
    ensures var r := Edited(s, id, d);
            && |r| == |s|
            && (forall i :: 0 <= i < |s| ==> r[i].id == s[i].id)
            && (HasId(s, id) ==> exists i :: 0 <= i < |s| && s[i].id == id && r[i] == Crime(id, d)
                                   && (forall j :: 0 <= j < i ==> s[j].id != id)
                                   && forall j :: 0 <= j < |s| && j != i ==> r[j] == s[j])
            && (!HasId(s, id) ==> r == s)
  {
    var m := FindIndex(s, id);
    if m.Some? {
      var r := Edited(s, id, d);
      assert s[m.value].id == id && r[m.value] == Crime(id, d);
    }
  }

  /** With unique ids, every record carrying the edited id holds the new fields afterwards. */
  lemma EditReachesTheId(s: seq<Crime>, id: Id, d: CrimeData)
    requires UniqueIds(s) && HasId(s, id)
    ensures Crime(id, d) in Edited(s, id, d)
    ensures forall c :: c in Edited(s, id, d) && c.id == id ==> c.data == d
  {
    var i := FindIndex(s, id).value;
    var r := Edited(s, id, d);
    assert r[i] == Crime(id, d);
    EditChangesOnlyTheRecord(s, id, d);
    forall c | c in r && c.id == id ensures c.data == d {
      var j :| 0 <= j < |r| && r[j] == c;
      assert s[j].id == id == s[i].id;
      assert j == i;
    }
  }

  /** Editing keeps the ids unique. */
  lemma EditKeepsIdsUnique(s: seq<Crime>, id: Id, d: CrimeData)
    requires UniqueIds(s)
    ensures UniqueIds(Edited(s, id, d))
  {
    EditChangesOnlyTheRecord(s, id, d);
  }

  // ---------------------------------------------------------------- add

  /** Appending a record whose id is fresh keeps the ids unique. */
  lemma AddKeepsIdsUnique(s: seq<Crime>, c: Crime)
    requires UniqueIds(s) && !HasId(s, c.id)
    ensures UniqueIds(s + [c])
  {
    var r := s + [c];
    forall i, j | 0 <= i < j < |r| ensures r[i].id != r[j].id {
      if j == |s| {
        assert r[i] == s[i];
      }
    }
  }

  // ---------------------------------------------------------------- delete

  /** `crimes.filter(crime => crime.id !== id)`. */
  function WithoutId(s: seq<Crime>, id: Id): (r: seq<Crime>)
    ensures |r| <= |s|
    ensures forall c :: c in r <==> c in s && c.id != id
  {
    if s == [] then [] else (if s[0].id != id then [s[0]] else []) + WithoutId(s[1..], id)
  }

  /** Deleting splits over a concatenation: the kept records stay in their order. */
  lemma {:induction false} WithoutIdConcat(a: seq<Crime>, b: seq<Crime>, id: Id)
    ensures WithoutId(a + b, id) == WithoutId(a, id) + WithoutId(b, id)
  {
    if a == [] {
      assert a + b == b;
    } else {
      assert (a + b)[0] == a[0];
      assert (a + b)[1..] == a[1..] + b;
      WithoutIdConcat(a[1..], b, id);
    }
  }

  /** Deleting an id no record carries changes nothing. */
  lemma {:induction false} WithoutUnknownId(s: seq<Crime>, id: Id)
    requires forall k :: 0 <= k < |s| ==> s[k].id != id
    ensures WithoutId(s, id) == s
  {
    if s != [] {
      WithoutUnknownId(s[1..], id);
      assert s == [s[0]] + s[1..];
    }
  }

  /** Deleting twice with the same id is deleting once. */
  lemma DeleteIdempotent(s: seq<Crime>, id: Id)
    ensures WithoutId(WithoutId(s, id), id) == WithoutId(s, id)
  {
    WithoutUnknownId(WithoutId(s, id), id);
  }

  /** Deleting the id of a record that no record around it carries removes just that record. */
  lemma DeleteBetween(a: seq<Crime>, x: Crime, b: seq<Crime>)
    requires forall k :: 0 <= k < |a| ==> a[k].id != x.id
    requires forall k :: 0 <= k < |b| ==> b[k].id != x.id
    ensures WithoutId(a + [x] + b, x.id) == a + b
  {
    var id := x.id;
    assert WithoutId([x], id) == [] by {
      assert [x][1..] == [];
    }
    assert WithoutId(a + [x], id) == a by {
      WithoutIdConcat(a, [x], id);
      WithoutUnknownId(a, id);
      assert a + [] == a;
    }
    WithoutIdConcat(a + [x], b, id);
    WithoutUnknownId(b, id);
  }

  /**
   * With unique ids, deleting the id of the record at `i` removes exactly that record and keeps
   * the others in order.
   */
  lemma DeleteRemovesOne(s: seq<Crime>, i: nat)
    requires UniqueIds(s) && i < |s|
    ensures WithoutId(s, s[i].id) == s[..i] + s[i + 1..]
  {
    var a, b := s[..i], s[i + 1..];
    assert s == a + [s[i]] + b;
    assert forall k :: 0 <= k < |a| ==> a[k].id != s[i].id by {
      forall k | 0 <= k < |a| ensures a[k].id != s[i].id {
        assert a[k] == s[k];
      }
    }
    assert forall k :: 0 <= k < |b| ==> b[k].id != s[i].id by {
      forall k | 0 <= k < |b| ensures b[k].id != s[i].id {
        assert b[k] == s[i + 1 + k];
      }
    }
    DeleteBetween(a, s[i], b);
  }

  /** Deleting keeps the ids unique. */
  lemma {:induction false} DeleteKeepsIdsUnique(s: seq<Crime>, id: Id)
    requires UniqueIds(s)
    ensures UniqueIds(WithoutId(s, id))
  {
    if s != [] {
      DeleteKeepsIdsUnique(s[1..], id);
      var rest := WithoutId(s[1..], id);
      assert forall c :: c in rest ==> c.id != s[0].id;
    }
  }

  // ---------------------------------------------------------------- import

  /** What `JSON.parse` made of an imported file. */
  datatype ParseResult =
    | ParsedArray(records: seq<Crime>)
    | ParsedNonArray
    | SyntaxError

  // ---------------------------------------------------------------- the store

  class CrimeManagementSystem {
    var crimes: seq<Crime>
    var currentFilter: Criteria
    var editingCrimeId: Option<Id>

    /**
     * `constructor` with `loadData`: the parsed saved data whenever something was saved (even an
     * empty array), otherwise the sample records; no criteria and no record being edited.
     */
    constructor (saved: Option<seq<Crime>>)
      ensures saved.Some? ==> crimes == saved.value
      ensures saved.None? ==> crimes == SampleData()
      ensures currentFilter == NoCriteria
      ensures editingCrimeId == None
    {
      match saved {
        case Some(records) => crimes := records;
        case None => crimes := SampleData();
      }
      currentFilter := NoCriteria;
      editingCrimeId := None;
    }

    /** `openModal(crimeId)`: the form now edits that record, or adds one when `crimeId` is `null`. */
    method OpenModal(crimeId: Option<Id>)
      modifies this
      ensures editingCrimeId == crimeId
      ensures crimes == old(crimes) && currentFilter == old(currentFilter)
    {
      editingCrimeId := crimeId;
    }

    /** `closeModal`: no record is being edited any more. */
    method CloseModal()
      modifies this
      ensures editingCrimeId == None
      ensures crimes == old(crimes) && currentFilter == old(currentFilter)
    {
      editingCrimeId := None;
    }

    /** `this.crimes.push(crimeData)` with `crimeData.id` set to the given id. */
    method Add(id: Id, d: CrimeData)
      modifies this
      ensures crimes == old(crimes) + [Crime(id, d)]
      ensures currentFilter == old(currentFilter) && editingCrimeId == old(editingCrimeId)
    {
      crimes := crimes + [Crime(id, d)];
    }

    /** The update branch: overwrite the fields of the first record with the id, if there is one. */
    method Edit(id: Id, d: CrimeData)
      modifies this
      ensures crimes == Edited(old(crimes), id, d)
      ensures currentFilter == old(currentFilter) && editingCrimeId == old(editingCrimeId)
    {
      var index := FindIndex(crimes, id);
      if index.Some? {
        crimes := crimes[index.value := Crime(crimes[index.value].id, d)];
      }
    }

    /**
     * `handleFormSubmit`: edit the record the form was opened for when that id is truthy,
     * otherwise add a record with the id `now` (the clock reading); then close the form.
     */
    method HandleFormSubmit(d: CrimeData, now: Id)
      modifies this
      ensures IsTruthyId(old(editingCrimeId)) ==> crimes == Edited(old(crimes), old(editingCrimeId).value, d)
      ensures !IsTruthyId(old(editingCrimeId)) ==> crimes == old(crimes) + [Crime(now, d)]
      ensures editingCrimeId == None && currentFilter == old(currentFilter)
    {
      if IsTruthyId(editingCrimeId) {
        Edit(editingCrimeId.value, d);
      } else {
        Add(now, d);
      }
      CloseModal();
    }

    /** `deleteCrime` once confirmed: drop every record with the id. */
    method DeleteCrime(id: Id)
      modifies this
      ensures crimes == WithoutId(old(crimes), id)
      ensures currentFilter == old(currentFilter) && editingCrimeId == old(editingCrimeId)
    {
      crimes := WithoutId(crimes, id);
    }

    /**
     * `importData`: nothing happens without a file; a parsed array replaces all records; a value
     * that is not an array, or text that does not parse, leaves the records as they were.
     */
    method ImportData(file: Option<ParseResult>) returns (imported: bool)
      modifies this
      ensures imported <==> file.Some? && file.value.ParsedArray?
      ensures imported ==> crimes == file.value.records
      ensures !imported ==> crimes == old(crimes)
      ensures currentFilter == old(currentFilter) && editingCrimeId == old(editingCrimeId)
    {
      imported := false;
      if file.Some? {
        match file.value
        case ParsedArray(records) =>
          crimes := records;
          imported := true;
        case ParsedNonArray =>
        case SyntaxError =>
      }
    }

    /** `handleSearch`: the query is stored lower-cased. */
    method HandleSearch(query: string)
      modifies this
      ensures currentFilter == old(currentFilter).(search := Lower(query))
      ensures crimes == old(crimes) && editingCrimeId == old(editingCrimeId)
    {
      currentFilter := currentFilter.(search := Lower(query));
    }

    /** `applyFilters`: the four select and date inputs become the type, status and date criteria. */
    method ApplyFilters(crimeType: string, status: string, startDate: string, endDate: string)
      modifies this
      ensures currentFilter == Criteria(old(currentFilter).search, crimeType, status, startDate, endDate)
      ensures crimes == old(crimes) && editingCrimeId == old(editingCrimeId)
    {
      currentFilter := currentFilter.(crimeType := crimeType, status := status, startDate := startDate, endDate := endDate);
    }

    /** `clearFilters`: `currentFilter = {}`. */
    method ClearFilters()
      modifies this
      ensures currentFilter == NoCriteria
      ensures crimes == old(crimes) && editingCrimeId == old(editingCrimeId)
    {
      currentFilter := NoCriteria;
    }

    /**
     * `getFilteredCrimes`: a copy of the records narrowed by each criterion that is set, in turn;
     * the result is the matching subsequence `Select` of the records.
     */
    method GetFilteredCrimes() returns (filtered: seq<Crime>)
      ensures filtered == Select(crimes, currentFilter)
    {
      var f := currentFilter;
      // The criteria taken so far, and the part of `Active(f)` each `if` below contributes.
      ghost var steps: seq<Criterion> := [];
      ghost var s1 := if f.search != "" then [Search(f.search)] else [];
      ghost var s2 := if f.crimeType != "" then [OfType(f.crimeType)] else [];
      ghost var s3 := if f.status != "" then [WithStatus(f.status)] else [];
      ghost var s4 := if f.startDate != "" then [NotBefore(f.startDate)] else [];
      ghost var s5 := if f.endDate != "" then [NotAfter(f.endDate)] else [];
      filtered := crimes;
      RetainNothing(crimes);
      if f.search != "" {
        RetainStep(crimes, steps, Search(f.search));
        filtered := Retain(filtered, [Search(f.search)]);
        steps := steps + [Search(f.search)];
      }
      assert steps == s1 && filtered == Retain(crimes, steps);
      if f.crimeType != "" {
        RetainStep(crimes, steps, OfType(f.crimeType));
        filtered := Retain(filtered, [OfType(f.crimeType)]);
        steps := steps + [OfType(f.crimeType)];
      }
      assert steps == s1 + s2 && filtered == Retain(crimes, steps);
      if f.status != "" {
        RetainStep(crimes, steps, WithStatus(f.status));
        filtered := Retain(filtered, [WithStatus(f.status)]);
        steps := steps + [WithStatus(f.status)];
      }
      assert steps == s1 + s2 + s3 && filtered == Retain(crimes, steps);
      if f.startDate != "" {
        RetainStep(crimes, steps, NotBefore(f.startDate));
        filtered := Retain(filtered, [NotBefore(f.startDate)]);
        steps := steps + [NotBefore(f.startDate)];
      }
      assert steps == s1 + s2 + s3 + s4 && filtered == Retain(crimes, steps);
      if f.endDate != "" {
        RetainStep(crimes, steps, NotAfter(f.endDate));
        filtered := Retain(filtered, [NotAfter(f.endDate)]);
        steps := steps + [NotAfter(f.endDate)];
      }
      assert steps == s1 + s2 + s3 + s4 + s5 == Active(f);
    }

    /** `getCrimeTypeData`: the counting table of the records' types. */
    method GetCrimeTypeData() returns (t: Table)
      ensures t == CountTable(TypeKeys(crimes))
    {
      t := TallyTable(TypeKeys(crimes));
    }

    /** `getStatusData`: the counting table of the records' statuses. */
    method GetStatusData() returns (t: Table)
      ensures t == CountTable(StatusKeys(crimes))
    {
      t := TallyTable(StatusKeys(crimes));
    }

    /** `getGeographicData`: the counting table of the records' derived areas. */
    method GetGeographicData() returns (t: Table)
      ensures t == CountTable(AreaKeys(crimes))
    {
      t := TallyTable(AreaKeys(crimes));
    }

    /**
     * `getMonthlyTrendData`: count the month keys, sort the keys as strings, then label each
     * key with its month name and year and read its count.
     */
    method GetMonthlyTrendData() returns (t: Table)
      ensures t == MonthlyTable(crimes)
    {
      t := MonthlyTrend(MonthKeys(crimes));
    }
  }
}
