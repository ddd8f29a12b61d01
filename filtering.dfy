/**
 * The search and filter criteria of the crime list (`currentFilter`) and the chain of
 * order-preserving filters `getFilteredCrimes` applies to the records.
 */
module Filtering {
  import opened Wrappers
  import opened Strings
  import opened Records

  /**
   * The state of `currentFilter`. An empty string stands for a criterion that is absent or
   * empty; both are falsy and switch that filter off. `search` is kept lower-cased.
   */
  datatype Criteria = Criteria(search: string, crimeType: string, status: string, startDate: string, endDate: string)

  /** `currentFilter = {}`. */
  const NoCriteria: Criteria := Criteria("", "", "", "", "")

  /** What the end-date filter appends to the date of the last day. */
  const EndOfDay: string := "T23:59:59"

  /** The lower-cased query occurs in one of the seven searched text fields, lower-cased. */
  predicate MatchesSearch(c: Crime, query: string) {
    || Contains(Lower(c.data.title), query)
    || Contains(Lower(c.data.description), query)
    || Contains(Lower(c.data.location), query)
    || Contains(Lower(c.data.victimName), query)
    || Contains(Lower(c.data.suspectName), query)
    || Contains(Lower(c.data.officerName), query)
    || Contains(Lower(c.data.caseNumber), query)
  }

  /** A record passes the criteria: every criterion that is switched on holds of it. */
  predicate Matches(f: Criteria, c: Crime) {
    && (f.search != "" ==> MatchesSearch(c, f.search))
    && (f.crimeType != "" ==> c.data.crimeType == f.crimeType)
    && (f.status != "" ==> c.data.status == f.status)
    && (f.startDate != "" ==> LexLe(f.startDate, c.data.date))
    && (f.endDate != "" ==> LexLe(c.data.date, f.endDate + EndOfDay))
  }

  /** One step of the filter chain. */
  datatype Criterion =
    | Search(query: string)
    | OfType(crimeType: string)
    | WithStatus(status: string)
    | NotBefore(startDate: string)
    | NotAfter(endDate: string)

  /** The test one step of the chain applies to a record. */
  predicate Holds(k: Criterion, c: Crime) {
    match k
    case Search(q) => MatchesSearch(c, q)
    case OfType(t) => c.data.crimeType == t
    case WithStatus(s) => c.data.status == s
    case NotBefore(d) => LexLe(d, c.data.date)
    case NotAfter(d) => LexLe(c.data.date, d + EndOfDay)
  }

  /** The steps the chain takes for the given criteria, in the order it takes them. */
  function Active(f: Criteria): seq<Criterion> {
    (if f.search != "" then [Search(f.search)] else [])
    + (if f.crimeType != "" then [OfType(f.crimeType)] else [])
    + (if f.status != "" then [WithStatus(f.status)] else [])
    + (if f.startDate != "" then [NotBefore(f.startDate)] else [])
    + (if f.endDate != "" then [NotAfter(f.endDate)] else [])
  }

  /** Every step of `ks` lets the record through. */
  predicate AllHold(ks: seq<Criterion>, c: Crime) {
    ks == [] || (Holds(ks[0], c) && AllHold(ks[1..], c))
  }

  /** `s.filter(...)` with the conjunction of `ks` as the test. */
  function Retain(s: seq<Crime>, ks: seq<Criterion>): (r: seq<Crime>)
    ensures |r| <= |s|
    ensures forall c :: c in r ==> c in s && AllHold(ks, c)
  {
    if s == [] then [] else (if AllHold(ks, s[0]) then [s[0]] else []) + Retain(s[1..], ks)
  }

  /** The indices, counted from `base`, of the records of `s` that pass all of `ks`. */
  function KeptIndices(s: seq<Crime>, ks: seq<Criterion>, base: int): seq<int> {
    if s == [] then []
    else (if AllHold(ks, s[0]) then [base] else []) + KeptIndices(s[1..], ks, base + 1)
  }

  /** The kept indices lie in `base .. base + |s|`. */
  lemma {:induction false} KeptIndicesInRange(s: seq<Crime>, ks: seq<Criterion>, base: int)
    ensures forall x :: x in KeptIndices(s, ks, base) ==> base <= x < base + |s|
  {
    if s != [] {
      KeptIndicesInRange(s[1..], ks, base + 1);
    }
  }

  /** The j-th record `Retain` keeps is the record at the j-th kept index. */
  lemma {:induction false} RetainAtKeptIndices(s: seq<Crime>, ks: seq<Criterion>, base: int)
    ensures var r, idx := Retain(s, ks), KeptIndices(s, ks, base);
            && |idx| == |r|
            && (forall j :: 0 <= j < |idx| ==> base <= idx[j] < base + |s| && r[j] == s[idx[j] - base])
  {
    if s != [] {
      var r', idx' := Retain(s[1..], ks), KeptIndices(s[1..], ks, base + 1);
      RetainAtKeptIndices(s[1..], ks, base + 1);
      RetainUnfold(s, ks, base);
      KeptHeadStep(s, r', idx', base, Retain(s, ks), KeptIndices(s, ks, base));
    }
  }

  /** One step of `Retain` and `KeptIndices`: both keep the head together or drop it together. */
  lemma RetainUnfold(s: seq<Crime>, ks: seq<Criterion>, base: int)
    requires s != []
    ensures || (Retain(s, ks) == [s[0]] + Retain(s[1..], ks) && KeptIndices(s, ks, base) == [base] + KeptIndices(s[1..], ks, base + 1))
            || (Retain(s, ks) == Retain(s[1..], ks) && KeptIndices(s, ks, base) == KeptIndices(s[1..], ks, base + 1))
  {
  }

  /** One step of `Retain` with a single criterion: the head is kept exactly when it satisfies it. */
  lemma RetainOneStep(s: seq<Crime>, k: Criterion)
    requires s != []
    ensures Retain(s, [k]) == (if Holds(k, s[0]) then [s[0]] else []) + Retain(s[1..], [k])
  {
    AllHoldOne(k, s[0]);
  }

  /** A single criterion lets a record through exactly when it holds. */
  lemma AllHoldOne(k: Criterion, c: Crime)
    ensures AllHold([k], c) == Holds(k, c)
  {
    assert [k][0] == k && [k][1..] == [];
  }

  /** The index facts of the tail carry over to the whole sequence, with or without a kept head. */
  lemma KeptHeadStep(s: seq<Crime>, r': seq<Crime>, idx': seq<int>, base: int, r: seq<Crime>, idx: seq<int>)
    requires s != []
    requires |idx'| == |r'|
    requires forall j :: 0 <= j < |idx'| ==> base + 1 <= idx'[j] < base + |s| && r'[j] == s[1..][idx'[j] - (base + 1)]
    requires (r == [s[0]] + r' && idx == [base] + idx') || (r == r' && idx == idx')
    ensures |idx| == |r|
    ensures forall j :: 0 <= j < |idx| ==> base <= idx[j] < base + |s| && r[j] == s[idx[j] - base]
  {
    forall j | 0 <= j < |idx'| ensures r'[j] == s[idx'[j] - base] {
      assert s[1..][idx'[j] - (base + 1)] == s[idx'[j] - base];
    }
  }

  /** The kept indices increase. */
  lemma {:induction false} KeptIndicesIncrease(s: seq<Crime>, ks: seq<Criterion>, base: int)
    ensures var idx := KeptIndices(s, ks, base);
            forall j1, j2 :: 0 <= j1 < j2 < |idx| ==> idx[j1] < idx[j2]
  {
    if s != [] {
      KeptIndicesIncrease(s[1..], ks, base + 1);
      RetainAtKeptIndices(s[1..], ks, base + 1);
    }
  }

  /** An index is kept exactly when its record passes all of `ks`. */
  lemma {:induction false} KeptIndicesExact(s: seq<Crime>, ks: seq<Criterion>, base: int)
    ensures var idx := KeptIndices(s, ks, base);
            forall i :: 0 <= i < |s| ==> (AllHold(ks, s[i]) <==> base + i in idx)
  {
    if s != [] {
      var rest := KeptIndices(s[1..], ks, base + 1);
      var head := if AllHold(ks, s[0]) then [base] else [];
      var idx := KeptIndices(s, ks, base);
      assert idx == head + rest;
      KeptIndicesExact(s[1..], ks, base + 1);
      KeptIndicesInRange(s[1..], ks, base + 1);
      assert base !in rest;
      forall i | 0 <= i < |s|
        ensures AllHold(ks, s[i]) <==> base + i in idx
      {
        if i == 0 {
          assert base in idx <==> base in head;
        } else {
          assert s[i] == s[1..][i - 1];
          assert base + i in idx <==> base + 1 + (i - 1) in rest;
        }
      }
    }
  }

  /**
   * `Retain` is the subsequence of `s` made of exactly the records that pass: its j-th record is
   * the record at the j-th passing index of `s`, and those indices increase.
   */
  lemma RetainIsSubsequence(s: seq<Crime>, ks: seq<Criterion>)
    ensures var r, idx := Retain(s, ks), KeptIndices(s, ks, 0);
            && |idx| == |r|
            && (forall j :: 0 <= j < |idx| ==> 0 <= idx[j] < |s| && r[j] == s[idx[j]])
            && (forall j1, j2 :: 0 <= j1 < j2 < |idx| ==> idx[j1] < idx[j2])
            && (forall i :: 0 <= i < |s| ==> (AllHold(ks, s[i]) <==> i in idx))
  {
    var r, idx := Retain(s, ks), KeptIndices(s, ks, 0);
    RetainAtKeptIndices(s, ks, 0);
    forall j | 0 <= j < |idx| ensures 0 <= idx[j] < |s| && r[j] == s[idx[j]] {
      assert idx[j] - 0 == idx[j];
    }
    KeptIndicesIncrease(s, ks, 0);
    KeptIndicesExact(s, ks, 0);
    forall i | 0 <= i < |s| ensures AllHold(ks, s[i]) <==> i in idx {
      assert 0 + i == i;
    }
  }

  /** With no step to take, the chain returns the records unchanged. */
  lemma {:induction false} RetainNothing(s: seq<Crime>)
    ensures Retain(s, []) == s
  {
    if s != [] {
      RetainNothing(s[1..]);
    }
  }

  /** Filtering an already filtered list by one more step equals filtering once by all the steps. */
  lemma {:induction false} RetainStep(s: seq<Crime>, ks: seq<Criterion>, k: Criterion)
    ensures Retain(Retain(s, ks), [k]) == Retain(s, ks + [k])
  {
    if s != [] {
      RetainStep(s[1..], ks, k);
      var c := s[0];
      AllHoldConcat(ks, [k], c);
      var r := Retain(s, ks);
      if AllHold(ks, c) {
        assert r == [c] + Retain(s[1..], ks);
        assert r[0] == c && r[1..] == Retain(s[1..], ks);
        assert Retain(r, [k]) == (if Holds(k, c) then [c] else []) + Retain(Retain(s[1..], ks), [k]);
      } else {
        assert r == Retain(s[1..], ks);
      }
    }
  }

  lemma {:induction false} AllHoldConcat(a: seq<Criterion>, b: seq<Criterion>, c: Crime)
    ensures AllHold(a + b, c) <==> AllHold(a, c) && AllHold(b, c)
  {
    if a != [] {
      assert (a + b)[0] == a[0];
      assert (a + b)[1..] == a[1..] + b;
      AllHoldConcat(a[1..], b, c);
    } else {
      assert a + b == b;
    }
  }

  /** The chain's steps hold of a record exactly when the record matches the criteria. */
  lemma MatchesIffActive(f: Criteria, c: Crime)
    ensures Matches(f, c) <==> AllHold(Active(f), c)
  {
    var p1 := if f.search != "" then [Search(f.search)] else [];
    var p2 := if f.crimeType != "" then [OfType(f.crimeType)] else [];
    var p3 := if f.status != "" then [WithStatus(f.status)] else [];
    var p4 := if f.startDate != "" then [NotBefore(f.startDate)] else [];
    var p5 := if f.endDate != "" then [NotAfter(f.endDate)] else [];
    assert Active(f) == p1 + p2 + p3 + p4 + p5;
    AllHoldOptional(f.search != "", Search(f.search), c);
    AllHoldOptional(f.crimeType != "", OfType(f.crimeType), c);
    AllHoldOptional(f.status != "", WithStatus(f.status), c);
    AllHoldOptional(f.startDate != "", NotBefore(f.startDate), c);
    AllHoldOptional(f.endDate != "", NotAfter(f.endDate), c);
    AllHoldConcat(p1 + p2 + p3 + p4, p5, c);
    AllHoldConcat(p1 + p2 + p3, p4, c);
    AllHoldConcat(p1 + p2, p3, c);
    AllHoldConcat(p1, p2, c);
  }

  /** A step the chain takes only when `present` lets a record through exactly when it holds or is absent. */
  lemma AllHoldOptional(present: bool, k: Criterion, c: Crime)
    ensures AllHold(if present then [k] else [], c) <==> (present ==> Holds(k, c))
  {
    AllHoldOne(k, c);
  }

  /** The records `getFilteredCrimes` returns for the criteria `f`. */
  function Select(s: seq<Crime>, f: Criteria): seq<Crime> {
    Retain(s, Active(f))
  }

  /**
   * The filtered list is the subsequence of the records, in their original order, made of exactly
   * the records that match every active criterion.
   */
  lemma SelectIsMatchingSubsequence(s: seq<Crime>, f: Criteria)
    ensures var r, idx := Select(s, f), KeptIndices(s, Active(f), 0);
            && |idx| == |r|
            && (forall j :: 0 <= j < |idx| ==> 0 <= idx[j] < |s| && r[j] == s[idx[j]])
            && (forall j1, j2 :: 0 <= j1 < j2 < |idx| ==> idx[j1] < idx[j2])
            && (forall i :: 0 <= i < |s| ==> (Matches(f, s[i]) <==> i in idx))
  {
    RetainIsSubsequence(s, Active(f));
    forall i | 0 <= i < |s| ensures Matches(f, s[i]) <==> AllHold(Active(f), s[i]) {
      MatchesIffActive(f, s[i]);
    }
  }

  /** A record is in the filtered list exactly when it is in the store and matches the criteria. */
  lemma SelectMembership(s: seq<Crime>, f: Criteria, c: Crime)
    ensures c in Select(s, f) <==> c in s && Matches(f, c)
  {
    SelectIsMatchingSubsequence(s, f);
    MatchesIffActive(f, c);
    var r, idx := Select(s, f), KeptIndices(s, Active(f), 0);
    if c in s && Matches(f, c) {
      var i :| 0 <= i < |s| && s[i] == c;
      var j :| 0 <= j < |idx| && idx[j] == i;
      assert r[j] == c;
    }
  }

  /** With no criterion set, the filtered list is the whole store. */
  lemma SelectNoCriteria(s: seq<Crime>)
    ensures Select(s, NoCriteria) == s
  {
    assert Active(NoCriteria) == [];
    RetainNothing(s);
  }

  // ---------------------------------------------------------------- date bounds

  /** A record dated on the start day, at any time of it, passes the start bound. */
  lemma StartDayKept(d: string, time: string, c: Crime)
    requires c.data.date == d + time
    ensures Holds(NotBefore(d), c)
  {
    LexLePrefix(d, time);
  }

  /**
   * A record dated on an earlier day (a date string of the same length that compares smaller),
   * at any time of that day, fails the start bound.
   */
  lemma EarlierDayDropped(d: string, earlier: string, time: string, c: Crime)
    requires |earlier| == |d| && LexLess(earlier, d)
    requires c.data.date == earlier + time
    ensures !Holds(NotBefore(d), c)
  {
    LexLessSameLengthExtended(earlier, d, time);
    LexLessAsymmetric(earlier + time, d);
    LexLessIrreflexive(d);
  }

  /** A record dated on the end day at a time no later than `T23:59:59` passes the end bound. */
  lemma EndDayKept(d: string, time: string, c: Crime)
    requires LexLe(time, EndOfDay)
    requires c.data.date == d + time
    ensures Holds(NotAfter(d), c)
  {
    LexLeCommonPrefix(d, time, EndOfDay);
  }

  /** A record dated on a later day (same-length date string that compares greater) fails the end bound. */
  lemma LaterDayDropped(d: string, later: string, time: string, c: Crime)
    requires |later| == |d| && LexLess(d, later)
    requires c.data.date == later + time
    ensures !Holds(NotAfter(d), c)
  {
    LexLessSameLengthExtended(d, later, EndOfDay);
    LexLePrefix(later, time);
    if later + time != later {
      LexLessTransitive(d + EndOfDay, later, later + time);
    }
    LexLessAsymmetric(d + EndOfDay, later + time);
    LexLessIrreflexive(later + time);
  }
}
