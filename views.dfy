/**
 * The figures shown next to the list: the case statistics, and the records that get a marker
 * on the map.
 */
module Views {
  import opened Wrappers
  import opened Records
  import opened Filtering
  import opened Aggregation

  // ---------------------------------------------------------------- statistics

  /** The three numbers `updateStatistics` displays. */
  datatype Stats = Stats(total: nat, open: nat, solved: nat)

  /** `crimes.filter(crime => crime.status === status).length`. */
  function StatusCount(s: seq<Crime>, status: string): nat {
    |Retain(s, [WithStatus(status)])|
  }

  /** Total records, open cases and solved cases; open and solved cases never exceed the total. */
  function Statistics(s: seq<Crime>): (r: Stats)
    ensures r.total == |s|
    ensures r.open == Count(StatusKeys(s), "Open")
    ensures r.solved == Count(StatusKeys(s), "Solved")
    ensures r.open + r.solved <= r.total
  {
    FilterCountIsKeyCount(s, WithStatus("Open"), StatusKeys(s), "Open");
    FilterCountIsKeyCount(s, WithStatus("Solved"), StatusKeys(s), "Solved");
    CountTwoNames(StatusKeys(s), "Open", "Solved");
    Stats(|s|, StatusCount(s, "Open"), StatusCount(s, "Solved"))
  }

  /**
   * Filtering by one step keeps as many records as there are keys equal to `name`, when the step
   * lets a record through exactly when its key is `name`.
   */
  lemma {:induction false} FilterCountIsKeyCount(s: seq<Crime>, k: Criterion, keys: seq<string>, name: string)
    requires |keys| == |s|
    requires forall i :: 0 <= i < |s| ==> (Holds(k, s[i]) <==> keys[i] == name)
    ensures |Retain(s, [k])| == Count(keys, name)
  {
    if s != [] {
      var s', keys' := s[1..], keys[1..];
      forall i | 0 <= i < |s'| ensures Holds(k, s'[i]) <==> keys'[i] == name {
        assert s'[i] == s[i + 1] && keys'[i] == keys[i + 1];
      }
      FilterCountIsKeyCount(s', k, keys', name);
      assert keys == [keys[0]] + keys';
      CountCons(keys[0], keys', name);
      RetainOneStep(s, k);
    } else {
      assert keys == [];
    }
  }

  /**
   * The statistics agree with the status table: where the table has a column `Open` or `Solved`,
   * its value is the open or solved count; a count is zero exactly when the table has no such column.
   */
  lemma StatisticsAgreeWithStatusTable(s: seq<Crime>)
    ensures var st, t := Statistics(s), CountTable(StatusKeys(s));
            && (forall i :: 0 <= i < |t.labels| && t.labels[i] == "Open" ==> t.values[i] == st.open)
            && (forall i :: 0 <= i < |t.labels| && t.labels[i] == "Solved" ==> t.values[i] == st.solved)
            && (st.open == 0 <==> "Open" !in t.labels)
            && (st.solved == 0 <==> "Solved" !in t.labels)
  {
    var keys := StatusKeys(s);
    CountTableIsExact(keys);
    CountPositiveIffPresent(keys, "Open");
    CountPositiveIffPresent(keys, "Solved");
  }

  /** The list filtered by a type holds as many records as the type table counts for that type. */
  lemma TypeFilterAgreesWithTypeTable(s: seq<Crime>, crimeType: string)
    requires crimeType != ""
    ensures |Select(s, NoCriteria.(crimeType := crimeType))| == Count(TypeKeys(s), crimeType)
  {
    assert Active(NoCriteria.(crimeType := crimeType)) == [OfType(crimeType)];
    FilterCountIsKeyCount(s, OfType(crimeType), TypeKeys(s), crimeType);
  }

  // ---------------------------------------------------------------- map markers

  /** A record gets a map marker when both its coordinates are truthy. */
  predicate HasMarker(c: Crime) {
    IsTruthyCoordinate(c.data.latitude) && IsTruthyCoordinate(c.data.longitude)
  }

  /** The records `updateMap` places a marker for, in store order. */
  function Markers(s: seq<Crime>): (r: seq<Crime>)
    ensures |r| <= |s|
    ensures forall c :: c in r <==> c in s && HasMarker(c)
  {
    if s == [] then [] else (if HasMarker(s[0]) then [s[0]] else []) + Markers(s[1..])
  }
}
