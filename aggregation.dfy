/**
 * The chart tables: counts of records per type, per status, per derived area and per month,
 * each a pair of aligned `labels`/`values` sequences. The counting dictionaries list their
 * keys in insertion order (JavaScript `Object.keys` order for keys that are not array indices).
 * Labels are taken to be neither array indices nor names an object inherits from `Object.prototype`.
 */
module Aggregation {
  import opened Wrappers
  import opened Strings
  import opened Records

  /** The `{ labels, values }` object handed to a chart. */
  datatype Table = Table(labels: seq<string>, values: seq<nat>)

  // ---------------------------------------------------------------- counting

  /** The distinct keys, each where it first occurs: the key order of the counting dictionary. */
  function FirstSeen(keys: seq<string>): seq<string> {
    if keys == [] then []
    else
      var labels := FirstSeen(keys[..|keys| - 1]);
      if keys[|keys| - 1] in labels then labels else labels + [keys[|keys| - 1]]
  }

  /** How many times `name` occurs among the keys. */
  function Count(keys: seq<string>, name: string): nat {
    if keys == [] then 0
    else Count(keys[..|keys| - 1], name) + (if keys[|keys| - 1] == name then 1 else 0)
  }

  /** The count of each label, in the labels' order. */
  function CountsOf(labels: seq<string>, keys: seq<string>): seq<nat> {
    seq(|labels|, i requires 0 <= i < |labels| => Count(keys, labels[i]))
  }

  function Sum(xs: seq<nat>): nat {
    if xs == [] then 0 else Sum(xs[..|xs| - 1]) + xs[|xs| - 1]
  }

  predicate Distinct(xs: seq<string>) {
    forall i, j :: 0 <= i < j < |xs| ==> xs[i] != xs[j]
  }

  /** The table a counting loop over `keys` produces. */
  function CountTable(keys: seq<string>): Table {
    Table(FirstSeen(keys), CountsOf(FirstSeen(keys), keys))
  }

  /** The first-seen labels are distinct and are exactly the keys that occur. */
  lemma {:induction false} FirstSeenIsDistinctKeys(keys: seq<string>)
    ensures Distinct(FirstSeen(keys))
    ensures forall k :: k in FirstSeen(keys) <==> k in keys
  {
    if keys != [] {
      var init := keys[..|keys| - 1];
      FirstSeenIsDistinctKeys(init);
      assert keys == init + [keys[|keys| - 1]];
    }
  }

  /** The index where `k` first occurs among the keys. */
  function FirstOccurrence(keys: seq<string>, k: string): (r: nat)
    requires k in keys
    ensures r < |keys| && keys[r] == k
    ensures forall j :: 0 <= j < r ==> keys[j] != k
  {
    if keys[0] == k then 0 else 1 + FirstOccurrence(keys[1..], k)
  }

  /** Appending a key moves no earlier first occurrence, and a new key first occurs at the end. */
  lemma FirstOccurrenceSnoc(keys: seq<string>, x: string, k: string)
    requires k in keys + [x]
    ensures FirstOccurrence(keys + [x], k) == if k in keys then FirstOccurrence(keys, k) else |keys|
  {
    assert forall j :: 0 <= j < |keys| ==> (keys + [x])[j] == keys[j];
    if k in keys {
      assert (keys + [x])[FirstOccurrence(keys, k)] == k;
    }
  }

  /**
   * The dictionary's key order is the order of first occurrence: of two labels, the earlier one
   * first occurs among the keys before the later one does.
   */
  lemma {:induction false} FirstSeenOrder(keys: seq<string>, i: nat, j: nat)
    requires i < j < |FirstSeen(keys)|
    ensures FirstSeen(keys)[i] in keys && FirstSeen(keys)[j] in keys
    ensures FirstOccurrence(keys, FirstSeen(keys)[i]) < FirstOccurrence(keys, FirstSeen(keys)[j])
  {
    var init, last := keys[..|keys| - 1], keys[|keys| - 1];
    var labels, labels' := FirstSeen(keys), FirstSeen(init);
    assert keys == init + [last];
    FirstSeenIsDistinctKeys(keys);
    FirstSeenIsDistinctKeys(init);
    assert labels[i] in labels && labels[j] in labels;
    assert labels[i] == labels'[i] && labels[i] in init;
    FirstOccurrenceSnoc(init, last, labels[i]);
    FirstOccurrenceSnoc(init, last, labels[j]);
    if j < |labels'| {
      FirstSeenOrder(init, i, j);
    }
  }

  /** A label is counted at least once exactly when it occurs among the keys. */
  lemma {:induction false} CountPositiveIffPresent(keys: seq<string>, name: string)
    ensures Count(keys, name) > 0 <==> name in keys
  {
    if keys != [] {
      var init := keys[..|keys| - 1];
      CountPositiveIffPresent(init, name);
      assert keys == init + [keys[|keys| - 1]];
    }
  }

  /** Counting keys one more key adds one to that key's count and nothing to the others. */
  lemma CountSnoc(keys: seq<string>, k: string, name: string)
    ensures Count(keys + [k], name) == Count(keys, name) + (if k == name then 1 else 0)
  {
    assert (keys + [k])[..|keys|] == keys;
  }

  /** A key's count is its multiplicity among the keys. */
  lemma {:induction false} CountIsMultiplicity(keys: seq<string>, name: string)
    ensures Count(keys, name) == multiset(keys)[name]
  {
    if keys != [] {
      var init := keys[..|keys| - 1];
      CountIsMultiplicity(init, name);
      assert keys == init + [keys[|keys| - 1]];
    }
  }

  /** One more key extends the first-seen labels when it is new, and leaves them alone otherwise. */
  lemma FirstSeenSnoc(keys: seq<string>, k: string)
    ensures FirstSeen(keys + [k]) == if k in FirstSeen(keys) then FirstSeen(keys) else FirstSeen(keys) + [k]
  {
    assert (keys + [k])[..|keys|] == keys;
  }

  /** Distinct keys are their own first-seen labels. */
  lemma {:induction false} FirstSeenOfDistinct(keys: seq<string>)
    requires Distinct(keys)
    ensures FirstSeen(keys) == keys
  {
    if keys != [] {
      var init := keys[..|keys| - 1];
      FirstSeenOfDistinct(init);
      assert keys == init + [keys[|keys| - 1]];
    }
  }

  /** Keys that were all seen before add no label. */
  lemma {:induction false} FirstSeenOfRepeats(a: seq<string>, b: seq<string>)
    requires forall k :: k in b ==> k in a
    ensures FirstSeen(a + b) == FirstSeen(a)
    decreases |b|
  {
    if b == [] {
      assert a + b == a;
    } else {
      var init := b[..|b| - 1];
      FirstSeenOfRepeats(a, init);
      assert a + b == (a + init) + [b[|b| - 1]];
      FirstSeenSnoc(a + init, b[|b| - 1]);
      FirstSeenIsDistinctKeys(a);
    }
  }

  /** Counting from the front: the first key adds one to its own count. */
  lemma {:induction false} CountCons(k: string, keys: seq<string>, name: string)
    ensures Count([k] + keys, name) == (if k == name then 1 else 0) + Count(keys, name)
    decreases |keys|
  {
    if keys == [] {
      assert [k] + keys == [k];
    } else {
      var init := keys[..|keys| - 1];
      CountCons(k, init, name);
      assert ([k] + keys)[..|keys|] == [k] + init;
    }
  }

  /** Two different names are counted among disjoint keys, so their counts add up to at most the number of keys. */
  lemma {:induction false} CountTwoNames(keys: seq<string>, a: string, b: string)
    requires a != b
    ensures Count(keys, a) + Count(keys, b) <= |keys|
  {
    if keys != [] {
      CountTwoNames(keys[..|keys| - 1], a, b);
    }
  }

  lemma {:induction false} SumSplit(a: seq<nat>, b: seq<nat>)
    ensures Sum(a + b) == Sum(a) + Sum(b)
    decreases |b|
  {
    if b != [] {
      assert (a + b)[..|a + b| - 1] == a + b[..|b| - 1];
      SumSplit(a, b[..|b| - 1]);
    } else {
      assert a + b == a;
    }
  }

  /** The sum over labels of the count of one key: one when the key is among distinct labels, else zero. */
  lemma {:induction false} SumOfIndicator(labels: seq<string>, k: string)
    requires Distinct(labels)
    ensures Sum(seq(|labels|, i requires 0 <= i < |labels| => if labels[i] == k then 1 else 0)) ==
            (if k in labels then 1 else 0)
  {
    if labels != [] {
      var init := labels[..|labels| - 1];
      SumOfIndicator(init, k);
      var ind := seq(|labels|, i requires 0 <= i < |labels| => if labels[i] == k then 1 else 0);
      assert ind[..|ind| - 1] == seq(|init|, i requires 0 <= i < |init| => if init[i] == k then 1 else 0);
      assert labels == init + [labels[|labels| - 1]];
    }
  }

  /** Summing two aligned count vectors pointwise sums their sums. */
  lemma {:induction false} SumPointwise(a: seq<nat>, b: seq<nat>)
    requires |a| == |b|
    ensures Sum(seq(|a|, i requires 0 <= i < |a| => a[i] + b[i])) == Sum(a) + Sum(b)
  {
    if a != [] {
      var n := |a| - 1;
      SumPointwise(a[..n], b[..n]);
      var c := seq(|a|, i requires 0 <= i < |a| => a[i] + b[i]);
      assert c[..n] == seq(n, i requires 0 <= i < n => a[..n][i] + b[..n][i]);
    }
  }

  /**
   * Over distinct labels that cover every key, the counts add up to the number of keys:
   * every key is counted under exactly one label.
   */
  lemma {:induction false} SumOfCounts(labels: seq<string>, keys: seq<string>)
    requires Distinct(labels)
    requires forall k :: k in keys ==> k in labels
    ensures Sum(CountsOf(labels, keys)) == |keys|
  {
    if keys == [] {
      var zeros := CountsOf(labels, keys);
      SumOfIndicator(labels, "");
      assert zeros == seq(|labels|, i requires 0 <= i < |labels| => if labels[i] == "" then 0 else 0);
      SumPointwise(zeros, zeros);
      assert zeros == seq(|zeros|, i requires 0 <= i < |zeros| => zeros[i] + zeros[i]);
    } else {
      var init, k := keys[..|keys| - 1], keys[|keys| - 1];
      assert keys == init + [k];
      SumOfCounts(labels, init);
      var before := CountsOf(labels, init);
      var ind := seq(|labels|, i requires 0 <= i < |labels| => if labels[i] == k then 1 else 0);
      forall i | 0 <= i < |labels| ensures CountsOf(labels, keys)[i] == before[i] + ind[i] {
        CountSnoc(init, k, labels[i]);
      }
      assert CountsOf(labels, keys) == seq(|before|, i requires 0 <= i < |before| => before[i] + ind[i]);
      SumPointwise(before, ind);
      SumOfIndicator(labels, k);
    }
  }

  /**
   * The table of a counting loop: labels are distinct and are exactly the keys that occur, in
   * first-seen order; values align with labels, each is its label's count and at least one, and
   * the values add up to the number of keys.
   */
  lemma CountTableIsExact(keys: seq<string>)
    ensures var t := CountTable(keys);
            && |t.labels| == |t.values|
            && Distinct(t.labels)
            && (forall k :: k in t.labels <==> k in keys)
            && (forall i :: 0 <= i < |t.labels| ==> t.values[i] == Count(keys, t.labels[i]) >= 1)
            && Sum(t.values) == |keys|
  {
    var t := CountTable(keys);
    FirstSeenIsDistinctKeys(keys);
    forall i | 0 <= i < |t.labels| ensures t.values[i] >= 1 {
      CountPositiveIffPresent(keys, t.labels[i]);
    }
    SumOfCounts(t.labels, keys);
  }

  /**
   * The `forEach` loop that fills a counting dictionary: `count[key] = (count[key] || 0) + 1`.
   * `labels` is the dictionary's key order.
   */
  method Tally(keys: seq<string>) returns (labels: seq<string>, counts: map<string, nat>)
    ensures labels == FirstSeen(keys)
    ensures forall k :: k in counts <==> k in keys
    ensures forall k :: k in counts ==> counts[k] == Count(keys, k)
  {
    labels, counts := [], map[];
    var i := 0;
    while i < |keys|
      invariant 0 <= i <= |keys|
      invariant labels == FirstSeen(keys[..i])
      invariant forall k :: k in counts <==> k in keys[..i]
      invariant forall k :: k in counts ==> counts[k] == Count(keys[..i], k)
    {
      var k, labels0, counts0 := keys[i], labels, counts;
      if k in counts {
        counts := counts[k := counts[k] + 1];
      } else {
        labels := labels + [k];
        counts := counts[k := 1];
      }
      TallyStep(keys[..i], k, labels0, counts0, labels, counts);
      assert keys[..i + 1] == keys[..i] + [k];
      i := i + 1;
    }
    assert keys[..i] == keys;
  }

  /** One turn of the counting loop keeps the dictionary in step with the keys seen so far. */
  lemma TallyStep(done: seq<string>, k: string, labels: seq<string>, counts: map<string, nat>,
                  labels': seq<string>, counts': map<string, nat>)
    requires labels == FirstSeen(done)
    requires forall l :: l in counts <==> l in done
    requires forall l :: l in counts ==> counts[l] == Count(done, l)
    requires || (k in counts && labels' == labels && counts' == counts[k := counts[k] + 1])
             || (k !in counts && labels' == labels + [k] && counts' == counts[k := 1])
    ensures labels' == FirstSeen(done + [k])
    ensures forall l :: l in counts' <==> l in done + [k]
    ensures forall l :: l in counts' ==> counts'[l] == Count(done + [k], l)
  {
    var done' := done + [k];
    assert done'[..|done'| - 1] == done;
    FirstSeenIsDistinctKeys(done);
    forall l ensures Count(done', l) == Count(done, l) + (if k == l then 1 else 0) {
      CountSnoc(done, k, l);
    }
    if k !in counts {
      CountPositiveIffPresent(done, k);
    }
  }

  /** A count table computed by the counting loop and read out in key order (`Object.values`). */
  method TallyTable(keys: seq<string>) returns (t: Table)
    ensures t == CountTable(keys)
  {
    var labels, counts := Tally(keys);
    FirstSeenIsDistinctKeys(keys);
    t := Table(labels, seq(|labels|, j requires 0 <= j < |labels| => counts[labels[j]]));
  }

  // ---------------------------------------------------------------- what is counted

  function TypeKeys(s: seq<Crime>): seq<string> {
    seq(|s|, i requires 0 <= i < |s| => s[i].data.crimeType)
  }

  function StatusKeys(s: seq<Crime>): seq<string> {
    seq(|s|, i requires 0 <= i < |s| => s[i].data.status)
  }

  function AreaKeys(s: seq<Crime>): seq<string> {
    seq(|s|, i requires 0 <= i < |s| => Area(s[i].data.location))
  }

  function MonthKeys(s: seq<Crime>): seq<string> {
    seq(|s|, i requires 0 <= i < |s| => MonthKey(s[i].data.date))
  }

  // ---------------------------------------------------------------- areas

  /** The known areas, in the order the rule tries them (case-sensitive). */
  const AreaKeywords: seq<string> := ["Downtown", "Midtown", "Uptown", "Online"]

  const UnknownArea: string := "Unknown Area"

  /** The index of the first keyword the location contains. */
  function FirstKeyword(location: string, keywords: seq<string>): (r: Option<nat>)
    ensures r.Some? ==> r.value < |keywords| && Contains(location, keywords[r.value])
    ensures r.Some? ==> forall j :: 0 <= j < r.value ==> !Contains(location, keywords[j])
    ensures r.None? ==> forall j :: 0 <= j < |keywords| ==> !Contains(location, keywords[j])
  {
    if keywords == [] then None
    else if Contains(location, keywords[0]) then Some(0)
    else match FirstKeyword(location, keywords[1..])
      case None => None
      case Some(i) => Some(i + 1)
  }

  /**
   * The second field of `s.split(',')`: the text between the first comma and the next comma
   * (or the end).
   */
  function SecondField(s: string): (r: string)
    requires ',' in s
    ensures var i := |Before(s, ',')|;
            && i < |s| && s[i] == ',' && ',' !in s[..i]
            && ',' !in r
            && i + 1 + |r| <= |s| && s[i + 1..i + 1 + |r|] == r
            && (i + 1 + |r| == |s| || s[i + 1 + |r|] == ',')
  {
    var rest := After(s, ',');
    var r := Before(rest, ',');
    var i := |Before(s, ',')|;
    assert s[i + 1..] == rest;
    r
  }

  /** The area a location is counted under. */
  function Area(location: string): string {
    if location == "" then UnknownArea
    else match FirstKeyword(location, AreaKeywords)
      case Some(i) => AreaKeywords[i]
      case None => if ',' in location then Trim(SecondField(location)) else Trim(location)
  }

  /**
   * The area rule: an empty location is `Unknown Area`; otherwise the first of Downtown, Midtown,
   * Uptown, Online that the location contains; otherwise the trimmed second comma-separated field,
   * or the whole trimmed location when there is no comma.
   */
  lemma AreaRule(location: string)
    ensures location == "" ==> Area(location) == UnknownArea
    ensures location != "" && Contains(location, "Downtown") ==> Area(location) == "Downtown"
    ensures (location != "" && !Contains(location, "Downtown") && Contains(location, "Midtown"))
            ==> Area(location) == "Midtown"
    ensures (location != "" && !Contains(location, "Downtown") && !Contains(location, "Midtown")
             && Contains(location, "Uptown"))
            ==> Area(location) == "Uptown"
    ensures (location != "" && !Contains(location, "Downtown") && !Contains(location, "Midtown")
             && !Contains(location, "Uptown") && Contains(location, "Online"))
            ==> Area(location) == "Online"
    ensures (location != "" && forall w :: w in AreaKeywords ==> !Contains(location, w))
            ==> Area(location) == (if ',' in location then Trim(SecondField(location)) else Trim(location))
  {
    var m := FirstKeyword(location, AreaKeywords);
    assert AreaKeywords[0] == "Downtown" && AreaKeywords[1] == "Midtown";
    assert AreaKeywords[2] == "Uptown" && AreaKeywords[3] == "Online";
    if m.None? {
      assert forall w :: w in AreaKeywords ==> !Contains(location, w);
    }
  }

  // ---------------------------------------------------------------- months

  const MonthNames: seq<string> := ["Jan", "Feb", "Mar", "Apr", "May", "Jun", "Jul", "Aug", "Sep", "Oct", "Nov", "Dec"]

  /** The key of an invalid date: `${NaN}-${NaN}`. */
  const InvalidMonthKey: string := "NaN-NaN"

  /** The year and the month (1 to 12) written in the `YYYY-MM` prefix of a date string. */
  function YearMonth(date: string): (r: Option<(nat, nat)>)
    ensures r.Some? <==> && |date| >= 7 && date[4] == '-'
                         && DigitsValue(date[..4]).Some? && DigitsValue(date[5..7]).Some?
                         && 1 <= DigitsValue(date[5..7]).value <= 12
    ensures r.Some? ==> r.value == (DigitsValue(date[..4]).value, DigitsValue(date[5..7]).value)
  {
    if |date| >= 7 && date[4] == '-' then
      match (DigitsValue(date[..4]), DigitsValue(date[5..7]))
      case (Some(y), Some(m)) => if 1 <= m <= 12 then Some((y, m)) else None
      case _ => None
    else None
  }

  /** `${date.getFullYear()}-${date.getMonth()}`: the year and the 0-based month, unpadded. */
  function MonthKey(date: string): string {
    match YearMonth(date)
    case Some((y, m)) => NatToString(y) + "-" + NatToString(m - 1)
    case None => InvalidMonthKey
  }

  /** `${months[parseInt(month)]} ${year}` for `[year, month] = key.split('-')`. */
  function MonthLabel(key: string): string {
    var year := Before(key, '-');
    var month := if '-' in key then Before(After(key, '-'), '-') else "";
    MonthName(month) + " " + year
  }

  /**
   * `months[parseInt(month)]`, which is `undefined` outside the twelve names. This agrees with
   * `parseInt` for month texts made only of digits or holding no digit at all, which covers every
   * key the monthly table builds; `parseInt` also reads a leading run of digits (`1a` as 1).
   */
  function MonthName(month: string): string {
    match DigitsValue(month)
    case Some(v) => if v < 12 then MonthNames[v] else "undefined"
    case None => "undefined"
  }

  lemma DigitsHaveNoDash(s: string)
    requires AllDigits(s)
    ensures '-' !in s
  {
    assert forall i :: 0 <= i < |s| ==> s[i] != '-';
  }

  /** Splitting a key joined from a year and a month at the dash gives back the two parts. */
  lemma MonthLabelOfJoin(year: string, month: string)
    requires '-' !in year && '-' !in month
    ensures MonthLabel(year + "-" + month) == MonthName(month) + " " + year
  {
    var key := year + "-" + month;
    assert key == year + ['-'] + month;
    SplitJoined(year, '-', month);
    assert '-' in key by { assert key[|year|] == '-'; }
  }

  /** Splitting a key joined from a year and a month number gives back the month's name and the year. */
  lemma MonthLabelOfParts(year: string, month: string, m0: nat)
    requires '-' !in year && '-' !in month
    requires DigitsValue(month) == Some(m0) && m0 < 12
    ensures MonthLabel(year + "-" + month) == MonthNames[m0] + " " + year
  {
    MonthLabelOfJoin(year, month);
  }

  /** Splitting the key of a year and a 0-based month gives back the month's name and the year. */
  lemma MonthLabelOfYearMonth(y: nat, m0: nat)
    requires m0 < 12
    ensures MonthLabel(NatToString(y) + "-" + NatToString(m0)) == MonthNames[m0] + " " + NatToString(y)
  {
    DigitsHaveNoDash(NatToString(y));
    DigitsHaveNoDash(NatToString(m0));
    NatToStringRoundTrip(m0);
    MonthLabelOfParts(NatToString(y), NatToString(m0), m0);
  }

  /** An invalid date is labelled `undefined NaN`. */
  lemma InvalidMonthLabel()
    ensures MonthLabel(InvalidMonthKey) == "undefined NaN"
  {
    InvalidMonthTexts();
    NotANumberLabel(InvalidMonthKey, "NaN");
  }

  /** The invalid key and its label, spelled out. */
  lemma InvalidMonthTexts()
    ensures InvalidMonthKey == "NaN" + "-" + "NaN"
    ensures "undefined" + " " + "NaN" == "undefined NaN"
    ensures forall i :: 0 <= i < |"NaN"| ==> !IsDigit("NaN"[i])
  {
  }

  /**
   * A key made of two copies of a non-empty text that has no dash and no digit (as `NaN`) is
   * labelled `undefined` and that text: `parseInt` of such a text is `NaN`, and `months[NaN]` is
   * `undefined`.
   */
  lemma NotANumberLabel(key: string, nan: string)
    requires nan != [] && '-' !in nan
    requires forall i :: 0 <= i < |nan| ==> !IsDigit(nan[i])
    requires key == nan + "-" + nan
    ensures MonthLabel(key) == "undefined" + " " + nan
  {
    MonthLabelOfJoin(nan, nan);
    assert DigitsValue(nan).None?;
  }

  /** The label of a date's key names the month and year written in the date, or is `undefined NaN`. */
  lemma MonthLabelOfKey(date: string)
    ensures YearMonth(date).Some? ==>
            var (y, m) := YearMonth(date).value;
            MonthLabel(MonthKey(date)) == MonthNames[m - 1] + " " + NatToString(y)
    ensures YearMonth(date).None? ==> MonthLabel(MonthKey(date)) == "undefined NaN"
  {
    if YearMonth(date).Some? {
      var (y, m) := YearMonth(date).value;
      MonthLabelOfYearMonth(y, m - 1);
    } else {
      InvalidMonthLabel();
    }
  }

  // ---------------------------------------------------------------- sorting

  /** Every earlier element is at most every later one. */
  predicate Sorted(s: seq<string>) {
    forall i, j :: 0 <= i < j < |s| ==> LexLe(s[i], s[j])
  }

  predicate StrictlySorted(s: seq<string>) {
    forall i, j :: 0 <= i < j < |s| ==> LexLess(s[i], s[j])
  }

  function Insert(x: string, s: seq<string>): (r: seq<string>)
    ensures multiset(r) == multiset(s) + multiset{x}
  {
    if s == [] then [x]
    else if LexLe(x, s[0]) then [x] + s
    else
      assert s == [s[0]] + s[1..];
      [s[0]] + Insert(x, s[1..])
  }

  lemma {:induction false} InsertSorted(x: string, s: seq<string>)
    requires Sorted(s)
    ensures Sorted(Insert(x, s))
  {
    if s != [] {
      if LexLe(x, s[0]) {
        forall j | 0 <= j < |s| ensures LexLe(x, s[j]) {
          LexLeTransitive(x, s[0], s[j]);
        }
      } else {
        InsertSorted(x, s[1..]);
        LexTrichotomy(x, s[0]);
        var r := Insert(x, s[1..]);
        forall j | 0 <= j < |r| ensures LexLe(s[0], r[j]) {
          assert r[j] in multiset(r);
          assert r[j] == x || r[j] in s[1..];
        }
      }
    }
  }

  lemma {:induction false} InsertStrictlySorted(x: string, s: seq<string>)
    requires StrictlySorted(s) && x !in s
    ensures StrictlySorted(Insert(x, s))
  {
    if s != [] {
      if LexLe(x, s[0]) {
        forall j | 0 <= j < |s| ensures LexLess(x, s[j]) {
          if j > 0 { LexLessTransitive(x, s[0], s[j]); }
        }
      } else {
        InsertStrictlySorted(x, s[1..]);
        LexTrichotomy(x, s[0]);
        var r := Insert(x, s[1..]);
        forall j | 0 <= j < |r| ensures LexLess(s[0], r[j]) {
          assert r[j] in multiset(r);
          assert r[j] == x || r[j] in s[1..];
        }
      }
    }
  }

  /** `Array.prototype.sort()` with no comparator: ascending string order, a permutation of the input. */
  function SortLex(s: seq<string>): (r: seq<string>)
    ensures multiset(r) == multiset(s)
    ensures Sorted(r)
  {
    if s == [] then []
    else
      var rest := SortLex(s[1..]);
      assert s == [s[0]] + s[1..];
      InsertSorted(s[0], rest);
      Insert(s[0], rest)
  }

  /** Sorting distinct strings puts them in strictly increasing order. */
  lemma {:induction false} SortLexDistinct(s: seq<string>)
    requires Distinct(s)
    ensures StrictlySorted(SortLex(s))
  {
    if s != [] {
      SortLexDistinct(s[1..]);
      var rest := SortLex(s[1..]);
      assert s[0] !in multiset(s[1..]);
      assert multiset(rest) == multiset(s[1..]);
      assert s[0] !in rest;
      InsertStrictlySorted(s[0], rest);
    }
  }

  /** The monthly table: the month keys in ascending string order, each with its count. */
  function MonthlyTable(s: seq<Crime>): Table {
    MonthlyTableOfKeys(MonthKeys(s))
  }

  /** The monthly table of the given month keys. */
  function MonthlyTableOfKeys(keys: seq<string>): Table {
    var sorted := SortLex(FirstSeen(keys));
    Table(MonthLabels(sorted), CountsOf(sorted, keys))
  }

  /**
   * The counting loop over the month keys, then `Object.keys(monthCount).sort()`, then each sorted
   * key's label and count.
   */
  method MonthlyTrend(keys: seq<string>) returns (t: Table)
    ensures t == MonthlyTableOfKeys(keys)
  {
    var labels, counts := Tally(keys);
    var sorted := SortLex(labels);
    SortedCounts(keys, labels, counts, sorted);
    var values := seq(|sorted|, i requires 0 <= i < |sorted| => counts[sorted[i]]);
    assert values == CountsOf(sorted, keys);
    t := Table(MonthLabels(sorted), values);
  }

  /** `sortedMonths.map(key => ...)`: the label of each key. */
  function MonthLabels(keys: seq<string>): (r: seq<string>)
    ensures |r| == |keys|
    ensures forall i :: 0 <= i < |keys| ==> r[i] == MonthLabel(keys[i])
  {
    seq(|keys|, i requires 0 <= i < |keys| => MonthLabel(keys[i]))
  }

  lemma StrictlySortedDistinct(s: seq<string>)
    requires StrictlySorted(s)
    ensures Distinct(s)
  {
    forall i, j | 0 <= i < j < |s| ensures s[i] != s[j] {
      if s[i] == s[j] { LexLessIrreflexive(s[i]); }
    }
  }

  /** The sorted distinct keys: strictly increasing, and exactly the keys that occur. */
  lemma SortedKeys(keys: seq<string>)
    ensures var sorted := SortLex(FirstSeen(keys));
            && StrictlySorted(sorted)
            && Distinct(sorted)
            && (forall k :: k in sorted <==> k in keys)
  {
    var first := FirstSeen(keys);
    var sorted := SortLex(first);
    FirstSeenIsDistinctKeys(keys);
    SortLexDistinct(first);
    StrictlySortedDistinct(sorted);
    forall k ensures k in sorted <==> k in keys {
      assert k in sorted <==> k in multiset(sorted);
      assert k in first <==> k in multiset(first);
    }
  }

  /** Every sorted label of a counting dictionary is one of its keys and carries its count. */
  lemma SortedCounts(keys: seq<string>, labels: seq<string>, counts: map<string, nat>, sorted: seq<string>)
    requires labels == FirstSeen(keys) && sorted == SortLex(labels)
    requires forall k :: k in counts <==> k in keys
    requires forall k :: k in counts ==> counts[k] == Count(keys, k)
    ensures forall i :: 0 <= i < |sorted| ==> sorted[i] in counts && counts[sorted[i]] == Count(keys, sorted[i])
  {
    SortedKeys(keys);
    forall i | 0 <= i < |sorted| ensures sorted[i] in keys {
      assert sorted[i] in sorted;
    }
  }

  /**
   * The monthly table lists each month key that occurs exactly once, in strictly increasing string
   * order (not calendar order), with its count, at least one; the counts add up to the number of records.
   */
  lemma MonthlyTableIsExact(s: seq<Crime>)
    ensures var keys, t := MonthKeys(s), MonthlyTable(s);
            var sorted := SortLex(FirstSeen(keys));
            && |t.labels| == |t.values| == |sorted|
            && StrictlySorted(sorted)
            && (forall k :: k in sorted <==> k in keys)
            && (forall i :: 0 <= i < |sorted| ==> t.labels[i] == MonthLabel(sorted[i]))
            && (forall i :: 0 <= i < |sorted| ==> t.values[i] == Count(keys, sorted[i]) >= 1)
            && Sum(t.values) == |s|
  {
    var keys := MonthKeys(s);
    var sorted := SortLex(FirstSeen(keys));
    SortedKeys(keys);
    forall i | 0 <= i < |sorted| ensures Count(keys, sorted[i]) >= 1 {
      CountPositiveIffPresent(keys, sorted[i]);
    }
    SumOfCounts(sorted, keys);
  }

  lemma YearPrinted()
    ensures NatToString(2024) == "2024"
  {
    assert NatToString(2) == "2";
    assert NatToString(20) == "20";
    assert NatToString(202) == "202";
  }

  lemma KeyOfDate(date: string, month: string, m0: nat)
    requires |date| >= 7 && date[..4] == "2024" && date[4] == '-' && date[5..7] == month
    requires 1 <= m0 + 1 <= 12 && DigitsValue(month) == Some(m0 + 1)
    ensures MonthKey(date) == "2024-" + NatToString(m0)
  {
    YearPrinted();
    NatToStringRoundTrip(2024);
  }

  /** Because the month is unpadded, November's key ("2024-10") sorts before March's ("2024-2"). */
  lemma UnpaddedMonthsSortLexically(november: string, march: string)
    requires november == "2024-11-01T00:00" && march == "2024-03-01T00:00"
    ensures MonthKey(november) == "2024-10"
    ensures MonthKey(march) == "2024-2"
    ensures LexLess(MonthKey(november), MonthKey(march))
  {
    UnpaddedKeysOrder();
    UnpaddedDates();
    DateKey(november, "11", "-01T00:00", 10, "2024-10");
    DateKey(march, "03", "-01T00:00", 2, "2024-2");
  }

  /** The key of a 2024 date whose two-digit month field is `month`, with zero-based month number `m0`. */
  lemma DateKey(date: string, month: string, rest: string, m0: nat, key: string)
    requires date == "2024-" + month + rest && |month| == 2
    requires 1 <= m0 + 1 <= 12 && DigitsValue(month) == Some(m0 + 1)
    requires key == "2024-" + NatToString(m0)
    ensures MonthKey(date) == key
  {
    assert date[..4] == "2024" && date[4] == '-' && date[5..7] == month;
    KeyOfDate(date, month, m0);
  }

  /** The two dates, split into year, month field and the rest. */
  lemma UnpaddedDates()
    ensures "2024-11-01T00:00" == "2024-" + "11" + "-01T00:00"
    ensures "2024-03-01T00:00" == "2024-" + "03" + "-01T00:00"
  {
  }

  /** The two unpadded keys, spelled out, in string order. */
  lemma UnpaddedKeysOrder()
    ensures DigitsValue("11") == Some(11) && DigitsValue("03") == Some(3)
    ensures "2024-10" == "2024-" + NatToString(10) && "2024-2" == "2024-" + NatToString(2)
    ensures LexLess("2024-10", "2024-2")
  {
    assert NatToString(10) == "10";
    assert LexLess("10", "2");
    LexLeCommonPrefix("2024-", "10", "2");
    assert |"2024-" + "10"| != |"2024-" + "2"|;
  }
}
