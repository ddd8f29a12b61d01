/**
 * The eight sample records the store starts with, and what the statistics and the charts show
 * for them. Each scenario is assembled from small facts: the field values the sample records
 * carry, then what the counting, area and month functions give on those values.
 */
module Sample {
  import opened Wrappers
  import opened Strings
  import opened Records
  import opened Aggregation
  import opened Views

  // ---------------------------------------------------------------- the sample's field values

  lemma SampleStatuses()
    ensures StatusKeys(SampleData()) ==
            ["Under Investigation", "Solved", "Open", "Closed", "Under Investigation", "Open", "Solved", "Under Investigation"]
  {
  }

  lemma SampleTypes()
    ensures TypeKeys(SampleData()) == ["Theft", "Assault", "Burglary", "Vandalism", "Fraud", "Theft", "Assault", "Burglary"]
  {
  }

  lemma SampleLocations()
    ensures var s := SampleData();
            && |s| == 8
            && s[0].data.location == "123 Main Street, Downtown"
            && s[1].data.location == "456 Park Avenue, Midtown"
            && s[2].data.location == "789 Oak Street, Uptown"
            && s[3].data.location == "321 Library Lane, Downtown"
            && s[4].data.location == "Online Transaction"
            && s[5].data.location == "555 Broadway, Downtown"
            && s[6].data.location == "Grand Central Terminal, Midtown"
            && s[7].data.location == "1234 Riverside Drive, Uptown"
  {
  }

  lemma SampleDates()
    ensures var s := SampleData();
            && |s| == 8
            && s[0].data.date == "2024-01-15T14:30:00"
            && s[1].data.date == "2024-01-20T22:15:00"
            && s[2].data.date == "2024-01-25T03:45:00"
            && s[3].data.date == "2024-02-01T19:20:00"
            && s[4].data.date == "2024-02-05T11:30:00"
            && s[5].data.date == "2024-02-10T08:15:00"
            && s[6].data.date == "2024-02-12T16:45:00"
            && s[7].data.date == "2024-02-15T02:30:00"
  {
  }

  // ---------------------------------------------------------------- statistics

  lemma SampleStatusCounts()
    ensures var keys := ["Under Investigation", "Solved", "Open", "Closed", "Under Investigation", "Open", "Solved", "Under Investigation"];
            Count(keys, "Open") == 2 && Count(keys, "Solved") == 2
  {
    var keys := ["Under Investigation", "Solved", "Open", "Closed", "Under Investigation", "Open", "Solved", "Under Investigation"];
    CountIsMultiplicity(keys, "Open");
    CountIsMultiplicity(keys, "Solved");
  }

  /** The sample shows 8 records, 2 open cases and 2 solved cases. */
  lemma SampleStatistics()
    ensures Statistics(SampleData()) == Stats(8, 2, 2)
  {
    SampleStatuses();
    SampleStatusCounts();
  }

  // ---------------------------------------------------------------- types

  lemma SampleTypeLabels()
    ensures FirstSeen(["Theft", "Assault", "Burglary", "Vandalism", "Fraud", "Theft", "Assault", "Burglary"]) ==
            ["Theft", "Assault", "Burglary", "Vandalism", "Fraud"]
  {
    var d := ["Theft", "Assault", "Burglary", "Vandalism", "Fraud"];
    FirstSeenOfDistinct(d);
    FirstSeenOfRepeats(d, ["Theft", "Assault", "Burglary"]);
    assert d + ["Theft", "Assault", "Burglary"] == ["Theft", "Assault", "Burglary", "Vandalism", "Fraud", "Theft", "Assault", "Burglary"];
  }

  lemma SampleTypeCounts()
    ensures var keys := ["Theft", "Assault", "Burglary", "Vandalism", "Fraud", "Theft", "Assault", "Burglary"];
            && Count(keys, "Theft") == 2 && Count(keys, "Assault") == 2 && Count(keys, "Burglary") == 2
            && Count(keys, "Vandalism") == 1 && Count(keys, "Fraud") == 1
  {
    var keys := ["Theft", "Assault", "Burglary", "Vandalism", "Fraud", "Theft", "Assault", "Burglary"];
    CountIsMultiplicity(keys, "Theft");
    CountIsMultiplicity(keys, "Assault");
    CountIsMultiplicity(keys, "Burglary");
    CountIsMultiplicity(keys, "Vandalism");
    CountIsMultiplicity(keys, "Fraud");
  }

  lemma TypeValues(keys: seq<string>, labels: seq<string>)
    requires labels == ["Theft", "Assault", "Burglary", "Vandalism", "Fraud"]
    requires && Count(keys, "Theft") == 2 && Count(keys, "Assault") == 2 && Count(keys, "Burglary") == 2
             && Count(keys, "Vandalism") == 1 && Count(keys, "Fraud") == 1
    ensures CountsOf(labels, keys) == [2, 2, 2, 1, 1]
  {
  }

  /** The type chart of the sample: Theft 2, Assault 2, Burglary 2, Vandalism 1, Fraud 1. */
  lemma SampleTypeTable()
    ensures CountTable(TypeKeys(SampleData())) ==
            Table(["Theft", "Assault", "Burglary", "Vandalism", "Fraud"], [2, 2, 2, 1, 1])
  {
    SampleTypes();
    SampleTypeLabels();
    SampleTypeCounts();
    TypeValues(["Theft", "Assault", "Burglary", "Vandalism", "Fraud", "Theft", "Assault", "Burglary"],
               ["Theft", "Assault", "Burglary", "Vandalism", "Fraud"]);
  }

  // ---------------------------------------------------------------- areas

  lemma Sample1HasDowntown()
    ensures Contains("123 Main Street, Downtown", "Downtown")
  {
    ContainsAt("123 Main Street, Downtown", "Downtown", 17);
  }

  lemma SampleArea1()
    ensures Area("123 Main Street, Downtown") == "Downtown"
  {
    Sample1HasDowntown();
    AreaRule("123 Main Street, Downtown");
  }

  lemma Sample2LacksDowntown()
    ensures !Contains("456 Park Avenue, Midtown", "Downtown")
  {
    NotContainsByPair("456 Park Avenue, Midtown", "Downtown");
  }

  lemma Sample2HasMidtown()
    ensures Contains("456 Park Avenue, Midtown", "Midtown")
  {
    ContainsAt("456 Park Avenue, Midtown", "Midtown", 17);
  }

  lemma SampleArea2()
    ensures Area("456 Park Avenue, Midtown") == "Midtown"
  {
    Sample2LacksDowntown();
    Sample2HasMidtown();
    AreaRule("456 Park Avenue, Midtown");
  }

  lemma Sample3LacksDowntown()
    ensures !Contains("789 Oak Street, Uptown", "Downtown")
  {
    NotContainsByPair("789 Oak Street, Uptown", "Downtown");
  }

  lemma Sample3LacksMidtown()
    ensures !Contains("789 Oak Street, Uptown", "Midtown")
  {
    NotContainsByPair("789 Oak Street, Uptown", "Midtown");
  }

  lemma Sample3HasUptown()
    ensures Contains("789 Oak Street, Uptown", "Uptown")
  {
    ContainsAt("789 Oak Street, Uptown", "Uptown", 16);
  }

  lemma SampleArea3()
    ensures Area("789 Oak Street, Uptown") == "Uptown"
  {
    Sample3LacksDowntown();
    Sample3LacksMidtown();
    Sample3HasUptown();
    AreaRule("789 Oak Street, Uptown");
  }

  lemma Sample4HasDowntown()
    ensures Contains("321 Library Lane, Downtown", "Downtown")
  {
    ContainsAt("321 Library Lane, Downtown", "Downtown", 18);
  }

  lemma SampleArea4()
    ensures Area("321 Library Lane, Downtown") == "Downtown"
  {
    Sample4HasDowntown();
    AreaRule("321 Library Lane, Downtown");
  }

  lemma Sample5LacksDowntown()
    ensures !Contains("Online Transaction", "Downtown")
  {
    NotContainsByPair("Online Transaction", "Downtown");
  }

  lemma Sample5LacksMidtown()
    ensures !Contains("Online Transaction", "Midtown")
  {
    NotContainsByPair("Online Transaction", "Midtown");
  }

  lemma Sample5LacksUptown()
    ensures !Contains("Online Transaction", "Uptown")
  {
    NotContainsByPair("Online Transaction", "Uptown");
  }

  lemma Sample5HasOnline()
    ensures Contains("Online Transaction", "Online")
  {
    ContainsAt("Online Transaction", "Online", 0);
  }

  lemma SampleArea5()
    ensures Area("Online Transaction") == "Online"
  {
    Sample5LacksDowntown();
    Sample5LacksMidtown();
    Sample5LacksUptown();
    Sample5HasOnline();
    AreaRule("Online Transaction");
  }

  lemma Sample6HasDowntown()
    ensures Contains("555 Broadway, Downtown", "Downtown")
  {
    ContainsAt("555 Broadway, Downtown", "Downtown", 14);
  }

  lemma SampleArea6()
    ensures Area("555 Broadway, Downtown") == "Downtown"
  {
    Sample6HasDowntown();
    AreaRule("555 Broadway, Downtown");
  }

  lemma Sample7LacksDowntown()
    ensures !Contains("Grand Central Terminal, Midtown", "Downtown")
  {
    NotContainsByPair("Grand Central Terminal, Midtown", "Downtown");
  }

  lemma Sample7HasMidtown()
    ensures Contains("Grand Central Terminal, Midtown", "Midtown")
  {
    ContainsAt("Grand Central Terminal, Midtown", "Midtown", 24);
  }

  lemma SampleArea7()
    ensures Area("Grand Central Terminal, Midtown") == "Midtown"
  {
    Sample7LacksDowntown();
    Sample7HasMidtown();
    AreaRule("Grand Central Terminal, Midtown");
  }

  lemma Sample8LacksDowntown()
    ensures !Contains("1234 Riverside Drive, Uptown", "Downtown")
  {
    NotContainsByPair("1234 Riverside Drive, Uptown", "Downtown");
  }

  lemma Sample8LacksMidtown()
    ensures !Contains("1234 Riverside Drive, Uptown", "Midtown")
  {
    NotContainsByPair("1234 Riverside Drive, Uptown", "Midtown");
  }

  lemma Sample8HasUptown()
    ensures Contains("1234 Riverside Drive, Uptown", "Uptown")
  {
    ContainsAt("1234 Riverside Drive, Uptown", "Uptown", 22);
  }

  lemma SampleArea8()
    ensures Area("1234 Riverside Drive, Uptown") == "Uptown"
  {
    Sample8LacksDowntown();
    Sample8LacksMidtown();
    Sample8HasUptown();
    AreaRule("1234 Riverside Drive, Uptown");
  }

  /** The area key at one index is the area of that record's location. */
  lemma AreaAt(s: seq<Crime>, i: nat, location: string, area: string)
    requires i < |s| && s[i].data.location == location && Area(location) == area
    ensures AreaKeys(s)[i] == area
  {
  }

  /** Eight keys that name the sample areas index by index are the sample area list. */
  lemma SampleAreaList(k: seq<string>)
    requires |k| == 8
    requires k[0] == "Downtown" && k[1] == "Midtown" && k[2] == "Uptown" && k[3] == "Downtown"
    requires k[4] == "Online" && k[5] == "Downtown" && k[6] == "Midtown" && k[7] == "Uptown"
    ensures k == ["Downtown", "Midtown", "Uptown", "Downtown", "Online", "Downtown", "Midtown", "Uptown"]
  {
  }

  lemma AreasOfSampleLocations(s: seq<Crime>)
    requires && |s| == 8
             && s[0].data.location == "123 Main Street, Downtown"
             && s[1].data.location == "456 Park Avenue, Midtown"
             && s[2].data.location == "789 Oak Street, Uptown"
             && s[3].data.location == "321 Library Lane, Downtown"
             && s[4].data.location == "Online Transaction"
             && s[5].data.location == "555 Broadway, Downtown"
             && s[6].data.location == "Grand Central Terminal, Midtown"
             && s[7].data.location == "1234 Riverside Drive, Uptown"
    ensures AreaKeys(s) == ["Downtown", "Midtown", "Uptown", "Downtown", "Online", "Downtown", "Midtown", "Uptown"]
  {
    SampleArea1();
    AreaAt(s, 0, "123 Main Street, Downtown", "Downtown");
    SampleArea2();
    AreaAt(s, 1, "456 Park Avenue, Midtown", "Midtown");
    SampleArea3();
    AreaAt(s, 2, "789 Oak Street, Uptown", "Uptown");
    SampleArea4();
    AreaAt(s, 3, "321 Library Lane, Downtown", "Downtown");
    SampleArea5();
    AreaAt(s, 4, "Online Transaction", "Online");
    SampleArea6();
    AreaAt(s, 5, "555 Broadway, Downtown", "Downtown");
    SampleArea7();
    AreaAt(s, 6, "Grand Central Terminal, Midtown", "Midtown");
    SampleArea8();
    AreaAt(s, 7, "1234 Riverside Drive, Uptown", "Uptown");
    SampleAreaList(AreaKeys(s));
  }

  lemma SampleAreas()
    ensures AreaKeys(SampleData()) == ["Downtown", "Midtown", "Uptown", "Downtown", "Online", "Downtown", "Midtown", "Uptown"]
  {
    SampleLocations();
    AreasOfSampleLocations(SampleData());
  }

  lemma SampleAreaLabelsFirstFive()
    ensures FirstSeen(["Downtown", "Midtown", "Uptown", "Downtown", "Online"]) == ["Downtown", "Midtown", "Uptown", "Online"]
  {
    var d := ["Downtown", "Midtown", "Uptown"];
    FirstSeenOfDistinct(d);
    FirstSeenOfRepeats(d, ["Downtown"]);
    FirstSeenSnoc(d + ["Downtown"], "Online");
    assert d + ["Downtown"] + ["Online"] == ["Downtown", "Midtown", "Uptown", "Downtown", "Online"];
  }

  lemma SampleAreaLabels()
    ensures FirstSeen(["Downtown", "Midtown", "Uptown", "Downtown", "Online", "Downtown", "Midtown", "Uptown"]) ==
            ["Downtown", "Midtown", "Uptown", "Online"]
  {
    var e := ["Downtown", "Midtown", "Uptown", "Downtown", "Online"];
    SampleAreaLabelsFirstFive();
    FirstSeenOfRepeats(e, ["Downtown", "Midtown", "Uptown"]);
    assert e + ["Downtown", "Midtown", "Uptown"] ==
           ["Downtown", "Midtown", "Uptown", "Downtown", "Online", "Downtown", "Midtown", "Uptown"];
  }

  lemma SampleAreaCounts()
    ensures var keys := ["Downtown", "Midtown", "Uptown", "Downtown", "Online", "Downtown", "Midtown", "Uptown"];
            && Count(keys, "Downtown") == 3 && Count(keys, "Midtown") == 2
            && Count(keys, "Uptown") == 2 && Count(keys, "Online") == 1
  {
    var keys := ["Downtown", "Midtown", "Uptown", "Downtown", "Online", "Downtown", "Midtown", "Uptown"];
    CountIsMultiplicity(keys, "Downtown");
    CountIsMultiplicity(keys, "Midtown");
    CountIsMultiplicity(keys, "Uptown");
    CountIsMultiplicity(keys, "Online");
  }

  lemma AreaValues(keys: seq<string>, labels: seq<string>)
    requires labels == ["Downtown", "Midtown", "Uptown", "Online"]
    requires && Count(keys, "Downtown") == 3 && Count(keys, "Midtown") == 2
             && Count(keys, "Uptown") == 2 && Count(keys, "Online") == 1
    ensures CountsOf(labels, keys) == [3, 2, 2, 1]
  {
  }

  /** The area chart of the sample: Downtown 3, Midtown 2, Uptown 2, Online 1. */
  lemma SampleAreaTable()
    ensures CountTable(AreaKeys(SampleData())) == Table(["Downtown", "Midtown", "Uptown", "Online"], [3, 2, 2, 1])
  {
    SampleAreas();
    SampleAreaLabels();
    SampleAreaCounts();
    AreaValues(["Downtown", "Midtown", "Uptown", "Downtown", "Online", "Downtown", "Midtown", "Uptown"],
               ["Downtown", "Midtown", "Uptown", "Online"]);
  }

  // ---------------------------------------------------------------- months

  lemma JanuaryKey(date: string)
    requires |date| >= 7 && date[..7] == "2024-01"
    ensures MonthKey(date) == "2024-0"
  {
    assert DigitsValue("01") == Some(1);
    assert date[..4] == "2024" && date[4] == '-' && date[5..7] == "01" by {
      assert date[..4] == date[..7][..4] && date[5..7] == date[..7][5..7];
    }
    KeyOfDate(date, "01", 0);
  }

  lemma FebruaryKey(date: string)
    requires |date| >= 7 && date[..7] == "2024-02"
    ensures MonthKey(date) == "2024-1"
  {
    assert DigitsValue("02") == Some(2);
    assert date[..4] == "2024" && date[4] == '-' && date[5..7] == "02" by {
      assert date[..4] == date[..7][..4] && date[5..7] == date[..7][5..7];
    }
    KeyOfDate(date, "02", 1);
  }

  /** The month key at one index is the month key of that record's date. */
  lemma MonthKeyAt(s: seq<Crime>, i: nat, date: string, key: string)
    requires i < |s| && s[i].data.date == date && MonthKey(date) == key
    ensures MonthKeys(s)[i] == key
  {
  }

  lemma SampleMonthList(k: seq<string>)
    requires |k| == 8
    requires k[0] == "2024-0" && k[1] == "2024-0" && k[2] == "2024-0" && k[3] == "2024-1"
    requires k[4] == "2024-1" && k[5] == "2024-1" && k[6] == "2024-1" && k[7] == "2024-1"
    ensures k == ["2024-0", "2024-0", "2024-0", "2024-1", "2024-1", "2024-1", "2024-1", "2024-1"]
  {
  }

  lemma SampleMonthKey1()
    ensures MonthKey("2024-01-15T14:30:00") == "2024-0"
  {
    JanuaryKey("2024-01-15T14:30:00");
  }

  lemma SampleMonthKey2()
    ensures MonthKey("2024-01-20T22:15:00") == "2024-0"
  {
    JanuaryKey("2024-01-20T22:15:00");
  }

  lemma SampleMonthKey3()
    ensures MonthKey("2024-01-25T03:45:00") == "2024-0"
  {
    JanuaryKey("2024-01-25T03:45:00");
  }

  lemma SampleMonthKey4()
    ensures MonthKey("2024-02-01T19:20:00") == "2024-1"
  {
    FebruaryKey("2024-02-01T19:20:00");
  }

  lemma SampleMonthKey5()
    ensures MonthKey("2024-02-05T11:30:00") == "2024-1"
  {
    FebruaryKey("2024-02-05T11:30:00");
  }

  lemma SampleMonthKey6()
    ensures MonthKey("2024-02-10T08:15:00") == "2024-1"
  {
    FebruaryKey("2024-02-10T08:15:00");
  }

  lemma SampleMonthKey7()
    ensures MonthKey("2024-02-12T16:45:00") == "2024-1"
  {
    FebruaryKey("2024-02-12T16:45:00");
  }

  lemma SampleMonthKey8()
    ensures MonthKey("2024-02-15T02:30:00") == "2024-1"
  {
    FebruaryKey("2024-02-15T02:30:00");
  }

  lemma MonthsOfSampleDates(s: seq<Crime>)
    requires && |s| == 8
             && s[0].data.date == "2024-01-15T14:30:00"
             && s[1].data.date == "2024-01-20T22:15:00"
             && s[2].data.date == "2024-01-25T03:45:00"
             && s[3].data.date == "2024-02-01T19:20:00"
             && s[4].data.date == "2024-02-05T11:30:00"
             && s[5].data.date == "2024-02-10T08:15:00"
             && s[6].data.date == "2024-02-12T16:45:00"
             && s[7].data.date == "2024-02-15T02:30:00"
    ensures MonthKeys(s) == ["2024-0", "2024-0", "2024-0", "2024-1", "2024-1", "2024-1", "2024-1", "2024-1"]
  {
    SampleMonthKey1();
    MonthKeyAt(s, 0, "2024-01-15T14:30:00", "2024-0");
    SampleMonthKey2();
    MonthKeyAt(s, 1, "2024-01-20T22:15:00", "2024-0");
    SampleMonthKey3();
    MonthKeyAt(s, 2, "2024-01-25T03:45:00", "2024-0");
    SampleMonthKey4();
    MonthKeyAt(s, 3, "2024-02-01T19:20:00", "2024-1");
    SampleMonthKey5();
    MonthKeyAt(s, 4, "2024-02-05T11:30:00", "2024-1");
    SampleMonthKey6();
    MonthKeyAt(s, 5, "2024-02-10T08:15:00", "2024-1");
    SampleMonthKey7();
    MonthKeyAt(s, 6, "2024-02-12T16:45:00", "2024-1");
    SampleMonthKey8();
    MonthKeyAt(s, 7, "2024-02-15T02:30:00", "2024-1");
    SampleMonthList(MonthKeys(s));
  }

  lemma SampleMonthKeys()
    ensures MonthKeys(SampleData()) == ["2024-0", "2024-0", "2024-0", "2024-1", "2024-1", "2024-1", "2024-1", "2024-1"]
  {
    SampleDates();
    MonthsOfSampleDates(SampleData());
  }

  lemma SampleMonthLabelsFirstFour()
    ensures FirstSeen(["2024-0", "2024-0", "2024-0", "2024-1"]) == ["2024-0", "2024-1"]
  {
    var jan := ["2024-0"];
    FirstSeenOfDistinct(jan);
    FirstSeenOfRepeats(jan, ["2024-0", "2024-0"]);
    FirstSeenSnoc(jan + ["2024-0", "2024-0"], "2024-1");
    assert jan + ["2024-0", "2024-0"] + ["2024-1"] == ["2024-0", "2024-0", "2024-0", "2024-1"];
  }

  lemma SampleMonthLabels()
    ensures FirstSeen(["2024-0", "2024-0", "2024-0", "2024-1", "2024-1", "2024-1", "2024-1", "2024-1"]) == ["2024-0", "2024-1"]
  {
    var e := ["2024-0", "2024-0", "2024-0", "2024-1"];
    SampleMonthLabelsFirstFour();
    FirstSeenOfRepeats(e, ["2024-1", "2024-1", "2024-1", "2024-1"]);
    assert e + ["2024-1", "2024-1", "2024-1", "2024-1"] ==
           ["2024-0", "2024-0", "2024-0", "2024-1", "2024-1", "2024-1", "2024-1", "2024-1"];
  }

  /** Two keys already in order are left as they are. */
  lemma SortTwo(a: string, b: string)
    requires LexLe(a, b)
    ensures SortLex([a, b]) == [a, b]
  {
    assert [a, b][1..] == [b];
  }

  lemma SampleMonthOrder()
    ensures SortLex(["2024-0", "2024-1"]) == ["2024-0", "2024-1"]
  {
    assert LexLe("0", "1");
    LexLeCommonPrefix("2024-", "0", "1");
    SortTwo("2024-0", "2024-1");
  }

  /** A one-digit month number names its month. */
  lemma MonthNameOfDigit(month: string, ch: char, m0: nat)
    requires month == [ch] && IsDigit(ch) && m0 == ch as int - '0' as int
    ensures MonthName(month) == MonthNames[m0]
  {
  }

  /** A key joined from a year and a one-digit month number is labelled with that month and year. */
  lemma OneDigitMonthLabel(key: string, year: string, month: string, ch: char, m0: nat)
    requires '-' !in year && month == [ch] && IsDigit(ch) && m0 == ch as int - '0' as int && m0 < 12
    requires key == year + "-" + month
    ensures MonthLabel(key) == MonthNames[m0] + " " + year
  {
    MonthNameOfDigit(month, ch, m0);
    MonthLabelOfJoin(year, month);
  }

  /** The key of a sample month, split into the year 2024 and a one-digit month number. */
  lemma SampleMonthKeyLabel(key: string, year: string, ch: char, m0: nat)
    requires year == "2024" && key == year + "-" + [ch]
    requires IsDigit(ch) && m0 == ch as int - '0' as int && m0 < 12
    ensures MonthLabel(key) == MonthNames[m0] + " " + year
  {
    OneDigitMonthLabel(key, year, [ch], ch, m0);
  }

  /** The labels of the two sample months, spelled out. */
  lemma SampleMonthTexts()
    ensures MonthNames[0] + " " + "2024" == "Jan 2024"
    ensures MonthNames[1] + " " + "2024" == "Feb 2024"
  {
  }

  lemma SampleJanuaryLabel(key: string)
    requires key == "2024-0"
    ensures MonthLabel(key) == "Jan 2024"
  {
    SampleMonthKeyLabel(key, "2024", '0', 0);
    SampleMonthTexts();
  }

  lemma SampleFebruaryLabel(key: string)
    requires key == "2024-1"
    ensures MonthLabel(key) == "Feb 2024"
  {
    SampleMonthKeyLabel(key, "2024", '1', 1);
    SampleMonthTexts();
  }

  /** A monthly table of two months is read off the two sorted keys, their labels and their counts. */
  lemma MonthlyTableOfTwo(keys: seq<string>, k0: string, k1: string, l0: string, l1: string, v0: nat, v1: nat)
    requires SortLex(FirstSeen(keys)) == [k0, k1]
    requires MonthLabel(k0) == l0 && MonthLabel(k1) == l1
    requires Count(keys, k0) == v0 && Count(keys, k1) == v1
    ensures MonthlyTableOfKeys(keys) == Table([l0, l1], [v0, v1])
  {
    PairLabels(k0, k1);
    PairCounts(keys, k0, k1);
  }

  lemma PairLabels(k0: string, k1: string)
    ensures MonthLabels([k0, k1]) == [MonthLabel(k0), MonthLabel(k1)]
  {
    var labels := MonthLabels([k0, k1]);
    assert |labels| == 2 && labels[0] == MonthLabel(k0) && labels[1] == MonthLabel(k1);
  }

  lemma PairCounts(keys: seq<string>, k0: string, k1: string)
    ensures CountsOf([k0, k1], keys) == [Count(keys, k0), Count(keys, k1)]
  {
    var values := CountsOf([k0, k1], keys);
    assert |values| == 2 && values[0] == Count(keys, k0) && values[1] == Count(keys, k1);
  }

  lemma SampleMonthSorted(keys: seq<string>)
    requires keys == ["2024-0", "2024-0", "2024-0", "2024-1", "2024-1", "2024-1", "2024-1", "2024-1"]
    ensures SortLex(FirstSeen(keys)) == ["2024-0", "2024-1"]
    ensures Count(keys, "2024-0") == 3 && Count(keys, "2024-1") == 5
  {
    SampleMonthLabels();
    SampleMonthOrder();
    SampleMonthCounts();
  }

  lemma SampleMonthCounts()
    ensures var keys := ["2024-0", "2024-0", "2024-0", "2024-1", "2024-1", "2024-1", "2024-1", "2024-1"];
            Count(keys, "2024-0") == 3 && Count(keys, "2024-1") == 5
  {
    var keys := ["2024-0", "2024-0", "2024-0", "2024-1", "2024-1", "2024-1", "2024-1", "2024-1"];
    CountIsMultiplicity(keys, "2024-0");
    CountIsMultiplicity(keys, "2024-1");
  }

  /** The monthly trend of the sample: 3 records in Jan 2024, then 5 in Feb 2024. */
  lemma SampleMonthlyTable()
    ensures MonthlyTable(SampleData()) == Table(["Jan 2024", "Feb 2024"], [3, 5])
  {
    var keys := MonthKeys(SampleData());
    SampleMonthKeys();
    SampleMonthSorted(keys);
    SampleJanuaryLabel("2024-0");
    SampleFebruaryLabel("2024-1");
    MonthlyTableOfTwo(keys, "2024-0", "2024-1", "Jan 2024", "Feb 2024", 3, 5);
  }
}
