/**
 * One incident record of the crime store, as `CrimeManagementSystem` keeps it in `this.crimes`.
 */
module Records {
  import opened Wrappers

  /**
   * A record id. New records get `Date.now()`, imported ones keep whatever number they carry.
   */
  type Id = int

  /**
   * The fields a record carries besides its id: the `crimeData` object built from the form.
   * `type` is a reserved word here, so the record's type is the field `crimeType`.
   * The coordinates are `None` where the source stores `null`.
   */
  datatype CrimeData = CrimeData(
    title: string,
    crimeType: string,
    date: string,
    status: string,
    location: string,
    latitude: Option<real>,
    longitude: Option<real>,
    description: string,
    victimName: string,
    suspectName: string,
    officerName: string,
    caseNumber: string)

  datatype Crime = Crime(id: Id, data: CrimeData)

  /** JavaScript truthiness of an optional id (`null` and `0` are false). */
  predicate IsTruthyId(id: Option<Id>) {
    id.Some? && id.value != 0
  }

  /** JavaScript truthiness of an optional coordinate (`null` and `0` are false). */
  predicate IsTruthyCoordinate(x: Option<real>) {
    x.Some? && x.value != 0.0
  }

  /** The eight records the store starts with when nothing was saved before. */
  function SampleData(): seq<Crime> {
    [SampleRecord1(), SampleRecord2(), SampleRecord3(), SampleRecord4(),
     SampleRecord5(), SampleRecord6(), SampleRecord7(), SampleRecord8()]
  }

  function SampleRecord1(): Crime {
    Crime(1, CrimeData(
      title := "Armed Robbery at Central Bank",
      crimeType := "Theft",
      date := "2024-01-15T14:30:00",
      status := "Under Investigation",
      location := "123 Main Street, Downtown",
      latitude := Some(40.7128),
      longitude := Some(-74.0060),
      description := SampleDescription1,
      victimName := "Central Bank",
      suspectName := "Unknown",
      officerName := "Detective Johnson",
      caseNumber := "CR-2024-001"))
  }

  function SampleRecord2(): Crime {
    Crime(2, CrimeData(
      title := "Assault at Park Avenue",
      crimeType := "Assault",
      date := "2024-01-20T22:15:00",
      status := "Solved",
      location := "456 Park Avenue, Midtown",
      latitude := Some(40.7589),
      longitude := Some(-73.9851),
      description := SampleDescription2,
      victimName := "John Smith",
      suspectName := "Mike Johnson",
      officerName := "Officer Davis",
      caseNumber := "CR-2024-002"))
  }

  function SampleRecord3(): Crime {
    Crime(3, CrimeData(
      title := "Burglary at Residential Complex",
      crimeType := "Burglary",
      date := "2024-01-25T03:45:00",
      status := "Open",
      location := "789 Oak Street, Uptown",
      latitude := Some(40.7505),
      longitude := Some(-73.9934),
      description := SampleDescription3,
      victimName := "Multiple Residents",
      suspectName := "Unknown",
      officerName := "Detective Wilson",
      caseNumber := "CR-2024-003"))
  }

  function SampleRecord4(): Crime {
    Crime(4, CrimeData(
      title := "Vandalism at Public Library",
      crimeType := "Vandalism",
      date := "2024-02-01T19:20:00",
      status := "Closed",
      location := "321 Library Lane, Downtown",
      latitude := Some(40.7142),
      longitude := Some(-74.0064),
      description := SampleDescription4,
      victimName := "Public Library",
      suspectName := "Teenage Group",
      officerName := "Officer Brown",
      caseNumber := "CR-2024-004"))
  }

  function SampleRecord5(): Crime {
    Crime(5, CrimeData(
      title := "Credit Card Fraud",
      crimeType := "Fraud",
      date := "2024-02-05T11:30:00",
      status := "Under Investigation",
      location := "Online Transaction",
      latitude := Some(40.7128),
      longitude := Some(-74.0060),
      description := SampleDescription5,
      victimName := "Sarah Johnson",
      suspectName := "Unknown",
      officerName := "Detective Martinez",
      caseNumber := "CR-2024-005"))
  }

  function SampleRecord6(): Crime {
    Crime(6, CrimeData(
      title := "Vehicle Theft in Downtown",
      crimeType := "Theft",
      date := "2024-02-10T08:15:00",
      status := "Open",
      location := "555 Broadway, Downtown",
      latitude := Some(40.7589),
      longitude := Some(-73.9851),
      description := SampleDescription6,
      victimName := "Robert Chen",
      suspectName := "Unknown",
      officerName := "Officer Garcia",
      caseNumber := "CR-2024-006"))
  }

  function SampleRecord7(): Crime {
    Crime(7, CrimeData(
      title := "Assault at Midtown Station",
      crimeType := "Assault",
      date := "2024-02-12T16:45:00",
      status := "Solved",
      location := "Grand Central Terminal, Midtown",
      latitude := Some(40.7527),
      longitude := Some(-73.9772),
      description := SampleDescription7,
      victimName := "Lisa Thompson",
      suspectName := "David Wilson",
      officerName := "Transit Officer Lee",
      caseNumber := "CR-2024-007"))
  }

  function SampleRecord8(): Crime {
    Crime(8, CrimeData(
      title := "Burglary at Uptown Residence",
      crimeType := "Burglary",
      date := "2024-02-15T02:30:00",
      status := "Under Investigation",
      location := "1234 Riverside Drive, Uptown",
      latitude := Some(40.7829),
      longitude := Some(-73.9654),
      description := SampleDescription8,
      victimName := "Maria Rodriguez",
      suspectName := "Unknown",
      officerName := "Detective Anderson",
      caseNumber := "CR-2024-008"))
  }

  // The free-text descriptions of the sample records.

  const SampleDescription1: string :=
    "Armed suspect entered the bank and demanded money from tellers. Suspect fled with approximately $50,000."

  const SampleDescription2: string :=
    "Physical altercation between two individuals resulted in minor injuries. Suspect apprehended."

  const SampleDescription3: string :=
    "Multiple apartments broken into during early morning hours. Electronics and jewelry stolen."

  const SampleDescription4: string :=
    "Graffiti found on library walls and books damaged. Security cameras captured suspect."

  const SampleDescription5: string :=
    "Multiple unauthorized transactions detected on victim's credit card. Suspected data breach."

  const SampleDescription6: string :=
    "Luxury vehicle stolen from parking garage. Security footage shows suspect."

  const SampleDescription7: string :=
    "Physical altercation between commuters. Suspect apprehended by transit police."

  const SampleDescription8: string :=
    "Home invasion while residents were away. Electronics and jewelry stolen."
}
