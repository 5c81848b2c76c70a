/**
 * The situations exercised by ureport/contacts/tests.py, replayed on the
 * model: the Nigeria org's configuration, fields and boundaries, the remote
 * contacts of the mapping tests, the reporters counter and the contact pull.
 *
 * The mapping scenarios are stated over any field table in which the
 * configured labels carry the contact's values; the `...Value` lemmas show
 * that the Nigeria field table routes each title to the key the tests use.
 */
module Scenarios {
  import opened Wrappers
  import opened Tables
  import opened Text
  import opened Mapper
  import opened Counters
  import opened Contacts
  import opened Tasks

  const Nigeria: OrgId := 1

  function NigeriaConfig(): OrgConfig
  {
    OrgConfig("Registration Date", "State", "LGA", "Ward", "Activité", "Born", "Gender", "Female", "Male")
  }

  function NigeriaFields(): seq<ContactField>
  {
    [ ContactField(1, Nigeria, "registration_date", "Registration Date", "T"),
      ContactField(2, Nigeria, "state", "State", "S"),
      ContactField(3, Nigeria, "lga", "LGA", "D"),
      ContactField(4, Nigeria, "ward", "Ward", "W"),
      ContactField(5, Nigeria, "occupation", "Activité", "T"),
      ContactField(6, Nigeria, "born", "Born", "T"),
      ContactField(7, Nigeria, "gender", "Gender", "T") ]
  }

  function NigeriaBoundaries(): seq<Boundary>
  {
    [ Boundary(1, Nigeria, "R-NIGERIA", "Nigeria", Country, None),
      Boundary(2, Nigeria, "R-LAGOS", "Lagos", State, Some(1)),
      Boundary(3, Nigeria, "R-OYO", "Oyo", District, Some(2)),
      Boundary(4, Nigeria, "R-IKEJA", "Ikeja", Ward, Some(3)) ]
  }

  const Registered := "2014-01-02T03:04:05.000000Z"

  /** The value the contact holds under key, None when it lacks the key. */
  function Value(c: TembaContact, key: string): Option<string>
  {
    if key in c.fields then c.fields[key] else None
  }

  /** The field at i is the org's first one with that title, so the title reads the contact's value under its key. */
  lemma ValueAt(fs: seq<ContactField>, title: string, i: nat, c: TembaContact)
    requires i < |fs| && fs[i].org == Nigeria && fs[i].title == title
    requires forall j :: 0 <= j < i ==> fs[j].title != title
    ensures FieldValue(fs, Nigeria, title, c) == Value(c, fs[i].key)
  {
    FirstMatchAt(fs, (f: ContactField) => f.org == Nigeria && f.title == title, i);
  }

  lemma RegistrationValue(c: TembaContact)
    ensures FieldValue(NigeriaFields(), Nigeria, "Registration Date", c) == Value(c, "registration_date")
  {
    ValueAt(NigeriaFields(), "Registration Date", 0, c);
  }

  lemma StateValue(c: TembaContact)
    ensures FieldValue(NigeriaFields(), Nigeria, "State", c) == Value(c, "state")
  {
    ValueAt(NigeriaFields(), "State", 1, c);
  }

  lemma DistrictValue(c: TembaContact)
    ensures FieldValue(NigeriaFields(), Nigeria, "LGA", c) == Value(c, "lga")
  {
    ValueAt(NigeriaFields(), "LGA", 2, c);
  }

  lemma WardValue(c: TembaContact)
    ensures FieldValue(NigeriaFields(), Nigeria, "Ward", c) == Value(c, "ward")
  {
    ValueAt(NigeriaFields(), "Ward", 3, c);
  }

  lemma OccupationValue(c: TembaContact)
    ensures FieldValue(NigeriaFields(), Nigeria, "Activité", c) == Value(c, "occupation")
  {
    ValueAt(NigeriaFields(), "Activité", 4, c);
  }

  lemma BornValue(c: TembaContact)
    ensures FieldValue(NigeriaFields(), Nigeria, "Born", c) == Value(c, "born")
  {
    ValueAt(NigeriaFields(), "Born", 5, c);
  }

  lemma GenderValue(c: TembaContact)
    ensures FieldValue(NigeriaFields(), Nigeria, "Gender", c) == Value(c, "gender")
  {
    ValueAt(NigeriaFields(), "Gender", 6, c);
  }

  lemma LagosResolves()
    ensures ResolveState(NigeriaBoundaries(), Nigeria, Some("Lagos")) == Some(NigeriaBoundaries()[1])
  {
    var bs := NigeriaBoundaries();
    FirstMatchAt(bs, (b: Boundary) => Named(b, Nigeria, State, "Lagos"), 1);
  }

  /** "Kigali" is no state of the org. */
  lemma KigaliUnknown()
    ensures ResolveState(NigeriaBoundaries(), Nigeria, Some("Kigali")) == None
  {
  }

  lemma OyoResolves()
    ensures ResolveChild(NigeriaBoundaries(), Nigeria, District, Some("Oyo"), Some(NigeriaBoundaries()[1]))
            == Some(NigeriaBoundaries()[2])
  {
    var bs := NigeriaBoundaries();
    FirstMatchAt(bs, (b: Boundary) => Named(b, Nigeria, District, "Oyo") && b.parent == Some(bs[1].id), 2);
  }

  lemma IkejaResolves()
    ensures ResolveChild(NigeriaBoundaries(), Nigeria, Ward, Some("Ikeja"), Some(NigeriaBoundaries()[2]))
            == Some(NigeriaBoundaries()[3])
  {
    var bs := NigeriaBoundaries();
    FirstMatchAt(bs, (b: Boundary) => Named(b, Nigeria, Ward, "Ikeja") && b.parent == Some(bs[2].id), 3);
  }

  /** An empty district name matches no stored district. */
  lemma EmptyDistrictUnknown()
    ensures ResolveChild(NigeriaBoundaries(), Nigeria, District, Some(""), Some(NigeriaBoundaries()[1])) == None
  {
  }

  lemma Year1990()
    ensures ParseDecimal("1990") == Some(1990)
  {
    var s := "1990";
    assert DigitsValue(s[..1]) == 1 by { assert s[..1][..0] == []; }
    assert DigitsValue(s[..2]) == 19 by { assert s[..2][..1] == s[..1]; }
    assert DigitsValue(s[..3]) == 199 by { assert s[..3][..2] == s[..2]; }
    assert s[..4] == s;
  }

  lemma MaleSpelled()
    ensures Gender(Some("Male"), NigeriaConfig()) == Male
  {
  }

  /** C-006: every mapped value null, so every column takes its neutral default. */
  lemma NullContactKwargs(fields: seq<ContactField>, parseDate: string -> Option<DateTime>, c: TembaContact)
    requires FieldValue(fields, Nigeria, "Registration Date", c) == None
    requires FieldValue(fields, Nigeria, "State", c) == None
    requires FieldValue(fields, Nigeria, "LGA", c) == None
    requires FieldValue(fields, Nigeria, "Ward", c) == None
    requires FieldValue(fields, Nigeria, "Activité", c) == None
    requires FieldValue(fields, Nigeria, "Born", c) == None
    requires FieldValue(fields, Nigeria, "Gender", c) == None
    ensures ContactKwargsFromTemba(Nigeria, NigeriaConfig(), fields, NigeriaBoundaries(), parseDate, c)
            == ContactKwargs(Nigeria, c.uuid, "", 0, "", None, "", "", "")
  {
    AbsentValuesGiveDefaults(Nigeria, NigeriaConfig(), fields, NigeriaBoundaries(), parseDate, c);
  }

  /** C-007: an unknown state clears the district, although "Oyo" is a stored district. */
  lemma UnknownStateKwargs(fields: seq<ContactField>, parseDate: string -> Option<DateTime>, c: TembaContact, t: DateTime)
    requires parseDate(Registered) == Some(t)
    requires FieldValue(fields, Nigeria, "Registration Date", c) == Some(Registered)
    requires FieldValue(fields, Nigeria, "State", c) == Some("Kigali")
    requires FieldValue(fields, Nigeria, "LGA", c) == Some("Oyo")
    requires FieldValue(fields, Nigeria, "Ward", c) == None
    requires FieldValue(fields, Nigeria, "Activité", c) == Some("Student")
    requires FieldValue(fields, Nigeria, "Born", c) == Some("1990")
    requires FieldValue(fields, Nigeria, "Gender", c) == Some("Male")
    ensures ContactKwargsFromTemba(Nigeria, NigeriaConfig(), fields, NigeriaBoundaries(), parseDate, c)
            == ContactKwargs(Nigeria, c.uuid, "M", 1990, "Student", Some(t), "", "", "")
  {
    KigaliUnknown(); Year1990(); MaleSpelled();
  }

  /** C-008: a full valid chain resolves all three levels to their osm_ids. */
  lemma FullChainKwargs(fields: seq<ContactField>, parseDate: string -> Option<DateTime>, c: TembaContact, t: DateTime)
    requires parseDate(Registered) == Some(t)
    requires FieldValue(fields, Nigeria, "Registration Date", c) == Some(Registered)
    requires FieldValue(fields, Nigeria, "State", c) == Some("Lagos")
    requires FieldValue(fields, Nigeria, "LGA", c) == Some("Oyo")
    requires FieldValue(fields, Nigeria, "Ward", c) == Some("Ikeja")
    requires FieldValue(fields, Nigeria, "Activité", c) == Some("Student")
    requires FieldValue(fields, Nigeria, "Born", c) == Some("1990")
    requires FieldValue(fields, Nigeria, "Gender", c) == Some("Male")
    ensures ContactKwargsFromTemba(Nigeria, NigeriaConfig(), fields, NigeriaBoundaries(), parseDate, c)
            == ContactKwargs(Nigeria, c.uuid, "M", 1990, "Student", Some(t), "R-LAGOS", "R-OYO", "R-IKEJA")
  {
    LagosResolves(); OyoResolves(); IkejaResolves(); Year1990(); MaleSpelled();
  }

  /** C-0011: an empty district clears the ward, although "Ikeja" is a stored ward. */
  lemma EmptyDistrictKwargs(fields: seq<ContactField>, parseDate: string -> Option<DateTime>, c: TembaContact, t: DateTime)
    requires parseDate(Registered) == Some(t)
    requires FieldValue(fields, Nigeria, "Registration Date", c) == Some(Registered)
    requires FieldValue(fields, Nigeria, "State", c) == Some("Lagos")
    requires FieldValue(fields, Nigeria, "LGA", c) == Some("")
    requires FieldValue(fields, Nigeria, "Ward", c) == Some("Ikeja")
    requires FieldValue(fields, Nigeria, "Activité", c) == Some("Student")
    requires FieldValue(fields, Nigeria, "Born", c) == Some("1990")
    requires FieldValue(fields, Nigeria, "Gender", c) == Some("Male")
    ensures ContactKwargsFromTemba(Nigeria, NigeriaConfig(), fields, NigeriaBoundaries(), parseDate, c)
            == ContactKwargs(Nigeria, c.uuid, "M", 1990, "Student", Some(t), "R-LAGOS", "", "")
  {
    LagosResolves(); EmptyDistrictUnknown(); Year1990(); MaleSpelled();
  }

  /** The remote contacts of the mapping tests, with their custom field values by key. */
  function C006(): TembaContact
  {
    TembaContact("C-006", map["registration_date" := None, "state" := None, "lga" := None,
                              "occupation" := None, "born" := None, "gender" := None])
  }

  function C007Remote(): TembaContact
  {
    TembaContact("C-007", map["registration_date" := Some(Registered), "state" := Some("Kigali"), "lga" := Some("Oyo"),
                              "occupation" := Some("Student"), "born" := Some("1990"), "gender" := Some("Male")])
  }

  function C008(): TembaContact
  {
    TembaContact("C-008", map["registration_date" := Some(Registered), "state" := Some("Lagos"), "lga" := Some("Oyo"),
                              "ward" := Some("Ikeja"), "occupation" := Some("Student"), "born" := Some("1990"),
                              "gender" := Some("Male")])
  }

  function C0011(): TembaContact
  {
    TembaContact("C-0011", map["registration_date" := Some(Registered), "state" := Some("Lagos"), "lga" := Some(""),
                               "ward" := Some("Ikeja"), "occupation" := Some("Student"), "born" := Some("1990"),
                               "gender" := Some("Male")])
  }

  /** Through the Nigeria field table, each configured label reads the contact's value under the tests' key. */
  lemma NigeriaReads(c: TembaContact, reg: Option<string>, state: Option<string>, lga: Option<string>,
                     ward: Option<string>, occupation: Option<string>, born: Option<string>, gender: Option<string>)
    requires Value(c, "registration_date") == reg && Value(c, "state") == state && Value(c, "lga") == lga
    requires Value(c, "ward") == ward && Value(c, "occupation") == occupation
    requires Value(c, "born") == born && Value(c, "gender") == gender
    ensures FieldValue(NigeriaFields(), Nigeria, "Registration Date", c) == reg
    ensures FieldValue(NigeriaFields(), Nigeria, "State", c) == state
    ensures FieldValue(NigeriaFields(), Nigeria, "LGA", c) == lga
    ensures FieldValue(NigeriaFields(), Nigeria, "Ward", c) == ward
    ensures FieldValue(NigeriaFields(), Nigeria, "Activité", c) == occupation
    ensures FieldValue(NigeriaFields(), Nigeria, "Born", c) == born
    ensures FieldValue(NigeriaFields(), Nigeria, "Gender", c) == gender
  {
    RegistrationValue(c); StateValue(c); DistrictValue(c); WardValue(c);
    OccupationValue(c); BornValue(c); GenderValue(c);
  }

  /** The values C-006 holds under the tests' keys. */
  lemma C006Values()
    ensures Value(C006(), "registration_date") == None
    ensures Value(C006(), "state") == None
    ensures Value(C006(), "lga") == None
    ensures Value(C006(), "ward") == None
    ensures Value(C006(), "occupation") == None
    ensures Value(C006(), "born") == None
    ensures Value(C006(), "gender") == None
  {
  }

  /** C-006 as the test builds it, against the Nigeria fields and boundaries. */
  lemma C006Kwargs(parseDate: string -> Option<DateTime>)
    ensures ContactKwargsFromTemba(Nigeria, NigeriaConfig(), NigeriaFields(), NigeriaBoundaries(), parseDate, C006())
            == ContactKwargs(Nigeria, "C-006", "", 0, "", None, "", "", "")
  {
    C006Values();
    NigeriaReads(C006(), None, None, None, None, None, None, None);
    NullContactKwargs(NigeriaFields(), parseDate, C006());
  }

  /** The values C-007 holds under the tests' keys. */
  lemma C007Values()
    ensures Value(C007Remote(), "registration_date") == Some(Registered)
    ensures Value(C007Remote(), "state") == Some("Kigali")
    ensures Value(C007Remote(), "lga") == Some("Oyo")
    ensures Value(C007Remote(), "ward") == None
    ensures Value(C007Remote(), "occupation") == Some("Student")
    ensures Value(C007Remote(), "born") == Some("1990")
    ensures Value(C007Remote(), "gender") == Some("Male")
  {
  }

  /** C-007 as the test builds it. */
  lemma C007Kwargs(parseDate: string -> Option<DateTime>, t: DateTime)
    requires parseDate(Registered) == Some(t)
    ensures ContactKwargsFromTemba(Nigeria, NigeriaConfig(), NigeriaFields(), NigeriaBoundaries(), parseDate, C007Remote())
            == ContactKwargs(Nigeria, "C-007", "M", 1990, "Student", Some(t), "", "", "")
  {
    C007Values();
    NigeriaReads(C007Remote(), Some(Registered), Some("Kigali"), Some("Oyo"), None, Some("Student"), Some("1990"), Some("Male"));
    UnknownStateKwargs(NigeriaFields(), parseDate, C007Remote(), t);
  }

  /** The values C-008 holds under the tests' keys. */
  lemma C008Values()
    ensures Value(C008(), "registration_date") == Some(Registered)
    ensures Value(C008(), "state") == Some("Lagos")
    ensures Value(C008(), "lga") == Some("Oyo")
    ensures Value(C008(), "ward") == Some("Ikeja")
    ensures Value(C008(), "occupation") == Some("Student")
    ensures Value(C008(), "born") == Some("1990")
    ensures Value(C008(), "gender") == Some("Male")
  {
  }

  /** C-008 as the test builds it. */
  lemma C008Kwargs(parseDate: string -> Option<DateTime>, t: DateTime)
    requires parseDate(Registered) == Some(t)
    ensures ContactKwargsFromTemba(Nigeria, NigeriaConfig(), NigeriaFields(), NigeriaBoundaries(), parseDate, C008())
            == ContactKwargs(Nigeria, "C-008", "M", 1990, "Student", Some(t), "R-LAGOS", "R-OYO", "R-IKEJA")
  {
    C008Values();
    NigeriaReads(C008(), Some(Registered), Some("Lagos"), Some("Oyo"), Some("Ikeja"), Some("Student"), Some("1990"), Some("Male"));
    FullChainKwargs(NigeriaFields(), parseDate, C008(), t);
  }

  /** The values C-0011 holds under the tests' keys. */
  lemma C0011Values()
    ensures Value(C0011(), "registration_date") == Some(Registered)
    ensures Value(C0011(), "state") == Some("Lagos")
    ensures Value(C0011(), "lga") == Some("")
    ensures Value(C0011(), "ward") == Some("Ikeja")
    ensures Value(C0011(), "occupation") == Some("Student")
    ensures Value(C0011(), "born") == Some("1990")
    ensures Value(C0011(), "gender") == Some("Male")
  {
  }

  /** C-0011 as the test builds it. */
  lemma C0011Kwargs(parseDate: string -> Option<DateTime>, t: DateTime)
    requires parseDate(Registered) == Some(t)
    ensures ContactKwargsFromTemba(Nigeria, NigeriaConfig(), NigeriaFields(), NigeriaBoundaries(), parseDate, C0011())
            == ContactKwargs(Nigeria, "C-0011", "M", 1990, "Student", Some(t), "R-LAGOS", "", "")
  {
    C0011Values();
    NigeriaReads(C0011(), Some(Registered), Some("Lagos"), Some(""), Some("Ikeja"), Some("Student"), Some("1990"), Some("Male"));
    EmptyDistrictKwargs(NigeriaFields(), parseDate, C0011(), t);
  }

  // ---------------------------------------------------------------------------
  // Reporters counter

  lemma Numeral1990()
    ensures DecimalString(1990) == "1990"
  {
    assert DecimalString(1) == "1";
    assert DecimalString(19) == "19";
    assert DecimalString(199) == "199";
  }

  lemma Numeral2014()
    ensures DecimalString(2014) == "2014"
  {
    assert DecimalString(2) == "2";
    assert DecimalString(20) == "20";
    assert DecimalString(201) == "201";
  }

  lemma PadTwo(d: char)
    requires IsDigit(d)
    ensures ZeroPad([d], 2) == ['0', d]
  {
    var r := ZeroPad([d], 2);
    assert |r| == 2 && r[1..] == [d] && r[0] == '0';
    assert r[1] == d;
  }

  lemma Day20140102(t: DateTime)
    requires t.year == 2014 && t.month == 1 && t.day == 2
    ensures DayString(t) == "2014-01-02"
  {
    Numeral2014();
    assert DecimalString(1) == "1" && DecimalString(2) == "2";
    PadTwo('1'); PadTwo('2');
    assert ZeroPad("2014", 4) == "2014";
  }

  lemma LowerM()
    ensures Lower("M") == "m"
  {
    var r := Lower("M");
    assert |r| == 1 && r[0] as int == 'M' as int + 32;
  }

  lemma LowerStudent()
    ensures Lower("Student") == "student"
  {
    var s := "Student";
    assert s == "S" + "tudent" && s[1..] == "tudent";
    LowerFixed("tudent");
  }

  lemma Numeral1980()
    ensures DecimalString(1980) == "1980"
  {
    assert DecimalString(1) == "1";
    assert DecimalString(19) == "19";
    assert DecimalString(198) == "198";
  }

  lemma LowerTeacher()
    ensures Lower("Teacher") == "teacher"
  {
    var s := "Teacher";
    assert s == "T" + "eacher" && s[1..] == "eacher";
    LowerFixed("eacher");
  }

  /**
   * A contact of the reporters-counter test, created with gender 'M', state
   * R-LAGOS, district R-OYO and no ward.
   */
  function Reporter(id: nat, uuid: string, born: nat, occupation: string, t: DateTime): Contact
  {
    FromKwargs(id, ContactKwargs(Nigeria, uuid, "M", born, occupation, Some(t), "R-LAGOS", "R-OYO", ""))
  }

  function C007(id: nat, t: DateTime): Contact
  {
    Reporter(id, "C-007", 1990, "Student", t)
  }

  function C008Reporter(id: nat, t: DateTime): Contact
  {
    Reporter(id, "C-008", 1980, "Teacher", t)
  }

  /** The dimensions of such a contact registered on 2 January 2014, given its year and occupation keys. */
  function ReporterDimensions(year: string, occupation: string): seq<Dimension>
  {
    [ Dimension(true, "total-reporters", ""), Dimension(true, "gender:", "m"),
      Dimension(true, "occupation:", occupation), Dimension(true, "born:", year),
      Dimension(true, "registered_on:", "2014-01-02"), Dimension(true, "state:", "R-LAGOS"),
      Dimension(true, "district:", "R-OYO"), Dimension(false, "ward:", "") ]
  }

  lemma ReporterHasDimensions(id: nat, uuid: string, born: nat, occupation: string, t: DateTime)
    requires born != 0 && occupation != ""
    requires t.year == 2014 && t.month == 1 && t.day == 2
    ensures Dimensions(Reporter(id, uuid, born, occupation, t)) == ReporterDimensions(DecimalString(born), Lower(occupation))
  {
    Day20140102(t); LowerM();
  }

  /** The keys of eight dimensions of which only the last is unpopulated. */
  lemma KeysOfSeven(ds: seq<Dimension>)
    requires |ds| == 8 && !ds[7].populated
    requires forall i :: 0 <= i < 7 ==> ds[i].populated
    ensures PopulatedKeys(ds) == [ds[0].Key(), ds[1].Key(), ds[2].Key(), ds[3].Key(), ds[4].Key(), ds[5].Key(), ds[6].Key()]
  {
    assert PopulatedKeys(ds[7..]) == [] by { assert ds[7..][1..] == []; }
    assert PopulatedKeys(ds[6..]) == [ds[6].Key()] by { assert ds[6..][1..] == ds[7..]; }
    assert PopulatedKeys(ds[5..]) == [ds[5].Key(), ds[6].Key()] by { assert ds[5..][1..] == ds[6..]; }
    assert PopulatedKeys(ds[4..]) == [ds[4].Key(), ds[5].Key(), ds[6].Key()] by { assert ds[4..][1..] == ds[5..]; }
    assert PopulatedKeys(ds[3..]) == [ds[3].Key(), ds[4].Key(), ds[5].Key(), ds[6].Key()]
      by { assert ds[3..][1..] == ds[4..]; }
    assert PopulatedKeys(ds[2..]) == [ds[2].Key(), ds[3].Key(), ds[4].Key(), ds[5].Key(), ds[6].Key()]
      by { assert ds[2..][1..] == ds[3..]; }
    assert PopulatedKeys(ds[1..]) == [ds[1].Key(), ds[2].Key(), ds[3].Key(), ds[4].Key(), ds[5].Key(), ds[6].Key()]
      by { assert ds[1..][1..] == ds[2..]; }
  }

  lemma ReporterKeys(year: string, occupation: string)
    ensures PopulatedKeys(ReporterDimensions(year, occupation)) ==
              ["total-reporters", "gender:m", "occupation:" + occupation, "born:" + year,
               "registered_on:2014-01-02", "state:R-LAGOS", "district:R-OYO"]
  {
    var ds := ReporterDimensions(year, occupation);
    KeysOfSeven(ds);
    assert ds[0].Key() == "total-reporters" && ds[1].Key() == "gender:m" && ds[4].Key() == "registered_on:2014-01-02"
        && ds[5].Key() == "state:R-LAGOS" && ds[6].Key() == "district:R-OYO";
  }

  lemma StudentKeys()
    ensures "occupation:" + "student" == "occupation:student" && "born:" + "1990" == "born:1990"
  {
  }

  lemma TeacherKeys()
    ensures "occupation:" + "teacher" == "occupation:teacher" && "born:" + "1980" == "born:1980"
  {
  }

  /** The counter types the test's contact C-007 adds one to; it has no ward, so no ward counter. */
  lemma ReporterC007Kinds(id: nat, t: DateTime)
    requires t.year == 2014 && t.month == 1 && t.day == 2
    ensures CounterKinds(C007(id, t)) ==
              ["total-reporters", "gender:m", "occupation:student", "born:1990",
               "registered_on:2014-01-02", "state:R-LAGOS", "district:R-OYO"]
  {
    ReporterHasDimensions(id, "C-007", 1990, "Student", t);
    Numeral1990(); LowerStudent();
    assert Dimensions(C007(id, t)) == ReporterDimensions("1990", "student");
    ReporterKeys("1990", "student");
    StudentKeys();
  }

  /** The counter types the test's contact C-008 adds one to. */
  lemma ReporterC008Kinds(id: nat, t: DateTime)
    requires t.year == 2014 && t.month == 1 && t.day == 2
    ensures CounterKinds(C008Reporter(id, t)) ==
              ["total-reporters", "gender:m", "occupation:teacher", "born:1980",
               "registered_on:2014-01-02", "state:R-LAGOS", "district:R-OYO"]
  {
    ReporterHasDimensions(id, "C-008", 1980, "Teacher", t);
    Numeral1980(); LowerTeacher();
    assert Dimensions(C008Reporter(id, t)) == ReporterDimensions("1980", "teacher");
    ReporterKeys("1980", "teacher");
    TeacherKeys();
  }

  /** The dictionary get_counts answers once C-007 is created. */
  function C007Counts(): map<string, int>
  {
    map["total-reporters" := 1, "gender:m" := 1, "occupation:student" := 1, "born:1990" := 1,
        "registered_on:2014-01-02" := 1, "state:R-LAGOS" := 1, "district:R-OYO" := 1]
  }

  /** The dictionary get_counts answers once C-007 and C-008 are created. */
  function BothCounts(): map<string, int>
  {
    map["total-reporters" := 2, "gender:m" := 2, "occupation:student" := 1, "occupation:teacher" := 1,
        "born:1990" := 1, "born:1980" := 1, "registered_on:2014-01-02" := 2, "state:R-LAGOS" := 2,
        "district:R-OYO" := 2]
  }

  /** C007Counts is one for each of C-007's types and nothing else. */
  lemma C007CountsShape(ks: seq<string>)
    requires ks == ["total-reporters", "gender:m", "occupation:student", "born:1990",
                    "registered_on:2014-01-02", "state:R-LAGOS", "district:R-OYO"]
    ensures forall k :: k in C007Counts() <==> k in ks
    ensures forall k :: k in C007Counts() ==> C007Counts()[k] == 1
  {
  }

  /** BothCounts is C007Counts with one more for each of C-008's types. */
  lemma BothCountsShape(ks: seq<string>)
    requires ks == ["total-reporters", "gender:m", "occupation:teacher", "born:1980",
                    "registered_on:2014-01-02", "state:R-LAGOS", "district:R-OYO"]
    ensures forall k :: k in BothCounts() <==> k in C007Counts() || k in ks
    ensures forall k :: k in BothCounts() ==>
              BothCounts()[k] == (if k in C007Counts() then C007Counts()[k] else 0) + (if k in ks then 1 else 0)
  {
  }

  /** Creating C-007 on an empty counter table: get_counts gives one for each of its seven types. */
  lemma ReporterC007Counts(id: nat, t: DateTime, firstId: nat)
    requires t.year == 2014 && t.month == 1 && t.day == 2
    ensures Counts(Increments(Nigeria, CounterKinds(C007(id, t)), firstId), Nigeria, None) == C007Counts()
  {
    var c := C007(id, t);
    ReporterC007Kinds(id, t);
    C007CountsShape(CounterKinds(c));
    CountsEmpty(Nigeria, None);
    CreateCountsMap([], c, firstId, map[], C007Counts());
    assert [] + Increments(Nigeria, CounterKinds(c), firstId) == Increments(Nigeria, CounterKinds(c), firstId);
  }

  /** Creating C-008 after C-007: the shared types count two, the others one. */
  lemma ReporterC008Counts(id: nat, t: DateTime, firstId: nat, id': nat, t': DateTime, firstId': nat)
    requires t.year == 2014 && t.month == 1 && t.day == 2
    requires t'.year == 2014 && t'.month == 1 && t'.day == 2
    ensures Counts(Increments(Nigeria, CounterKinds(C007(id, t)), firstId) +
                   Increments(Nigeria, CounterKinds(C008Reporter(id', t')), firstId'), Nigeria, None) == BothCounts()
  {
    var c := C008Reporter(id', t');
    ReporterC007Counts(id, t, firstId);
    ReporterC008Kinds(id', t');
    BothCountsShape(CounterKinds(c));
    CreateCountsMap(Increments(Nigeria, CounterKinds(C007(id, t)), firstId), c, firstId', C007Counts(), BothCounts());
  }

  /** The key-list query on a table whose full answer is BothCounts. */
  lemma KeyListOfBoth(rows: seq<Counter>)
    requires Counts(rows, Nigeria, None) == BothCounts()
    ensures Counts(rows, Nigeria, Some({"total-reporters", "gender:m"})) == map["total-reporters" := 2, "gender:m" := 2]
  {
    var ks := {"total-reporters", "gender:m"};
    CountsRestricted(rows, Nigeria, ks);
    assert "total-reporters" in BothCounts() && BothCounts()["total-reporters"] == 2;
    assert "gender:m" in BothCounts() && BothCounts()["gender:m"] == 2;
    assert Counts(rows, Nigeria, Some(ks)).Keys == ks;
  }

  /** Asking for total-reporters and gender:m after both contacts gives two for each. */
  lemma ReporterKeyListCounts(id: nat, t: DateTime, firstId: nat, id': nat, t': DateTime, firstId': nat)
    requires t.year == 2014 && t.month == 1 && t.day == 2
    requires t'.year == 2014 && t'.month == 1 && t'.day == 2
    ensures Counts(Increments(Nigeria, CounterKinds(C007(id, t)), firstId) +
                   Increments(Nigeria, CounterKinds(C008Reporter(id', t')), firstId'), Nigeria, Some({"total-reporters", "gender:m"}))
            == map["total-reporters" := 2, "gender:m" := 2]
  {
    ReporterC008Counts(id, t, firstId, id', t', firstId');
    KeyListOfBoth(Increments(Nigeria, CounterKinds(C007(id, t)), firstId) +
                  Increments(Nigeria, CounterKinds(C008Reporter(id', t')), firstId'));
  }

  /** A contact in ward R-IKEJA lists the ward's counter type. */
  lemma WardListed(c: Contact)
    requires c.ward == "R-IKEJA"
    ensures "ward:R-IKEJA" in CounterKinds(c)
  {
    var ds := Dimensions(c);
    DimensionsTagged(c);
    PopulatedKeyListed(ds, 7);
    assert ds[7].Key() == "ward:" + "R-IKEJA" == "ward:R-IKEJA";
  }

  /**
   * Two Nigeria contacts in ward R-IKEJA: the ward's count is one after the
   * first is created on an empty table and two after the second.
   */
  lemma WardCounts(c: Contact, c': Contact, firstId: nat, firstId': nat)
    requires c.org == Nigeria && c'.org == Nigeria && c.ward == "R-IKEJA" && c'.ward == "R-IKEJA"
    ensures var once := Increments(Nigeria, CounterKinds(c), firstId);
            var twice := once + Increments(Nigeria, CounterKinds(c'), firstId');
            && "ward:R-IKEJA" in Counts(once, Nigeria, None) && Counts(once, Nigeria, None)["ward:R-IKEJA"] == 1
            && "ward:R-IKEJA" in Counts(twice, Nigeria, None) && Counts(twice, Nigeria, None)["ward:R-IKEJA"] == 2
  {
    var once := Increments(Nigeria, CounterKinds(c), firstId);
    WardListed(c);
    WardListed(c');
    CountsEmpty(Nigeria, None);
    assert [] + once == once;
    CreateCountsOnce([], c, firstId, None, "ward:R-IKEJA");
    CreateCountsOnce(once, c', firstId', None, "ward:R-IKEJA");
  }

  // ---------------------------------------------------------------------------
  // Squashing and the contact pull

  /** The three counter rows of the squash test, in creation order. */
  function SquashFixture(): seq<Counter>
  {
    [Counter(1, Nigeria, "type-a", 2), Counter(2, Nigeria, "type-b", 1), Counter(3, Nigeria, "type-a", 3)]
  }

  /** Two type-a rows summing to 5 and one type-b row. */
  lemma SquashFixtureSums()
    ensures var rows, a, b := SquashFixture(), Bucket(Nigeria, "type-a"), Bucket(Nigeria, "type-b");
            && CountOf(rows, a) == 2 && SumOf(rows, a) == 5 && CountOf(rows, b) == 1
            && BucketOf(rows[0]) == a && BucketOf(rows[1]) == b && BucketOf(rows[2]) == a
  {
    var rows := SquashFixture();
    var a, b := Bucket(Nigeria, "type-a"), Bucket(Nigeria, "type-b");
    assert "type-a" != "type-b" by { assert "type-a"[5] != "type-b"[5]; }
    var one, two := [rows[0]], [rows[0], rows[1]];
    assert one == [] + [rows[0]] && two == one + [rows[1]] && rows == two + [rows[2]];
    SumAppend([], rows[0], a); SumAppend([], rows[0], b);
    SumAppend(one, rows[1], a); SumAppend(one, rows[1], b);
    SumAppend(two, rows[2], a); SumAppend(two, rows[2], b);
  }

  /** The fixture's ids increase and stay below 4. */
  lemma SquashFixtureOrdered()
    ensures Ordered(SquashFixture(), 4)
  {
    var rows := SquashFixture();
    var one, two := [rows[0]], [rows[0], rows[1]];
    assert Ordered(one, 2) by { assert one[..0] == []; }
    assert Ordered(two, 3) by { assert two[..1] == one; }
    assert rows[..2] == two;
  }

  /** A table whose rows all fall in two buckets has as many rows as the two buckets together. */
  lemma {:induction false} TwoBucketRows(s: seq<Counter>, a: Bucket, b: Bucket)
    requires a != b
    requires forall x :: x in s ==> BucketOf(x) == a || BucketOf(x) == b
    ensures |s| == CountOf(s, a) + CountOf(s, b)
  {
    if s != [] {
      var p := s[..|s| - 1];
      assert forall x :: x in p ==> x in s;
      TwoBucketRows(p, a, b);
    }
  }

  /**
   * Squashing the fixture leaves two rows: one type-a row holding 5 and the
   * single type-b row, unchanged; both original type-a rows are gone.
   */
  lemma SquashFixtureResult()
    ensures var after := Squash(SquashFixture(), 4).0;
            && |after| == 2
            && CountOf(after, Bucket(Nigeria, "type-a")) == 1
            && SumOf(after, Bucket(Nigeria, "type-a")) == 5
            && Counter(2, Nigeria, "type-b", 1) in after
            && (forall y :: y in after ==> y.id != 1 && y.id != 3)
  {
    var rows := SquashFixture();
    var after := Squash(rows, 4).0;
    var a, b := Bucket(Nigeria, "type-a"), Bucket(Nigeria, "type-b");
    SquashFixtureSums();
    SquashFixtureOrdered();
    SquashLeavesOneRow(rows, 4, a);
    SquashLeavesOneRow(rows, 4, b);
    SquashKeepsSums(rows, 4, a);
    SquashKeepsSingles(rows, 4, rows[1]);
    SquashRemovesMerged(rows, 4, rows[0]);
    SquashRemovesMerged(rows, 4, rows[2]);
    forall y | y in after
      ensures BucketOf(y) == a || BucketOf(y) == b
    {
      var c := BucketOf(y);
      CountMembers(after, c);
      SquashLeavesOneRow(rows, 4, c);
      CountMembers(rows, c);
    }
    TwoBucketRows(after, a, b);
  }

  /** The test's three pull reports are recorded without their ignored counts. */
  lemma PullFixtureResult()
    ensures RunResult(PullCounts(1, 2, 3, 4), PullCounts(5, 6, 7, 8), PullCounts(9, 10, 11, 12))
            == PullResult(StageResult(1, 2, 3), StageResult(5, 6, 7), StageResult(9, 10, 11))
  {
  }
}
