/**
 * Mapping of records pulled from the remote messaging backend ("Temba") into
 * the column values of local rows: `ContactField.kwargs_from_temba` and
 * `Contact.kwargs_from_temba`. Both are total functions of the remote record,
 * the organisation's configuration and the local lookup tables.
 */
module Mapper {
  import opened Wrappers
  import opened Tables
  import opened Text

  /** A custom contact field as the backend describes it; title holds its label (`label` is a Dafny keyword). */
  datatype TembaContactField = TembaContactField(key: string, title: string, valueType: string)

  /** The creation parameters of a local ContactField row. */
  datatype FieldKwargs = FieldKwargs(org: OrgId, key: string, title: string, valueType: string)

  /** A local ContactField row; (org, key) identifies it. */
  datatype ContactField = ContactField(id: nat, org: OrgId, key: string, title: string, valueType: string)

  /** The remote field seen back through the parameters made from it. */
  function TembaFieldOf(kw: FieldKwargs): TembaContactField
  {
    TembaContactField(kw.key, kw.title, kw.valueType)
  }

  /** ContactField.kwargs_from_temba: the org plus key, label and value type, passed through unchanged. */
  function FieldKwargsFromTemba(org: OrgId, f: TembaContactField): (r: FieldKwargs)
    ensures r.org == org && TembaFieldOf(r) == f
  {
    FieldKwargs(org, f.key, f.title, f.valueType)
  }

  /**
   * The organisation's configuration: for each role, the label of the custom
   * field that plays it, and the two values that spell a gender.
   */
  datatype OrgConfig = OrgConfig(
    registrationLabel: string,
    stateLabel: string,
    districtLabel: string,
    wardLabel: string,
    occupationLabel: string,
    bornLabel: string,
    genderLabel: string,
    femaleLabel: string,
    maleLabel: string)

  /** A remote contact: its uuid and its custom field values by key (a value may be null). */
  datatype TembaContact = TembaContact(uuid: string, fields: map<string, Option<string>>)

  /** A point in time, already split into its parts. */
  datatype DateTime = DateTime(year: nat, month: nat, day: nat, hour: nat, minute: nat, second: nat)

  datatype Level = Country | State | District | Ward

  /** A node of the geographic tree; parent is the primary key of the enclosing boundary. */
  datatype Boundary = Boundary(id: nat, org: OrgId, osmId: string, name: string, level: Level, parent: Option<nat>)

  /** The column values of a local Contact row made from a remote contact. */
  datatype ContactKwargs = ContactKwargs(
    org: OrgId,
    uuid: string,
    gender: string,
    born: nat,
    occupation: string,
    registeredOn: Option<DateTime>,
    state: string,
    district: string,
    ward: string)

  const Female := "F"
  const Male := "M"

  /** The key of the org's first ContactField whose label is the given one. */
  function FieldKey(fields: seq<ContactField>, org: OrgId, title: string): (r: Option<string>)
    ensures r.Some? <==> exists f :: f in fields && f.org == org && f.title == title
    ensures r.Some? ==> exists f :: f in fields && f.org == org && f.title == title && f.key == r.value
  {
    match FirstMatch(fields, (f: ContactField) => f.org == org && f.title == title)
    case None => None
    case Some(i) => Some(fields[i].key)
  }

  /**
   * The value the remote contact holds for the field with the given label: None when
   * the org has no such field, when the contact lacks its key, or when the value is null.
   */
  function FieldValue(fields: seq<ContactField>, org: OrgId, title: string, c: TembaContact): (r: Option<string>)
    ensures r.Some? ==> FieldKey(fields, org, title).Some? && FieldKey(fields, org, title).value in c.fields
    ensures FieldKey(fields, org, title).Some? && FieldKey(fields, org, title).value in c.fields ==>
              r == c.fields[FieldKey(fields, org, title).value]
  {
    match FieldKey(fields, org, title)
    case None => None
    case Some(k) => if k in c.fields then c.fields[k] else None
  }

  /** 'F' or 'M' when the value is the configured female or male label, '' otherwise. */
  function Gender(value: Option<string>, cfg: OrgConfig): (r: string)
    ensures r == Female <==> value.Some? && value.value != "" && value.value == cfg.femaleLabel
    ensures r == Male <==> value.Some? && value.value != "" && value.value != cfg.femaleLabel && value.value == cfg.maleLabel
    ensures r == "" <==> r != Female && r != Male
  {
    match value
    case Some(g) => if g != "" && g == cfg.femaleLabel then Female else if g != "" && g == cfg.maleLabel then Male else ""
    case None => ""
  }

  /** The birth year: the value read as a decimal numeral, 0 when it is absent or not a numeral. */
  function Born(value: Option<string>): (r: nat)
    ensures value.Some? && ParseDecimal(value.value).Some? ==> Some(r) == ParseDecimal(value.value)
    ensures value.None? || ParseDecimal(value.value).None? ==> r == 0
  {
    match value
    case Some(s) => (match ParseDecimal(s) case Some(n) => n case None => 0)
    case None => 0
  }

  /** The value itself, '' when it is absent. */
  function Occupation(value: Option<string>): (r: string)
    ensures value.Some? ==> r == value.value
    ensures value.None? ==> r == ""
  {
    match value
    case Some(s) => s
    case None => ""
  }

  /** The parsed registration time; None when the value is absent or empty or does not parse. */
  function RegisteredOn(value: Option<string>, parseDate: string -> Option<DateTime>): (r: Option<DateTime>)
    ensures r.Some? <==> value.Some? && value.value != "" && parseDate(value.value).Some?
    ensures r.Some? ==> r == parseDate(value.value)
  {
    match value
    case Some(s) => if s != "" then parseDate(s) else None
    case None => None
  }

  predicate Named(b: Boundary, org: OrgId, level: Level, name: string)
  {
    b.org == org && b.level == level && b.name == name
  }

  /** The org's first state-level boundary with the given name. */
  function ResolveState(bs: seq<Boundary>, org: OrgId, name: Option<string>): (r: Option<Boundary>)
    ensures r.Some? <==> name.Some? && exists b :: b in bs && Named(b, org, State, name.value)
    ensures r.Some? ==> r.value in bs && Named(r.value, org, State, name.value)
  {
    if name.None? then None
    else
      match FirstMatch(bs, (b: Boundary) => Named(b, org, State, name.value))
      case None => None
      case Some(i) => Some(bs[i])
  }

  /**
   * The org's first boundary of the given level and name whose parent is the
   * boundary resolved one level up; None when nothing was resolved there.
   */
  function ResolveChild(bs: seq<Boundary>, org: OrgId, level: Level, name: Option<string>, parent: Option<Boundary>): (r: Option<Boundary>)
    ensures r.Some? <==>
      name.Some? && parent.Some? &&
      exists b :: b in bs && Named(b, org, level, name.value) && b.parent == Some(parent.value.id)
    ensures r.Some? ==> r.value in bs && Named(r.value, org, level, name.value) && r.value.parent == Some(parent.value.id)
  {
    if name.None? || parent.None? then None
    else
      match FirstMatch(bs, (b: Boundary) => Named(b, org, level, name.value) && b.parent == Some(parent.value.id))
      case None => None
      case Some(i) => Some(bs[i])
  }

  /** The osm_id of a resolved boundary, '' when none was resolved. */
  function OsmId(b: Option<Boundary>): string
  {
    if b.Some? then b.value.osmId else ""
  }

  /** The three boundaries resolved for a contact, top down. */
  datatype Location = Location(state: Option<Boundary>, district: Option<Boundary>, ward: Option<Boundary>)

  function ResolveLocation(org: OrgId, cfg: OrgConfig, fields: seq<ContactField>, bs: seq<Boundary>, c: TembaContact): (r: Location)
    ensures r.district.Some? ==> r.state.Some? && r.district.value.parent == Some(r.state.value.id)
    ensures r.ward.Some? ==> r.district.Some? && r.ward.value.parent == Some(r.district.value.id)
  {
    var state := ResolveState(bs, org, FieldValue(fields, org, cfg.stateLabel, c));
    var district := ResolveChild(bs, org, District, FieldValue(fields, org, cfg.districtLabel, c), state);
    var ward := ResolveChild(bs, org, Ward, FieldValue(fields, org, cfg.wardLabel, c), district);
    Location(state, district, ward)
  }

  /** Contact.kwargs_from_temba. */
  function ContactKwargsFromTemba(
    org: OrgId, cfg: OrgConfig, fields: seq<ContactField>, bs: seq<Boundary>,
    parseDate: string -> Option<DateTime>, c: TembaContact): (r: ContactKwargs)
    ensures r.org == org && r.uuid == c.uuid
    ensures r.gender in {"", Female, Male}
  {
    var loc := ResolveLocation(org, cfg, fields, bs, c);
    ContactKwargs(
      org, c.uuid,
      Gender(FieldValue(fields, org, cfg.genderLabel, c), cfg),
      Born(FieldValue(fields, org, cfg.bornLabel, c)),
      Occupation(FieldValue(fields, org, cfg.occupationLabel, c)),
      RegisteredOn(FieldValue(fields, org, cfg.registrationLabel, c), parseDate),
      OsmId(loc.state), OsmId(loc.district), OsmId(loc.ward))
  }

  /** Every configured field absent or null: every column takes its neutral default. */
  lemma AbsentValuesGiveDefaults(
    org: OrgId, cfg: OrgConfig, fields: seq<ContactField>, bs: seq<Boundary>,
    parseDate: string -> Option<DateTime>, c: TembaContact)
    requires forall title :: title in {cfg.registrationLabel, cfg.stateLabel, cfg.districtLabel, cfg.wardLabel,
                                       cfg.occupationLabel, cfg.bornLabel, cfg.genderLabel}
                             ==> FieldValue(fields, org, title, c).None?
    ensures ContactKwargsFromTemba(org, cfg, fields, bs, parseDate, c) ==
              ContactKwargs(org, c.uuid, "", 0, "", None, "", "", "")
  {
  }

  /** A state name that resolves to nothing clears the district and the ward too. */
  lemma UnknownStateClearsLocation(
    org: OrgId, cfg: OrgConfig, fields: seq<ContactField>, bs: seq<Boundary>,
    parseDate: string -> Option<DateTime>, c: TembaContact)
    requires ResolveState(bs, org, FieldValue(fields, org, cfg.stateLabel, c)).None?
    ensures var r := ContactKwargsFromTemba(org, cfg, fields, bs, parseDate, c);
            r.state == "" && r.district == "" && r.ward == ""
  {
  }

  /** A district that resolves to nothing clears the ward, whatever the ward's name. */
  lemma UnknownDistrictClearsWard(
    org: OrgId, cfg: OrgConfig, fields: seq<ContactField>, bs: seq<Boundary>,
    parseDate: string -> Option<DateTime>, c: TembaContact)
    requires ResolveLocation(org, cfg, fields, bs, c).district.None?
    ensures ContactKwargsFromTemba(org, cfg, fields, bs, parseDate, c).ward == ""
  {
  }

  /**
   * A ward in the result stands at the bottom of a chain of stored boundaries,
   * each named by the contact's own field value and each the child of the next.
   */
  lemma WardHasFullChain(
    org: OrgId, cfg: OrgConfig, fields: seq<ContactField>, bs: seq<Boundary>,
    parseDate: string -> Option<DateTime>, c: TembaContact)
    requires ContactKwargsFromTemba(org, cfg, fields, bs, parseDate, c).ward != ""
    ensures var r := ContactKwargsFromTemba(org, cfg, fields, bs, parseDate, c);
            exists s, d, w ::
              s in bs && d in bs && w in bs &&
              Some(s.name) == FieldValue(fields, org, cfg.stateLabel, c) && Named(s, org, State, s.name) &&
              Some(d.name) == FieldValue(fields, org, cfg.districtLabel, c) && Named(d, org, District, d.name) &&
              Some(w.name) == FieldValue(fields, org, cfg.wardLabel, c) && Named(w, org, Ward, w.name) &&
              d.parent == Some(s.id) && w.parent == Some(d.id) &&
              r.state == s.osmId && r.district == d.osmId && r.ward == w.osmId
  {
    var loc := ResolveLocation(org, cfg, fields, bs, c);
    var s, d, w := loc.state.value, loc.district.value, loc.ward.value;
    assert s in bs && d in bs && w in bs;
  }
}
