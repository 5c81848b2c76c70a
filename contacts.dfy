/**
 * The ContactField and Contact tables: upsert by identity ((org, key) for a
 * field, (org, uuid) for a contact), and the counter rows a new contact adds.
 */
module Contacts {
  import opened Wrappers
  import opened Tables
  import opened Text
  import opened Mapper
  import opened Counters

  // ---------------------------------------------------------------------------
  // ContactField

  /** Position of the field row of org with the given key. */
  function FindField(rows: seq<ContactField>, org: OrgId, key: string): Option<nat>
  {
    FirstMatch(rows, (f: ContactField) => f.org == org && f.key == key)
  }

  /** Ids increase along the table and stay below nextId; (org, key) identifies a row. */
  ghost predicate FieldsValid(rows: seq<ContactField>, nextId: nat)
  {
    && (forall i, j :: 0 <= i < j < |rows| ==> rows[i].id < rows[j].id)
    && (forall i :: 0 <= i < |rows| ==> rows[i].id < nextId)
    && (forall i, j :: 0 <= i < j < |rows| ==> !(rows[i].org == rows[j].org && rows[i].key == rows[j].key))
  }

  /**
   * ContactField.update_or_create_from_temba on a table: the new table, the
   * next free id, and the id of the row written.
   */
  function UpsertField(rows: seq<ContactField>, nextId: nat, kw: FieldKwargs): (r: (seq<ContactField>, nat, nat))
    ensures FindField(r.0, kw.org, kw.key).Some?
    ensures r.0[FindField(r.0, kw.org, kw.key).value] == ContactField(r.2, kw.org, kw.key, kw.title, kw.valueType)
    ensures FindField(rows, kw.org, kw.key).Some? ==> r.2 == rows[FindField(rows, kw.org, kw.key).value].id
    ensures |rows| <= |r.0| <= |rows| + 1 && r.1 - nextId == |r.0| - |rows|
    ensures forall j :: 0 <= j < |rows| && !(rows[j].org == kw.org && rows[j].key == kw.key) ==> r.0[j] == rows[j]
  {
    var p := (f: ContactField) => f.org == kw.org && f.key == kw.key;
    match FindField(rows, kw.org, kw.key)
    case Some(i) =>
      var f := rows[i].(title := kw.title, valueType := kw.valueType);
      FirstMatchUpdate(rows, i, f, p);
      (rows[i := f], nextId, rows[i].id)
    case None =>
      var f := ContactField(nextId, kw.org, kw.key, kw.title, kw.valueType);
      FirstMatchAppend(rows, f, p);
      (rows + [f], nextId + 1, nextId)
  }

  /** The upsert's result for a table that already holds the row of (org, key) at i. */
  lemma UpsertFieldUpdates(rows: seq<ContactField>, nextId: nat, kw: FieldKwargs, i: nat)
    requires FieldsValid(rows, nextId) && FindField(rows, kw.org, kw.key) == Some(i)
    ensures var (r, n, id) := UpsertField(rows, nextId, kw);
            && FieldsValid(r, n)
            && FindField(r, kw.org, kw.key) == Some(i)
            && r[i] == ContactField(id, kw.org, kw.key, kw.title, kw.valueType)
            && (forall j :: 0 <= j < |rows| && j != i ==> r[j] == rows[j])
            && |r| == |rows|
  {
    var r := UpsertField(rows, nextId, kw).0;
    FirstMatchUpdate(rows, i, r[i], (f: ContactField) => f.org == kw.org && f.key == kw.key);
  }

  /** The upsert's result for a table without a row of (org, key). */
  lemma UpsertFieldInserts(rows: seq<ContactField>, nextId: nat, kw: FieldKwargs)
    requires FieldsValid(rows, nextId) && FindField(rows, kw.org, kw.key).None?
    ensures var (r, n, id) := UpsertField(rows, nextId, kw);
            && FieldsValid(r, n)
            && FindField(r, kw.org, kw.key) == Some(|rows|)
            && r[|rows|] == ContactField(id, kw.org, kw.key, kw.title, kw.valueType)
            && r[..|rows|] == rows
            && |r| == |rows| + 1
  {
    var r := UpsertField(rows, nextId, kw).0;
    FirstMatchAppend(rows, r[|rows|], (f: ContactField) => f.org == kw.org && f.key == kw.key);
  }

  /**
   * The upsert keeps the table valid, leaves the row of (org, key) holding
   * exactly the parameters under the returned id, and keeps every other row:
   * an existing row is overwritten where it stands, otherwise exactly one row
   * is appended under the next id.
   */
  lemma UpsertFieldWrites(rows: seq<ContactField>, nextId: nat, kw: FieldKwargs)
    requires FieldsValid(rows, nextId)
    ensures var (r, n, id) := UpsertField(rows, nextId, kw);
            && FieldsValid(r, n)
            && FindField(r, kw.org, kw.key).Some?
            && r[FindField(r, kw.org, kw.key).value] == ContactField(id, kw.org, kw.key, kw.title, kw.valueType)
            && (forall f :: f in rows && !(f.org == kw.org && f.key == kw.key) ==> f in r)
            && (FindField(rows, kw.org, kw.key).Some? ==>
                  FindField(r, kw.org, kw.key) == FindField(rows, kw.org, kw.key) && |r| == |rows| && n == nextId)
            && (FindField(rows, kw.org, kw.key).None? ==>
                  r[..|rows|] == rows && |r| == |rows| + 1 && id == nextId && n == nextId + 1)
  {
    var r := UpsertField(rows, nextId, kw).0;
    match FindField(rows, kw.org, kw.key)
    case Some(i) =>
      UpsertFieldUpdates(rows, nextId, kw, i);
      forall f | f in rows && !(f.org == kw.org && f.key == kw.key)
        ensures f in r
      {
        var j :| 0 <= j < |rows| && rows[j] == f;
        assert r[j] == f;
      }
    case None =>
      UpsertFieldInserts(rows, nextId, kw);
      forall f | f in rows
        ensures f in r
      {
        var j :| 0 <= j < |rows| && rows[j] == f;
        assert r[j] == f;
      }
  }

  /**
   * Calling the upsert again for the same (org, key), with the same or new
   * title and value type, writes the same row: same id, no new row.
   */
  lemma UpsertFieldSameRow(rows: seq<ContactField>, nextId: nat, kw: FieldKwargs, kw2: FieldKwargs)
    requires kw2.org == kw.org && kw2.key == kw.key
    ensures var (r1, n1, id1) := UpsertField(rows, nextId, kw);
            var (r2, n2, id2) := UpsertField(r1, n1, kw2);
            id2 == id1 && n2 == n1 && |r2| == |r1|
  {
    var p := (f: ContactField) => f.org == kw.org && f.key == kw.key;
    var (r1, n1, id1) := UpsertField(rows, nextId, kw);
    match FindField(rows, kw.org, kw.key)
    case Some(i) =>
      FirstMatchUpdate(rows, i, r1[i], p);
    case None =>
      FirstMatchAppend(rows, r1[|rows|], p);
  }

  class FieldTable {
    var rows: seq<ContactField>
    var nextId: nat

    ghost predicate Valid()
      reads this
    {
      FieldsValid(rows, nextId)
    }

    constructor ()
      ensures Valid() && rows == [] && nextId == 0
    {
      rows := [];
      nextId := 0;
    }

    /** ContactField.update_or_create_from_temba(org, f): the id of the row written. */
    method UpdateOrCreateFromTemba(org: OrgId, f: TembaContactField) returns (id: nat)
      requires Valid()
      modifies this
      ensures Valid()
      ensures (rows, nextId, id) == UpsertField(old(rows), old(nextId), FieldKwargsFromTemba(org, f))
    {
      var kw := FieldKwargsFromTemba(org, f);
      match FindField(rows, org, f.key)
      case Some(i) =>
        UpsertFieldUpdates(rows, nextId, kw, i);
        id := rows[i].id;
        rows := rows[i := rows[i].(title := kw.title, valueType := kw.valueType)];
      case None =>
        UpsertFieldInserts(rows, nextId, kw);
        id := nextId;
        rows := rows + [ContactField(nextId, org, kw.key, kw.title, kw.valueType)];
        nextId := nextId + 1;
    }
  }

  // ---------------------------------------------------------------------------
  // Contact

  /** A local Contact row; born is nullable, the other columns use '' for "none". */
  datatype Contact = Contact(
    id: nat,
    org: OrgId,
    uuid: string,
    gender: string,
    born: Option<nat>,
    occupation: string,
    registeredOn: Option<DateTime>,
    state: string,
    district: string,
    ward: string)

  /** The row Contact.objects.create(**kw) stores under id. */
  function FromKwargs(id: nat, kw: ContactKwargs): Contact
  {
    Contact(id, kw.org, kw.uuid, kw.gender, Some(kw.born), kw.occupation, kw.registeredOn, kw.state, kw.district, kw.ward)
  }

  /** The row Contact.objects.create(org=org, uuid=uuid) stores under id: every other column unset. */
  function Blank(id: nat, org: OrgId, uuid: string): Contact
  {
    Contact(id, org, uuid, "", None, "", None, "", "", "")
  }

  /** Position of the contact row of org with the given uuid. */
  function FindContact(rows: seq<Contact>, org: OrgId, uuid: string): Option<nat>
  {
    FirstMatch(rows, (c: Contact) => c.org == org && c.uuid == uuid)
  }

  /** Ids increase along the table and stay below nextId; (org, uuid) identifies a row. */
  ghost predicate ContactsValid(rows: seq<Contact>, nextId: nat)
  {
    && (forall i, j :: 0 <= i < j < |rows| ==> rows[i].id < rows[j].id)
    && (forall i :: 0 <= i < |rows| ==> rows[i].id < nextId)
    && (forall i, j :: 0 <= i < j < |rows| ==> !(rows[i].org == rows[j].org && rows[i].uuid == rows[j].uuid))
  }

  /** Contact.get_or_create(org, uuid) on a table: the new table, the next free id, the id returned. */
  function GetOrCreateSpec(rows: seq<Contact>, nextId: nat, org: OrgId, uuid: string): (r: (seq<Contact>, nat, nat))
    ensures FindContact(r.0, org, uuid).Some? && r.0[FindContact(r.0, org, uuid).value].id == r.2
    ensures FindContact(rows, org, uuid).Some? ==> r.2 == rows[FindContact(rows, org, uuid).value].id
    ensures rows <= r.0 && |r.0| <= |rows| + 1 && r.1 - nextId == |r.0| - |rows|
  {
    match FindContact(rows, org, uuid)
    case Some(i) => (rows, nextId, rows[i].id)
    case None =>
      FirstMatchAppend(rows, Blank(nextId, org, uuid), (c: Contact) => c.org == org && c.uuid == uuid);
      (rows + [Blank(nextId, org, uuid)], nextId + 1, nextId)
  }

  /** Contact.update_or_create_from_temba on a table, given the mapped parameters. */
  function UpdateOrCreateSpec(rows: seq<Contact>, nextId: nat, kw: ContactKwargs): (r: (seq<Contact>, nat, nat))
    ensures FindContact(r.0, kw.org, kw.uuid).Some? && r.0[FindContact(r.0, kw.org, kw.uuid).value] == FromKwargs(r.2, kw)
    ensures FindContact(rows, kw.org, kw.uuid).Some? ==> r.2 == rows[FindContact(rows, kw.org, kw.uuid).value].id
    ensures |rows| <= |r.0| <= |rows| + 1 && r.1 - nextId == |r.0| - |rows|
    ensures forall j :: 0 <= j < |rows| && !(rows[j].org == kw.org && rows[j].uuid == kw.uuid) ==> r.0[j] == rows[j]
  {
    var p := (c: Contact) => c.org == kw.org && c.uuid == kw.uuid;
    match FindContact(rows, kw.org, kw.uuid)
    case Some(i) =>
      FirstMatchUpdate(rows, i, FromKwargs(rows[i].id, kw), p);
      (rows[i := FromKwargs(rows[i].id, kw)], nextId, rows[i].id)
    case None =>
      FirstMatchAppend(rows, FromKwargs(nextId, kw), p);
      (rows + [FromKwargs(nextId, kw)], nextId + 1, nextId)
  }

  /** A saved row of (org, uuid), found where it was stored, with id, org and uuid unchanged. */
  predicate SavesOver(rows: seq<Contact>, c: Contact)
  {
    FindContact(rows, c.org, c.uuid).Some? && rows[FindContact(rows, c.org, c.uuid).value].id == c.id
  }

  lemma AppendKeepsValid(rows: seq<Contact>, nextId: nat, c: Contact)
    requires ContactsValid(rows, nextId)
    requires c.id == nextId && FindContact(rows, c.org, c.uuid).None?
    ensures ContactsValid(rows + [c], nextId + 1)
    ensures FindContact(rows + [c], c.org, c.uuid) == Some(|rows|)
  {
    FirstMatchAppend(rows, c, (x: Contact) => x.org == c.org && x.uuid == c.uuid);
  }

  lemma UpdateKeepsValid(rows: seq<Contact>, nextId: nat, c: Contact)
    requires ContactsValid(rows, nextId) && SavesOver(rows, c)
    ensures var i := FindContact(rows, c.org, c.uuid).value;
            ContactsValid(rows[i := c], nextId) && FindContact(rows[i := c], c.org, c.uuid) == Some(i)
  {
    var i := FindContact(rows, c.org, c.uuid).value;
    FirstMatchUpdate(rows, i, c, (x: Contact) => x.org == c.org && x.uuid == c.uuid);
  }

  /**
   * get_or_create is idempotent: a second call for the same (org, uuid) returns
   * the same id and changes nothing; a first call that creates leaves born unset.
   */
  lemma GetOrCreateSameRow(rows: seq<Contact>, nextId: nat, org: OrgId, uuid: string)
    ensures var (r1, n1, id1) := GetOrCreateSpec(rows, nextId, org, uuid);
            && GetOrCreateSpec(r1, n1, org, uuid) == (r1, n1, id1)
            && (FindContact(rows, org, uuid).None? ==> r1[|rows|].born.None? && r1[|rows|].id == id1)
  {
    match FindContact(rows, org, uuid)
    case Some(i) =>
    case None =>
      FirstMatchAppend(rows, Blank(nextId, org, uuid), (x: Contact) => x.org == org && x.uuid == uuid);
  }

  /**
   * get_or_create does not overwrite: after a created row is saved with new
   * values, a second get_or_create returns that row's id and keeps the values.
   */
  lemma GetOrCreateKeepsSaved(rows: seq<Contact>, nextId: nat, org: OrgId, uuid: string, c: Contact)
    requires ContactsValid(rows, nextId)
    requires var (r1, n1, id1) := GetOrCreateSpec(rows, nextId, org, uuid);
             c.id == id1 && c.org == org && c.uuid == uuid
    ensures var (r1, n1, id1) := GetOrCreateSpec(rows, nextId, org, uuid);
            && SavesOver(r1, c)
            && var r2 := r1[FindContact(r1, org, uuid).value := c];
               GetOrCreateSpec(r2, n1, org, uuid) == (r2, n1, id1) && c in r2
  {
    var (r1, n1, id1) := GetOrCreateSpec(rows, nextId, org, uuid);
    GetOrCreateSameRow(rows, nextId, org, uuid);
    var i := FindContact(r1, org, uuid).value;
    FirstMatchUpdate(r1, i, c, (x: Contact) => x.org == org && x.uuid == uuid);
  }

  /**
   * update_or_create_from_temba keeps identity: a second call for the same
   * (org, uuid) returns the same id, adds no row, and leaves the row holding
   * the second call's values.
   */
  lemma UpdateOrCreateSameRow(rows: seq<Contact>, nextId: nat, kw: ContactKwargs, kw2: ContactKwargs)
    requires kw2.org == kw.org && kw2.uuid == kw.uuid
    ensures var (r1, n1, id1) := UpdateOrCreateSpec(rows, nextId, kw);
            var (r2, n2, id2) := UpdateOrCreateSpec(r1, n1, kw2);
            && id2 == id1 && n2 == n1 && |r2| == |r1|
            && FindContact(r2, kw.org, kw.uuid).Some?
            && r2[FindContact(r2, kw.org, kw.uuid).value] == FromKwargs(id1, kw2)
  {
    var p := (x: Contact) => x.org == kw.org && x.uuid == kw.uuid;
    var (r1, n1, id1) := UpdateOrCreateSpec(rows, nextId, kw);
    match FindContact(rows, kw.org, kw.uuid)
    case Some(i) =>
      FirstMatchUpdate(rows, i, r1[i], p);
      FirstMatchUpdate(r1, i, FromKwargs(id1, kw2), p);
    case None =>
      FirstMatchAppend(rows, r1[|rows|], p);
      FirstMatchUpdate(r1, |rows|, FromKwargs(id1, kw2), p);
  }

  // ---------------------------------------------------------------------------
  // Counter keys of a contact

  /** The date part of a time, written YYYY-MM-DD. */
  function DayString(t: DateTime): string
  {
    ZeroPad(DecimalString(t.year), 4) + "-" + ZeroPad(DecimalString(t.month), 2) + "-" + ZeroPad(DecimalString(t.day), 2)
  }

  /** Three parts of widths 4, 2 and 2 joined by dashes sit at fixed places. */
  lemma DashedParts(y: string, m: string, d: string)
    requires |y| == 4 && |m| == 2 && |d| == 2
    ensures var s := y + "-" + m + "-" + d;
            |s| == 10 && s[4] == '-' && s[7] == '-' && s[..4] == y && s[5..7] == m && s[8..] == d
  {
  }

  /**
   * The day reads back from its key: for a four-digit year and two-digit month
   * and day, the string is YYYY-MM-DD and each part parses to its number.
   */
  lemma DayStringReadsBack(t: DateTime)
    requires t.year < 10000 && t.month < 100 && t.day < 100
    ensures var d := DayString(t);
            && |d| == 10 && d[4] == '-' && d[7] == '-'
            && ParseDecimal(d[..4]) == Some(t.year)
            && ParseDecimal(d[5..7]) == Some(t.month)
            && ParseDecimal(d[8..]) == Some(t.day)
  {
    assert Pow10(2) == 100;
    assert Pow10(4) == 100 * Pow10(2);
    PaddedField(t.year, 4);
    PaddedField(t.month, 2);
    PaddedField(t.day, 2);
    DashedParts(ZeroPad(DecimalString(t.year), 4), ZeroPad(DecimalString(t.month), 2), ZeroPad(DecimalString(t.day), 2));
  }

  const TotalReporters := "total-reporters"

  /** One counted dimension of a contact: whether it is populated, and the key it is counted under. */
  datatype Dimension = Dimension(populated: bool, prefix: string, value: string)
  {
    function Key(): string { prefix + value }
  }

  /**
   * The dimensions of a contact in counting order: the total, gender and
   * occupation lower-cased, the birth year, the registration day, and the
   * three boundaries by osm_id.
   */
  function Dimensions(c: Contact): (ds: seq<Dimension>)
    ensures |ds| == 8
  {
    [ Dimension(true, TotalReporters, ""),
      Dimension(c.gender != "", "gender:", Lower(c.gender)),
      Dimension(c.occupation != "", "occupation:", Lower(c.occupation)),
      Dimension(c.born.Some? && c.born.value != 0, "born:", if c.born.Some? then DecimalString(c.born.value) else ""),
      Dimension(c.registeredOn.Some?, "registered_on:", if c.registeredOn.Some? then DayString(c.registeredOn.value) else ""),
      Dimension(c.state != "", "state:", c.state),
      Dimension(c.district != "", "district:", c.district),
      Dimension(c.ward != "", "ward:", c.ward) ]
  }

  /** The keys of the populated dimensions, in order. */
  function PopulatedKeys(ds: seq<Dimension>): (ks: seq<string>)
    ensures |ks| <= |ds|
  {
    if ds == [] then []
    else (if ds[0].populated then [ds[0].Key()] else []) + PopulatedKeys(ds[1..])
  }

  /** The counter types a newly created contact adds one to. */
  function CounterKinds(c: Contact): (ks: seq<string>)
    ensures 1 <= |ks| <= 8 && ks[0] == TotalReporters
  {
    assert Dimensions(c)[0].Key() == TotalReporters + "" == TotalReporters;
    PopulatedKeys(Dimensions(c))
  }

  /**
   * k is the key of one of c's populated dimensions, written out per dimension:
   * the counter types the creation of c may add to.
   */
  predicate CountedKey(c: Contact, k: string)
  {
    || k == TotalReporters
    || (c.gender != "" && k == "gender:" + Lower(c.gender))
    || (c.occupation != "" && k == "occupation:" + Lower(c.occupation))
    || (c.born.Some? && c.born.value != 0 && k == "born:" + DecimalString(c.born.value))
    || (c.registeredOn.Some? && k == "registered_on:" + DayString(c.registeredOn.value))
    || (c.state != "" && k == "state:" + c.state)
    || (c.district != "" && k == "district:" + c.district)
    || (c.ward != "" && k == "ward:" + c.ward)
  }

  /** Every prefix is non-empty and no two prefixes start with the same letter. */
  predicate DistinctTags(ds: seq<Dimension>)
  {
    && (forall i :: 0 <= i < |ds| ==> |ds[i].prefix| > 0)
    && (forall i, j :: 0 <= i < j < |ds| ==> ds[i].prefix[0] != ds[j].prefix[0])
  }

  /** Keys of dimensions whose prefixes avoid a letter do not start with it. */
  lemma {:induction false} KeysAvoid(ds: seq<Dimension>, ch: char, k: string)
    requires forall i :: 0 <= i < |ds| ==> |ds[i].prefix| > 0 && ds[i].prefix[0] != ch
    ensures k in PopulatedKeys(ds) ==> |k| > 0 && k[0] != ch
  {
    if ds != [] {
      assert forall i :: 0 <= i < |ds[1..]| ==> ds[1..][i] == ds[i + 1];
      KeysAvoid(ds[1..], ch, k);
      assert ds[0].Key()[0] == ds[0].prefix[0];
    }
  }

  /** A dimension's key is listed exactly when the dimension is populated. */
  lemma {:induction false} PopulatedKeyListed(ds: seq<Dimension>, i: nat)
    requires DistinctTags(ds) && i < |ds|
    ensures ds[i].Key() in PopulatedKeys(ds) <==> ds[i].populated
  {
    var k := ds[i].Key();
    assert k[0] == ds[i].prefix[0];
    assert forall j :: 0 <= j < |ds[1..]| ==> ds[1..][j] == ds[j + 1];
    if i == 0 {
      KeysAvoid(ds[1..], ds[0].prefix[0], k);
    } else {
      assert ds[0].Key()[0] == ds[0].prefix[0];
      PopulatedKeyListed(ds[1..], i - 1);
    }
  }

  /** No key is listed twice. */
  lemma {:induction false} PopulatedKeysOnce(ds: seq<Dimension>, k: string)
    requires DistinctTags(ds)
    ensures multiset(PopulatedKeys(ds))[k] == if k in PopulatedKeys(ds) then 1 else 0
  {
    if ds != [] {
      assert forall j :: 0 <= j < |ds[1..]| ==> ds[1..][j] == ds[j + 1];
      PopulatedKeysOnce(ds[1..], k);
      KeysAvoid(ds[1..], ds[0].prefix[0], ds[0].Key());
      assert ds[0].Key()[0] == ds[0].prefix[0];
    }
  }

  /** The eight dimensions of a contact carry prefixes with eight different first letters. */
  lemma DimensionsTagged(c: Contact)
    ensures DistinctTags(Dimensions(c))
  {
  }

  /** Every listed key is the key of a populated dimension. */
  lemma {:induction false} PopulatedKeyFrom(ds: seq<Dimension>, k: string)
    requires k in PopulatedKeys(ds)
    ensures exists i :: 0 <= i < |ds| && ds[i].populated && ds[i].Key() == k
  {
    if !(ds[0].populated && ds[0].Key() == k) {
      PopulatedKeyFrom(ds[1..], k);
      var i :| 0 <= i < |ds[1..]| && ds[1..][i].populated && ds[1..][i].Key() == k;
      assert ds[i + 1] == ds[1..][i];
    }
  }

  /** A counter type of a contact is the key of one of its populated dimensions. */
  lemma CounterKindsOnly(c: Contact, k: string)
    requires k in CounterKinds(c)
    ensures CountedKey(c, k)
  {
    var ds := Dimensions(c);
    PopulatedKeyFrom(ds, k);
    var i :| 0 <= i < |ds| && ds[i].populated && ds[i].Key() == k;
    // One branch per dimension position, so each disjunct of CountedKey is met on its own.
    if i == 0 {
      assert TotalReporters + "" == TotalReporters;
    } else if i == 1 {
    } else if i == 2 {
    } else if i == 3 {
    } else if i == 4 {
    } else if i == 5 {
    } else if i == 6 {
    } else {
    }
  }

  /** The key of a contact without a birth year (or with year 0), or without a registration date, has no such dimension. */
  lemma CounterKindsUnset(c: Contact, k: string)
    requires k in CounterKinds(c)
    ensures CountedKey(c, k)
    ensures (c.born.None? || c.born == Some(0)) ==> !("born:" <= k)
    ensures c.registeredOn.None? ==> !("registered_on:" <= k)
  {
    CounterKindsOnly(c, k);
    assert k[0] != 'b' ==> !("born:" <= k);
    assert k[0] != 'r' ==> !("registered_on:" <= k);
  }

  /**
   * Each populated dimension has its key and an unpopulated one has none; no
   * other key is listed, and an unset birth year or registration date gives
   * no key of that dimension at all.
   */
  lemma CounterKindsMeaning(c: Contact)
    ensures var ks := CounterKinds(c);
            && TotalReporters in ks
            && (("gender:" + Lower(c.gender)) in ks <==> c.gender != "")
            && (("occupation:" + Lower(c.occupation)) in ks <==> c.occupation != "")
            && (forall n :: c.born == Some(n) ==> (("born:" + DecimalString(n)) in ks <==> n != 0))
            && (forall t :: c.registeredOn == Some(t) ==> ("registered_on:" + DayString(t)) in ks)
            && (("state:" + c.state) in ks <==> c.state != "")
            && (("district:" + c.district) in ks <==> c.district != "")
            && (("ward:" + c.ward) in ks <==> c.ward != "")
            && (forall k :: k in ks ==> CountedKey(c, k))
            && ((c.born.None? || c.born == Some(0)) ==> forall k :: k in ks ==> !("born:" <= k))
            && (c.registeredOn.None? ==> forall k :: k in ks ==> !("registered_on:" <= k))
  {
    forall k | k in CounterKinds(c)
      ensures CountedKey(c, k)
      ensures (c.born.None? || c.born == Some(0)) ==> !("born:" <= k)
      ensures c.registeredOn.None? ==> !("registered_on:" <= k)
    {
      CounterKindsUnset(c, k);
    }
    var ds := Dimensions(c);
    DimensionsTagged(c);
    assert TotalReporters + "" == TotalReporters;
    PopulatedKeyListed(ds, 0);
    PopulatedKeyListed(ds, 1);
    PopulatedKeyListed(ds, 2);
    PopulatedKeyListed(ds, 3);
    PopulatedKeyListed(ds, 4);
    PopulatedKeyListed(ds, 5);
    PopulatedKeyListed(ds, 6);
    PopulatedKeyListed(ds, 7);
  }

  /** No counter type is listed twice for one contact. */
  lemma CounterKindsOnce(c: Contact, k: string)
    ensures multiset(CounterKinds(c))[k] == if k in CounterKinds(c) then 1 else 0
  {
    DimensionsTagged(c);
    PopulatedKeysOnce(Dimensions(c), k);
  }

  class ContactTable {
    var rows: seq<Contact>
    var nextId: nat
    /** The ReportersCounter table that contact creation adds to. */
    const counters: CounterTable

    ghost predicate Valid()
      reads this, counters
    {
      counters.Valid() && ContactsValid(rows, nextId)
    }

    constructor (counters: CounterTable)
      requires counters.Valid()
      ensures Valid() && this.counters == counters && rows == [] && nextId == 0
    {
      this.counters := counters;
      rows := [];
      nextId := 0;
    }

    /** Stores a new row and, as its save hook does, one count-1 counter row per counter type of it. */
    method Add(c: Contact)
      requires Valid()
      requires c.id == nextId && FindContact(rows, c.org, c.uuid).None?
      modifies this, counters
      ensures Valid()
      ensures rows == old(rows) + [c] && nextId == old(nextId) + 1
      ensures counters.rows == old(counters.rows) + Increments(c.org, CounterKinds(c), old(counters.nextId))
      ensures counters.nextId == old(counters.nextId) + |CounterKinds(c)|
      ensures counters.squashes == old(counters.squashes)
    {
      AppendKeepsValid(rows, nextId, c);
      rows := rows + [c];
      nextId := nextId + 1;
      counters.AddCounts(c.org, CounterKinds(c));
    }

    /**
     * Contact.objects.create(**kw): the id of the new row, or None, changing
     * nothing, when the org already has a contact with that uuid (the
     * uniqueness of (org, uuid) rejects the insert).
     */
    method Create(kw: ContactKwargs) returns (id: Option<nat>)
      requires Valid()
      modifies this, counters
      ensures Valid()
      ensures id.None? <==> FindContact(old(rows), kw.org, kw.uuid).Some?
      ensures id.None? ==> rows == old(rows) && nextId == old(nextId) &&
                           counters.rows == old(counters.rows) && counters.nextId == old(counters.nextId)
      ensures id.Some? ==> id.value == old(nextId) && nextId == old(nextId) + 1
      ensures id.Some? ==> rows == old(rows) + [FromKwargs(id.value, kw)]
      ensures id.Some? ==> counters.rows == old(counters.rows) + Increments(kw.org, CounterKinds(FromKwargs(id.value, kw)), old(counters.nextId))
      ensures id.Some? ==> counters.nextId == old(counters.nextId) + |CounterKinds(FromKwargs(id.value, kw))|
      ensures counters.squashes == old(counters.squashes)
    {
      if FindContact(rows, kw.org, kw.uuid).Some? {
        return None;
      }
      id := Some(nextId);
      Add(FromKwargs(nextId, kw));
    }

    /** contact.save() of a row read from the table: the row is overwritten in place; no counter row is added. */
    method Save(c: Contact)
      requires Valid() && SavesOver(rows, c)
      modifies this
      ensures Valid()
      ensures rows == old(rows)[FindContact(old(rows), c.org, c.uuid).value := c] && nextId == old(nextId)
    {
      UpdateKeepsValid(rows, nextId, c);
      rows := rows[FindContact(rows, c.org, c.uuid).value := c];
    }

    /** Contact.get_or_create(org, uuid): the existing row's id, or the id of a new row with only org and uuid set. */
    method GetOrCreate(org: OrgId, uuid: string) returns (id: nat)
      requires Valid()
      modifies this, counters
      ensures Valid()
      ensures (rows, nextId, id) == GetOrCreateSpec(old(rows), old(nextId), org, uuid)
      ensures FindContact(old(rows), org, uuid).Some? ==>
                counters.rows == old(counters.rows) && counters.nextId == old(counters.nextId)
      ensures FindContact(old(rows), org, uuid).None? ==>
                counters.rows == old(counters.rows) + Increments(org, CounterKinds(Blank(id, org, uuid)), old(counters.nextId)) &&
                counters.nextId == old(counters.nextId) + |CounterKinds(Blank(id, org, uuid))|
      ensures counters.squashes == old(counters.squashes)
    {
      match FindContact(rows, org, uuid)
      case Some(i) =>
        id := rows[i].id;
      case None =>
        id := nextId;
        Add(Blank(id, org, uuid));
    }

    /** The upsert by (org, uuid) with already mapped parameters: overwrite the row in place, or create one. */
    method UpdateOrCreate(kw: ContactKwargs) returns (id: nat)
      requires Valid()
      modifies this, counters
      ensures Valid()
      ensures (rows, nextId, id) == UpdateOrCreateSpec(old(rows), old(nextId), kw)
      ensures FindContact(old(rows), kw.org, kw.uuid).Some? ==>
                counters.rows == old(counters.rows) && counters.nextId == old(counters.nextId)
      ensures FindContact(old(rows), kw.org, kw.uuid).None? ==>
                counters.rows == old(counters.rows) + Increments(kw.org, CounterKinds(FromKwargs(id, kw)), old(counters.nextId)) &&
                counters.nextId == old(counters.nextId) + |CounterKinds(FromKwargs(id, kw))|
      ensures counters.squashes == old(counters.squashes)
    {
      match FindContact(rows, kw.org, kw.uuid)
      case Some(i) =>
        id := rows[i].id;
        UpdateKeepsValid(rows, nextId, FromKwargs(id, kw));
        rows := rows[i := FromKwargs(id, kw)];
      case None =>
        id := nextId;
        Add(FromKwargs(id, kw));
    }

    /**
     * Contact.update_or_create_from_temba(org, tc): maps the remote contact and
     * overwrites the row of its uuid in place, or creates one.
     */
    method UpdateOrCreateFromTemba(
      org: OrgId, cfg: OrgConfig, fields: seq<ContactField>, bs: seq<Boundary>,
      parseDate: string -> Option<DateTime>, tc: TembaContact) returns (id: nat)
      requires Valid()
      modifies this, counters
      ensures Valid()
      ensures var kw := ContactKwargsFromTemba(org, cfg, fields, bs, parseDate, tc);
              && (rows, nextId, id) == UpdateOrCreateSpec(old(rows), old(nextId), kw)
              && (FindContact(old(rows), org, tc.uuid).Some? ==>
                    counters.rows == old(counters.rows) && counters.nextId == old(counters.nextId))
              && (FindContact(old(rows), org, tc.uuid).None? ==>
                    counters.rows == old(counters.rows) + Increments(org, CounterKinds(FromKwargs(id, kw)), old(counters.nextId)) &&
                    counters.nextId == old(counters.nextId) + |CounterKinds(FromKwargs(id, kw))|)
      ensures counters.squashes == old(counters.squashes)
    {
      var kw := ContactKwargsFromTemba(org, cfg, fields, bs, parseDate, tc);
      id := UpdateOrCreate(kw);
    }
  }

  /**
   * Creating a contact adds exactly one to every counter type it lists and
   * makes a listed type appear; every other type of the org is unchanged.
   */
  lemma CreateCountsOnce(rows: seq<Counter>, c: Contact, firstId: nat, keys: Option<set<string>>, k: string)
    requires Selected(keys, k)
    ensures var before, after := Counts(rows, c.org, keys), Counts(rows + Increments(c.org, CounterKinds(c), firstId), c.org, keys);
            && (k in after <==> k in before || k in CounterKinds(c))
            && (k in after ==> after[k] == (if k in before then before[k] else 0) + (if k in CounterKinds(c) then 1 else 0))
  {
    CounterKindsOnce(c, k);
    CountsAfterIncrements(rows, c.org, CounterKinds(c), firstId, keys, k);
  }

  /**
   * The whole get_counts answer after a contact is created: a type is present
   * when it was before or the contact lists it, and its count goes up by one
   * exactly when the contact lists it.
   */
  lemma CreateCountsMap(rows: seq<Counter>, c: Contact, firstId: nat, before: map<string, int>, after: map<string, int>)
    requires Counts(rows, c.org, None) == before
    requires forall k :: k in after <==> k in before || k in CounterKinds(c)
    requires forall k :: k in after ==> after[k] == (if k in before then before[k] else 0) + (if k in CounterKinds(c) then 1 else 0)
    ensures Counts(rows + Increments(c.org, CounterKinds(c), firstId), c.org, None) == after
  {
    var now := Counts(rows + Increments(c.org, CounterKinds(c), firstId), c.org, None);
    forall k
      ensures k in now <==> k in after
      ensures k in now ==> now[k] == after[k]
    {
      CreateCountsOnce(rows, c, firstId, None, k);
    }
  }
}
