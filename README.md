# U-Report contacts: field and contact sync, reporter counters, contact pull

This project models the contacts core of U-Report, a Django application. It
mirrors the custom fields, boundaries and contacts of an organisation ("org")
from the remote messaging backend (Temba). The model covers the behaviour
that `ureport/contacts/tests.py` asserts:

- **Mapping remote records** (module `Mapper`, pure functions):
  - `ContactField.kwargs_from_temba` copies a remote field's key, label and value type and adds the org.
  - `Contact.kwargs_from_temba` turns a remote contact's `fields` dictionary into local columns.
    - The org configuration names the label of each role (registration date, state, district, ward, occupation, born, gender).
    - The org's `ContactField` rows map each label to a key.
    - The key selects the value from the contact's fields.
  - Values are normalised:
    - gender becomes `'F'`/`'M'` through the configured female and male labels;
    - born becomes a decimal year, or 0;
    - a missing value becomes `''`, `0` or no date.
  - State, district and ward are resolved against the boundary tree. A district or ward is accepted only under the boundary resolved one level up.
- **Upserts keyed by identity** (module `Contacts`, classes `FieldTable` and `ContactTable`):
  - `ContactField.update_or_create_from_temba` upserts on (org, key).
  - `Contact.get_or_create` and `Contact.update_or_create_from_temba` upsert on (org, uuid).
  - A repeated call returns the same row.
  - Creating a contact adds one count-1 `ReportersCounter` row per populated dimension, namely:
    - `total-reporters`;
    - `gender:<lower-cased>` and `occupation:<lower-cased>`;
    - `born:<year>` and `registered_on:<YYYY-MM-DD>`;
    - `state:`, `district:` and `ward:` followed by the boundary's osm id.
- **The reporter counter table** (module `Counters`, class `CounterTable`):
  - It is a bag of rows (id, org, type, count).
  - `get_counts` sums the rows per type, optionally restricted to a list of keys.
  - `squash_counts` replaces every group of rows of one (org, type) with a single fresh row that holds their sum. Single rows are left alone.
- **The `pull_contacts` task** (module `Tasks`):
  - It stores the created/updated/deleted counts of the three backend pulls as the org's `contact-pull` result.
  - It then squashes the counters exactly once.

Helper modules:
- `Tables` holds first-match search over a table.
- `Text` holds decimal numerals, zero padding and ASCII lower-casing.
- `Wrappers` holds `Option`.
- `Scenarios` restates the test fixtures (the Nigeria org, its fields and boundaries, the counter rows and the pull reports). It proves that the model gives the values the tests expect: the mapped columns, the counter types and the `get_counts` answers after each creation, the squash result and the recorded pull result.

Stored tables are sequences of rows. Ids come from a `nextId` counter, standing in for database primary keys. Each table's invariant says that ids increase along the table and that the identifying pair, (org, key) or (org, uuid), occurs at most once.

The test at `ureport/contacts/tests.py:259` uses `assertTrue(count, 5)`, which only checks that the merged count is non-zero. The model proves the intended value: 2 + 3 = 5.

## Model

| member | source | states |
|---|---|---|
| Mapper.FieldKwargsFromTemba | ureport/contacts/tests.py:23-30 | the parameters carry the given org, and reading them back as a remote field gives exactly the field that was passed in (key, label and value type unchanged) |
| Mapper.FieldKey | ureport/contacts/tests.py:73-83 | a key is found exactly when the org has a field with that label, and the key found belongs to such a field |
| Mapper.FieldValue | ureport/contacts/tests.py:101-146 | when the label maps to a key that the contact has, the result is exactly the contact's value under that key (null included); when the label maps to no key, or the contact lacks the key, the result is None |
| Mapper.Gender | ureport/contacts/tests.py:118-130 | the result is 'F' exactly for the non-empty configured female label, 'M' exactly for the non-empty male label (if it differs from the female one), and '' otherwise |
| Mapper.Born | ureport/contacts/tests.py:112-130 | a present decimal numeral gives its value; an absent or non-numeric value gives 0 |
| Mapper.Occupation | ureport/contacts/tests.py:112-130 | the value itself, or '' when absent |
| Mapper.RegisteredOn | ureport/contacts/tests.py:128-130 | a date exactly when the value is present, non-empty and parses; the date is the parsed one |
| Mapper.ResolveState | ureport/contacts/tests.py:118-133 | a boundary is resolved exactly when some state boundary of the org has the given name, and the result is such a boundary |
| Mapper.ResolveChild | ureport/contacts/tests.py:135-149 | a boundary is resolved exactly when the name is present, the parent was resolved, and a boundary of that level and name lies directly under the parent; the result is such a boundary |
| Mapper.ResolveLocation | ureport/contacts/tests.py:135-180 | a resolved district lies under the resolved state, and a resolved ward lies under the resolved district |
| Mapper.ContactKwargsFromTemba | ureport/contacts/tests.py:101-149 | the columns keep the org and uuid, and gender is one of '', 'F', 'M' |
| Mapper.AbsentValuesGiveDefaults | ureport/contacts/tests.py:101-116 | when every configured field is absent or null, the columns are gender '', born 0, occupation '', no registration date, and state, district and ward '' |
| Mapper.UnknownStateClearsLocation | ureport/contacts/tests.py:118-133 | a state name that resolves to nothing clears state, district and ward, whatever the district name |
| Mapper.UnknownDistrictClearsWard | ureport/contacts/tests.py:167-180 | a district that resolves to nothing clears the ward, whatever the ward name |
| Mapper.WardHasFullChain | ureport/contacts/tests.py:135-149 | a non-empty ward means stored state, district and ward boundaries exist, each named by the contact's value and each the child of the one above; the three columns are their osm ids |
| Contacts.UpsertFieldWrites | ureport/contacts/tests.py:32-42 | the upsert keeps the table invariant; afterwards the (org, key) row holds the returned id with the new label and value type, and every other row is kept; an existing row is overwritten where it stands, with no new id used; otherwise exactly one row is appended, under the next id |
| Contacts.UpsertFieldUpdates | ureport/contacts/tests.py:40-42 | for a table that already holds the (org, key) row at i: the invariant is kept, the row stays at i with its id and the new label and value type, every other row is unchanged, and the table keeps its length |
| Contacts.UpsertFieldInserts | ureport/contacts/tests.py:34-38 | for a table without the (org, key) row: the invariant is kept, the old rows are a prefix of the new table, and the one new row at the end holds the parameters under the returned id |
| Contacts.UpsertField | ureport/contacts/tests.py:32-42 | afterwards the (org, key) row holds the returned id with the new label and value type; an existing row keeps its id; rows of other keys are unchanged; the table grows by at most one row, and the next id advances exactly when it grows |
| Contacts.UpsertFieldSameRow | ureport/contacts/tests.py:32-42 | a second upsert with the same (org, key) returns the same id and adds no row |
| Contacts.FieldTable.UpdateOrCreateFromTemba | ureport/contacts/tests.py:32-42 | the table and the id returned are the upsert of the mapped parameters, and the invariant is kept |
| Contacts.AppendKeepsValid | ureport/contacts/tests.py:85-99 | appending a row with a fresh id and an unused (org, uuid) keeps the invariant, and the new row is the one found for its (org, uuid) |
| Contacts.UpdateKeepsValid | ureport/contacts/tests.py:94-95 | saving a row over the one stored for its (org, uuid) keeps the invariant and the row's position |
| Contacts.GetOrCreateSpec | ureport/contacts/tests.py:85-99 | afterwards the (org, uuid) row exists and holds the returned id; an existing row's id is returned; the old table is a prefix of the new one; at most one row is added, and the next id advances exactly when one is |
| Contacts.UpdateOrCreateSpec | ureport/contacts/tests.py:151-165 | afterwards the (org, uuid) row holds exactly the mapped parameters under the returned id; an existing row keeps its id; rows of other contacts are unchanged; at most one row is added, and the next id advances exactly when one is |
| Contacts.GetOrCreateSameRow | ureport/contacts/tests.py:85-99 | get_or_create is idempotent: a second call returns the same id and changes nothing; a created row has born unset |
| Contacts.GetOrCreateKeepsSaved | ureport/contacts/tests.py:85-99 | after the created row is saved with new values, get_or_create returns its id and leaves the saved values in place |
| Contacts.ContactTable.GetOrCreate | ureport/contacts/tests.py:85-99 | the table and the id match the get_or_create specification; an existing contact adds no counter row; a created contact adds its counter rows and advances the counter ids by their number; nothing is squashed |
| Contacts.UpdateOrCreateSameRow | ureport/contacts/tests.py:151-165 | a second update_or_create with the same (org, uuid) returns the same id, adds no row, and leaves that row holding the second call's values |
| Contacts.ContactTable.UpdateOrCreate | ureport/contacts/tests.py:151-165 | the table and the id match the upsert specification; the counters change only when a contact is created, and then by its counter rows under fresh ids |
| Contacts.ContactTable.UpdateOrCreateFromTemba | ureport/contacts/tests.py:151-165 | the upsert of the parameters mapped from the remote contact |
| Contacts.ContactTable.Add | ureport/contacts/tests.py:182-195 | the row is appended, and the counter table gains exactly one count-1 row per counter type of the contact, under fresh ids |
| Contacts.ContactTable.Create | ureport/contacts/tests.py:183-195 | `objects.create(**kwargs)` appends the row under the next id and adds the contact's counter rows; for a uuid the org already has, it returns the error result and changes nothing |
| Contacts.ContactTable.Save | ureport/contacts/tests.py:94-95 | the stored row of (org, uuid) is overwritten in place, and no id or counter row is used up |
| Contacts.CounterKindsMeaning | ureport/contacts/tests.py:200-230 | total-reporters is always counted; gender and occupation are counted lower-cased exactly when non-empty; born exactly when non-zero; registration by its day; state, district and ward by osm id exactly when non-empty; no other key is listed, and an unset or zero birth year or an unset registration date gives no key of that dimension |
| Contacts.CounterKindsOnly | ureport/contacts/tests.py:200-213 | every listed counter type is the key of one of the contact's populated dimensions |
| Contacts.Dimensions | ureport/contacts/tests.py:204-211 | a contact is counted along exactly eight dimensions: total, gender, occupation, born, registration day, state, district and ward |
| Contacts.DimensionsTagged | ureport/contacts/tests.py:204-211 | the eight dimension prefixes start with eight different letters, so keys of different dimensions never collide |
| Contacts.CounterKinds | ureport/contacts/tests.py:204-211 | a contact has between one and eight counter types, and total-reporters comes first |
| Contacts.DayStringReadsBack | ureport/contacts/tests.py:208-223 | the registration key is the day alone: for a four-digit year it is YYYY-MM-DD, and each part parses back to the year, month and day (the time of day is not part of it) |
| Contacts.CounterKindsOnce | ureport/contacts/tests.py:182-213 | no counter type is listed twice for one contact |
| Contacts.PopulatedKeyListed | ureport/contacts/tests.py:200-213 | a dimension's key is listed exactly when the dimension is populated |
| Contacts.CreateCountsMap | ureport/contacts/tests.py:215-230 | given the get_counts answer before a contact is created, the answer afterwards is the map holding every old type and every listed type, each listed type raised by one |
| Contacts.CreateCountsOnce | ureport/contacts/tests.py:215-230 | creating a contact raises each of its counter types by exactly one, makes a type appear if it was absent, and leaves every other type unchanged |
| Counters.CountsEmpty | ureport/contacts/tests.py:199 | an empty table gives empty counts |
| Counters.Counts | ureport/contacts/tests.py:198-233 | a type is in the answer exactly when it is selected and the org has rows of it, and its value is the sum of those rows |
| Counters.CountsRestricted | ureport/contacts/tests.py:232-233 | with a key list, the answer is the full answer restricted to exactly those keys |
| Counters.CountsAppend | ureport/contacts/tests.py:182-195 | one more row of the org and a selected type adds its count to that type's entry (starting from 0); otherwise the answer is unchanged |
| Counters.CountsAfterIncrements | ureport/contacts/tests.py:215-230 | after count-1 rows for a list of types, each selected type gains its number of occurrences in the list |
| Counters.Increments | ureport/contacts/tests.py:182-195 | one row per listed type, in order: row i is a count-1 row of the org with type kinds[i] and id firstId + i |
| Counters.CounterTable.Create | ureport/contacts/tests.py:241-243 | a row (id, org, type, count) is appended under the next id |
| Counters.CounterTable.AddCounts | ureport/contacts/tests.py:182-195 | one count-1 row per listed type is appended under consecutive fresh ids |
| Counters.CounterTable.GetCounts | ureport/contacts/tests.py:182-233 | the loop returns exactly the per-type sums of the specification, over the selected keys |
| Counters.CounterTable.Tally | ureport/contacts/tests.py:245-246 | the number of rows of a bucket and the sum of their counts |
| Counters.CounterTable.DistinctBuckets | ureport/contacts/tests.py:248 | the (org, type) buckets of the table, each once, in order of first appearance |
| Counters.CounterTable.RowsOutside | ureport/contacts/tests.py:248 | the rows of every other bucket, in order |
| Counters.CounterTable.SquashBucketRows | ureport/contacts/tests.py:248-253 | one bucket is squashed as specified, and the invariant is kept |
| Counters.CounterTable.SquashCounts | ureport/contacts/tests.py:236-259 | the table afterwards is the squash of the old table, the invariant (ids increasing, below the next id) is kept, and the squash is recorded as having run once more |
| Counters.Squash | ureport/contacts/tests.py:248-250 | squashing never adds rows (the table can only shrink) and never lowers the next id |
| Counters.SquashKeepsSums | ureport/contacts/tests.py:248-259 | every (org, type) keeps its total count |
| Counters.SquashLeavesOneRow | ureport/contacts/tests.py:250-253 | a bucket that had rows has exactly one row afterwards, and an empty bucket stays empty |
| Counters.SquashKeepsCounts | ureport/contacts/tests.py:248-259 | get_counts gives the same answer before and after a squash |
| Counters.SquashIdempotent | ureport/contacts/tests.py:248 | squashing a squashed table changes nothing |
| Counters.SquashKeepsSingles | ureport/contacts/tests.py:255 | a row that is alone in its bucket survives unchanged, with its id |
| Counters.SquashRemovesMerged | ureport/contacts/tests.py:252 | no row afterwards has the id of a row from a bucket that held several rows |
| Tasks.Recorded | ureport/contacts/tests.py:279-283 | the recorded stage result is the first three components (created, updated, deleted) of the pull report |
| Tasks.RunResult | ureport/contacts/tests.py:279-283 | each of the fields, boundaries and contacts entries holds the created, updated and deleted counts of that stage's report |
| Tasks.RunResultIgnoresIgnored | ureport/contacts/tests.py:270-283 | the recorded result does not depend on the fourth (ignored) component of any pull report |
| Tasks.TaskStates.SetLastResult | ureport/contacts/tests.py:278-283 | the (org, task key) entry is replaced by the new result; other entries stay |
| Tasks.PullContacts | ureport/contacts/tests.py:270-285 | the org's contact-pull result is the recorded run result, the counter table becomes the squash of the old one, and the squash runs exactly once |
| Text.ParseDecimalRoundTrip | ureport/contacts/tests.py:200-213 | reading back the decimal numeral of a year gives the year |
| Text.PaddedField | ureport/contacts/tests.py:209 | a number below 10^width, zero-padded to width, takes exactly width characters and reads back as the number |
| Scenarios.NullContactKwargs | ureport/contacts/tests.py:101-116 | with the Nigeria configuration and every field null, the columns of C-006 are the expected defaults |
| Scenarios.UnknownStateKwargs | ureport/contacts/tests.py:118-133 | C-007 (state Kigali, LGA Oyo, Male, 1990, Student) maps to gender 'M', born 1990, occupation 'Student', the parsed date, and empty state, district and ward |
| Scenarios.FullChainKwargs | ureport/contacts/tests.py:135-149 | C-008 maps to R-LAGOS, R-OYO and R-IKEJA with the same other columns |
| Scenarios.EmptyDistrictKwargs | ureport/contacts/tests.py:167-180 | C-0011, with an empty LGA and ward Ikeja, maps to state R-LAGOS and empty district and ward |
| Scenarios.C006Kwargs | ureport/contacts/tests.py:103-113 | the literal C-006 contact, against the Nigeria fields and boundaries, maps to the default columns |
| Scenarios.C007Kwargs | ureport/contacts/tests.py:119-130 | the literal C-007 contact maps to 'M', 1990, 'Student', the parsed date and empty state, district and ward |
| Scenarios.C008Kwargs | ureport/contacts/tests.py:135-146 | the literal C-008 contact maps to R-LAGOS, R-OYO and R-IKEJA with the same other columns |
| Scenarios.C0011Kwargs | ureport/contacts/tests.py:169-180 | the literal C-0011 contact maps to state R-LAGOS and empty district and ward |
| Scenarios.ReporterC007Kinds | ureport/contacts/tests.py:200-213 | the counter types of the created C-007 contact are exactly the seven expected keys, in order |
| Scenarios.ReporterC008Kinds | ureport/contacts/tests.py:215-217 | the counter types of the created C-008 contact are exactly its seven keys, in order, with teacher and 1980 in place of student and 1990 |
| Scenarios.ReporterC007Counts | ureport/contacts/tests.py:199-213 | after C-007 is created on an empty counter table, get_counts answers exactly the seven-key dictionary with every count 1 |
| Scenarios.ReporterC008Counts | ureport/contacts/tests.py:215-230 | after C-008 is created as well, get_counts answers exactly the nine-key dictionary: 2 for the shared types, 1 for each occupation and birth year |
| Scenarios.ReporterKeyListCounts | ureport/contacts/tests.py:232-233 | asking for total-reporters and gender:m after both creations answers exactly those two keys, each 2 |
| Scenarios.WardCounts | ureport/contacts/tests.py:182-195 | for any two Nigeria contacts in ward R-IKEJA, the ward's count is 1 after the first is created on an empty table and 2 after the second |
| Scenarios.SquashFixtureResult | ureport/contacts/tests.py:236-259 | squashing the three fixture rows leaves two rows: one type-a row holding 5, and the type-b row with its id; neither original type-a id remains |
| Scenarios.PullFixtureResult | ureport/contacts/tests.py:270-283 | the reports (1,2,3,4), (5,6,7,8), (9,10,11,12) are recorded as (1,2,3), (5,6,7), (9,10,11) |

## Left out

- The code of `ureport/contacts/models.py` and `ureport/contacts/tasks.py` is not part of this model. Behaviour is rebuilt from the assertions in `ureport/contacts/tests.py`. Some rules go beyond what the tests assert:
  - the female label giving `'F'` (no test maps a female contact);
  - the counter rows added when `get_or_create` creates a contact (no test reads the counters after it);
  - born counted only when non-zero;
  - the state lookup ignoring the state's parent.
- Django's ORM: primary keys are a `nextId` counter, querysets are sequences, and `Contact.objects.all().delete()` is not modelled.
- The Redis lock around squashing and any concurrency: squash is one sequential step over the whole table.
- The Temba client and the backend pulls: each pull report is an input 4-tuple, and `pull_fields`/`pull_boundaries`/`pull_contacts` of the backend are not modelled.
- `TaskState` persistence: a map from (org, task key) to the last result.
- Mapper.RegisteredOn: `json_date_to_datetime` and time zones are not modelled. Parsing is a `parseDate` parameter, and a time is a record already split into its parts.
- Contact name, URNs, groups and language, boundary geometry, and the `reporter_group` configuration: the mapper ignores them.
- Mapper.Born: only a string of ASCII digits is a numeral. Python `int()` also accepts signs and surrounding white space; those are not modelled.
- Mapper.Named: boundary names are compared exactly. Case-insensitive matching is not pinned down by the tests.
- Mapper.ResolveState: the state lookup does not check that the state sits directly under the root (country) boundary. Any state-level boundary of the org with that name is accepted.
- Mapper.ResolveChild: a district or ward needs a resolved parent. Django's matching of `parent=None` against parentless boundaries is not modelled.
- Text.Lower: only ASCII letters are lower-cased. Python's full Unicode `lower()` is not modelled.
- Contacts.ContactTable.Save: an in-place save or update adds no counter rows. Counter adjustments on update are not pinned down by the tests.
- Counter rows are an unbounded `int` count. The database column width is not modelled.
