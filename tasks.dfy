/**
 * The contact-pull background task: pull fields, boundaries and contacts from
 * the backend, record what each pull created, updated and deleted as the
 * task's last result, and squash the reporter counters exactly once.
 */
module Tasks {
  import opened Tables
  import opened Counters

  /** What a backend pull reports: (created, updated, deleted, ignored). */
  datatype PullCounts = PullCounts(created: int, updated: int, deleted: int, ignored: int)

  /** The part of a pull's report that the task records. */
  datatype StageResult = StageResult(created: int, updated: int, deleted: int)

  /** The task's recorded result, one entry per pulled kind of record. */
  datatype PullResult = PullResult(fields: StageResult, boundaries: StageResult, contacts: StageResult)

  /** The task key under which the result is stored for an org. */
  const ContactPull := "contact-pull"

  /** The first three components of a pull's report; the ignored count is dropped. */
  function Recorded(p: PullCounts): (r: StageResult)
    ensures r.created == p.created && r.updated == p.updated && r.deleted == p.deleted
  {
    StageResult(p.created, p.updated, p.deleted)
  }

  /** The result recorded for one run: each stage's report without its ignored count. */
  function RunResult(fields: PullCounts, boundaries: PullCounts, contacts: PullCounts): (r: PullResult)
    ensures r.fields == StageResult(fields.created, fields.updated, fields.deleted)
    ensures r.boundaries == StageResult(boundaries.created, boundaries.updated, boundaries.deleted)
    ensures r.contacts == StageResult(contacts.created, contacts.updated, contacts.deleted)
  {
    PullResult(Recorded(fields), Recorded(boundaries), Recorded(contacts))
  }

  /** The recorded result does not depend on how many records a pull ignored. */
  lemma RunResultIgnoresIgnored(fields: PullCounts, boundaries: PullCounts, contacts: PullCounts, i: int, j: int, k: int)
    ensures RunResult(fields, boundaries, contacts) ==
              RunResult(fields.(ignored := i), boundaries.(ignored := j), contacts.(ignored := k))
  {
  }

  /** The last result of every (org, task key); a new run overwrites the old result entirely. */
  class TaskStates {
    var results: map<(OrgId, string), PullResult>

    constructor ()
      ensures results == map[]
    {
      results := map[];
    }

    method SetLastResult(org: OrgId, key: string, r: PullResult)
      modifies this
      ensures results == old(results)[(org, key) := r]
    {
      results := results[(org, key) := r];
    }
  }

  /**
   * pull_contacts(org): the three backend pulls are inputs; records their
   * created/updated/deleted counts as the org's contact-pull result, then
   * squashes the counter table exactly once.
   */
  method PullContacts(
    org: OrgId, states: TaskStates, counters: CounterTable,
    fields: PullCounts, boundaries: PullCounts, contacts: PullCounts)
    requires counters.Valid()
    modifies states, counters
    ensures counters.Valid()
    ensures states.results == old(states.results)[(org, ContactPull) := RunResult(fields, boundaries, contacts)]
    ensures (counters.rows, counters.nextId) == Squash(old(counters.rows), old(counters.nextId))
    ensures counters.squashes == old(counters.squashes) + 1
  {
    states.SetLastResult(org, ContactPull, RunResult(fields, boundaries, contacts));
    counters.SquashCounts();
  }
}
