/**
 * Vocabulary shared by every table of the model: the tenant that owns a row,
 * and the first-match lookup that Django's `filter(...).first()` performs on a
 * table held as a sequence of rows in primary-key order.
 */
module Tables {
  import opened Wrappers

  /** Primary key of an organisation (a tenant). */
  type OrgId = nat

  /** Index of the first element of s that satisfies p, or None when no element does. */
  function FirstMatch<T>(s: seq<T>, p: T -> bool): (r: Option<nat>)
    ensures r.Some? ==> r.value < |s| && p(s[r.value])
    ensures r.Some? ==> forall j :: 0 <= j < r.value ==> !p(s[j])
    ensures r.None? <==> forall j :: 0 <= j < |s| ==> !p(s[j])
  {
    if s == [] then None
    else if p(s[0]) then Some(0)
    else
      match FirstMatch(s[1..], p)
      case None => None
      case Some(k) => Some(k + 1)
  }

  /** A match at i with none before it is the first match. */
  lemma FirstMatchAt<T>(s: seq<T>, p: T -> bool, i: nat)
    requires i < |s| && p(s[i])
    requires forall j :: 0 <= j < i ==> !p(s[j])
    ensures FirstMatch(s, p) == Some(i)
  {
  }

  /**
   * Appending a row leaves an existing first match where it was, and makes a
   * matching new row the first match when there was none.
   */
  lemma FirstMatchAppend<T>(s: seq<T>, x: T, p: T -> bool)
    ensures FirstMatch(s + [x], p) ==
              if FirstMatch(s, p).Some? then FirstMatch(s, p)
              else if p(x) then Some(|s|) else None
  {
    var t := s + [x];
    assert forall j :: 0 <= j < |s| ==> t[j] == s[j];
    match FirstMatch(s, p)
    case Some(i) =>
      FirstMatchAt(t, p, i);
    case None =>
      if p(x) {
        FirstMatchAt(t, p, |s|);
      }
  }

  /**
   * Replacing an element by one that satisfies p exactly when the old one did
   * leaves the first match where it was.
   */
  lemma FirstMatchUpdate<T>(s: seq<T>, i: nat, x: T, p: T -> bool)
    requires i < |s|
    requires p(x) == p(s[i])
    ensures FirstMatch(s[i := x], p) == FirstMatch(s, p)
  {
    var t := s[i := x];
    assert forall j :: 0 <= j < |s| ==> (p(t[j]) <==> p(s[j]));
    match FirstMatch(s, p)
    case Some(k) =>
      FirstMatchAt(t, p, k);
    case None =>
  }
}
