/** The two queries of the recovery scans (internal/store/mysql.go) and what they find once it is stale. */
module StaleScans {
  import opened Collections
  import opened TaskRows
  import PrLock

  const QUEUED_STALE_AFTER: nat := 60 * PrLock.SECOND
  const SCAN_LIMIT: int := 100

  /** Which statuses a query selects. */
  datatype Query = RecoverableTasks | StaleQueuedTasks

  predicate Selects(query: Query, status: Status) {
    match query
    case RecoverableTasks => status == Running
    case StaleQueuedTasks => status == Received || status == Queued
  }

  function Matching(rows: map<nat, Row>, query: Query, staleBefore: int): set<nat> {
    set id | id in rows && Selects(query, rows[id].status) && rows[id].updatedAt < staleBefore
  }

  function Limit(limit: int): nat {
    if limit <= 0 || limit > 200 then 100 else limit
  }

  predicate OldestFirst(rows: map<nat, Row>, ids: seq<nat>)
    requires forall id <- ids :: id in rows
  {
    forall i, j | 0 <= i < j < |ids| :: ids[i] != ids[j] && rows[ids[i]].updatedAt <= rows[ids[j]].updatedAt
  }

  method Oldest(rows: map<nat, Row>, ids: set<nat>) returns (oldest: nat)
    requires ids != {} && ids <= rows.Keys
    ensures oldest in ids && forall id <- ids :: rows[oldest].updatedAt <= rows[id].updatedAt
  {
    oldest :| oldest in ids;
    var rest := ids - {oldest};
    while rest != {}
      invariant rest <= ids && oldest in ids
      invariant forall id | id in ids && id !in rest :: rows[oldest].updatedAt <= rows[id].updatedAt
      decreases |rest|
    {
      var id :| id in rest;
      if rows[id].updatedAt < rows[oldest].updatedAt {
        oldest := id;
      }
      rest := rest - {id};
    }
  }

  /**
   * The matching rows, oldest first, up to the limit: all of them if they are no more than that, and otherwise none that
   * is younger than one left out.
   */
  method ListTasks(rows: map<nat, Row>, query: Query, staleBefore: int, limit: int) returns (ids: seq<nat>)
    ensures forall id <- ids :: id in rows && id in Matching(rows, query, staleBefore)
    ensures OldestFirst(rows, ids)
    ensures |ids| <= if 0 < limit <= 200 then limit else 100
    ensures forall id | id in Matching(rows, query, staleBefore) && id !in ids ::
              |ids| == (if 0 < limit <= 200 then limit else 100) && forall listed <- ids :: rows[listed].updatedAt <= rows[id].updatedAt
  {
    ids := [];
    var rest := Matching(rows, query, staleBefore);
    while |ids| < Limit(limit) && rest != {}
      invariant rest <= Matching(rows, query, staleBefore) && |ids| <= Limit(limit)
      invariant forall id :: id in Matching(rows, query, staleBefore) <==> id in rest || id in ids
      invariant forall id <- ids, other <- rest :: id != other && rows[id].updatedAt <= rows[other].updatedAt
      invariant OldestFirst(rows, ids)
      decreases |rest|
    {
      var id := Oldest(rows, rest);
      ids, rest := ids + [id], rest - {id};
    }
  }

  /** The scans' query for a status, if any scan looks for it; a retrying task is listed by none. */
  function ScanFor(status: Status): Option<Query> {
    match status
    case Running => Some(RecoverableTasks)
    case Received => Some(StaleQueuedTasks)
    case Queued => Some(StaleQueuedTasks)
    case _ => None
  }

  function StaleAfter(query: Query): nat {
    if query == RecoverableTasks then PrLock.RUNNING_STALE_AFTER else QUEUED_STALE_AFTER
  }

  /** One scan at time `now`. */
  method Scan(rows: map<nat, Row>, query: Query, now: int) returns (ids: seq<nat>)
    ensures var staleAfter := if query == RecoverableTasks then 360 * PrLock.SECOND else 60 * PrLock.SECOND;
            forall id <- ids :: id in rows && ScanFor(rows[id].status) == Some(query) && now - rows[id].updatedAt > staleAfter
    ensures var staleAfter := if query == RecoverableTasks then 360 * PrLock.SECOND else 60 * PrLock.SECOND;
            forall id <- rows ::
              ScanFor(rows[id].status) == Some(query) && now - rows[id].updatedAt > staleAfter ==>
                id in ids || (|ids| == 100 && forall listed <- ids :: rows[listed].updatedAt <= rows[id].updatedAt)
  {
    ids := ListTasks(rows, query, now - StaleAfter(query), SCAN_LIMIT);
  }

  /** Rows that match a query and are at least as old as row `id`. */
  function Ahead(rows: map<nat, Row>, query: Query, id: nat): set<nat>
    requires id in rows
  {
    set other | other in rows && other != id && Selects(query, rows[other].status) && rows[other].updatedAt <= rows[id].updatedAt
  }

  /**
   * What a scan has done by its end: the handled rows have left the query or have a younger time than row `id`. It goes on
   * past rows whose publish fails; those, like any other row, are as they were unless somebody else has moved them on.
   */
  predicate Handled(before: map<nat, Row>, after: map<nat, Row>, query: Query, handled: set<nat>, id: nat) {
    && id in before && id in after && before[id] == after[id]
    && before.Keys <= after.Keys
    && (forall other <- handled :: other in after &&
          (!Selects(query, after[other].status) || after[other].updatedAt > after[id].updatedAt))
    && (forall other | other in after && other !in handled ::
          (other in before && after[other] == before[other]) || !Selects(query, after[other].status)
          || after[other].updatedAt > after[id].updatedAt)
  }

  lemma IdsSize(ids: seq<nat>) returns (all: set<nat>)
    requires forall i, j | 0 <= i < j < |ids| :: ids[i] != ids[j]
    ensures all == (set id | id in ids) && |all| == |ids|
    decreases |ids|
  {
    if |ids| == 0 {
      all := {};
    } else {
      var rest := IdsSize(ids[..|ids| - 1]);
      all := rest + {ids[|ids| - 1]};
      assert ids == ids[..|ids| - 1] + [ids[|ids| - 1]];
    }
  }

  /**
   * A scan that leaves row `id` out takes away as many of those ahead of it as it handles: a full batch if every publish is
   * confirmed, so that then no stale row starves.
   */
  lemma ScanAdvances(before: map<nat, Row>, after: map<nat, Row>, query: Query, ids: seq<nat>, handled: set<nat>, id: nat)
    requires forall listed <- ids :: listed in before && Selects(query, before[listed].status)
    requires OldestFirst(before, ids) && id !in ids && forall other <- handled :: other in ids
    requires Handled(before, after, query, handled, id)
    requires forall listed <- ids :: before[listed].updatedAt <= before[id].updatedAt
    ensures |Ahead(after, query, id)| <= |Ahead(before, query, id)| - |handled|
    ensures (forall listed <- ids :: listed in handled) ==> |handled| == |ids|
  {
    SubsetSize(handled, Ahead(before, query, id));
    SubsetSize(Ahead(after, query, id), Ahead(before, query, id) - handled);
    if forall listed <- ids :: listed in handled {
      var all := IdsSize(ids);
      assert all == handled;
    }
  }
}
