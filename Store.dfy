/**
 * The `results` table: one row per (scan, rule), with an AUTOINCREMENT id.
 *
 * Timestamps are ISO-8601 strings that the code compares as text; the model keeps
 * only their order, as integers. "Now" and the retention cutoff are parameters.
 */
module Store {
  import opened Common
  import opened Checks

  type Timestamp = int

  datatype Row = Row(id: nat, url: string, score: real, grade: string,
                     headerName: string, status: string, headerValue: Option<string>,
                     timestamp: Timestamp)

  /** Ids increase along the table (AUTOINCREMENT) and stay below the next id. */
  predicate IdsIncreasing(rows: seq<Row>, nextId: nat) {
    && (forall i, j :: 0 <= i < j < |rows| ==> rows[i].id < rows[j].id)
    && (forall i :: 0 <= i < |rows| ==> rows[i].id < nextId)
  }

  /** The rows one `INSERT` loop writes for a scan: one per result, in order. */
  function BatchRows(firstId: nat, url: string, score: real, grade: string,
                     results: seq<Verdict>, now: Timestamp): seq<Row>
  {
    seq(|results|, i requires 0 <= i < |results| =>
      Row(firstId + i, url, score, grade, results[i].name, results[i].status, results[i].value, now))
  }

  /** The (header_name, status, header_value) triples of some rows. */
  function Verdicts(rows: seq<Row>): seq<Verdict> {
    seq(|rows|, i requires 0 <= i < |rows| => Verdict(rows[i].headerName, rows[i].status, rows[i].headerValue))
  }

  function RowsFor(rows: seq<Row>, url: string): seq<Row> {
    Filter(rows, (r: Row) => r.url == url)
  }

  function RowsNotFor(rows: seq<Row>, url: string): seq<Row> {
    Filter(rows, (r: Row) => r.url != url)
  }

  /** `DELETE FROM results WHERE url = ? AND timestamp < ?` */
  function PruneUrlBefore(rows: seq<Row>, url: string, cutoff: Timestamp): seq<Row> {
    Filter(rows, (r: Row) => !(r.url == url && r.timestamp < cutoff))
  }

  /** `DELETE FROM results WHERE timestamp < ?` */
  function PruneBefore(rows: seq<Row>, cutoff: Timestamp): seq<Row> {
    Filter(rows, (r: Row) => !(r.timestamp < cutoff))
  }

  function CountBefore(rows: seq<Row>, cutoff: Timestamp): nat {
    Count(rows, (r: Row) => r.timestamp < cutoff)
  }

  function CountFor(rows: seq<Row>, url: string): nat {
    Count(rows, (r: Row) => r.url == url)
  }

  /** The table after Container/evaluator.py's store_results_in_db. */
  function StoredKeepingHistory(rows: seq<Row>, nextId: nat, url: string, score: real, grade: string,
                                results: seq<Verdict>, now: Timestamp, cutoff: Timestamp): seq<Row> {
    PruneUrlBefore(rows, url, cutoff) + BatchRows(nextId, url, score, grade, results, now)
  }

  /** The table after evaluator.py's store_results_in_db. */
  function StoredReplacing(rows: seq<Row>, nextId: nat, url: string, score: real, grade: string,
                           results: seq<Verdict>, now: Timestamp): seq<Row> {
    RowsNotFor(rows, url) + BatchRows(nextId, url, score, grade, results, now)
  }

  class ResultTable {
    var rows: seq<Row>
    var nextId: nat

    ghost predicate Valid()
      reads this
    {
      IdsIncreasing(rows, nextId)
    }

    constructor ()
      ensures Valid() && rows == [] && nextId == 1
    {
      rows := [];
      nextId := 1;
    }

    /** The INSERT loop shared by both versions of store_results_in_db. */
    method InsertBatch(url: string, score: real, grade: string, results: seq<Verdict>, now: Timestamp)
      requires Valid()
      modifies this
      ensures Valid()
      ensures rows == old(rows) + BatchRows(old(nextId), url, score, grade, results, now)
      ensures nextId == old(nextId) + |results|
    {
      ghost var rows0, id0 := rows, nextId;
      for i := 0 to |results|
        invariant rows == rows0 + BatchRows(id0, url, score, grade, results[..i], now)
        invariant nextId == id0 + i
        invariant IdsIncreasing(rows, nextId)
      {
        rows := rows + [Row(nextId, url, score, grade, results[i].name, results[i].status, results[i].value, now)];
        nextId := nextId + 1;
      }
      assert results[..|results|] == results;
    }

    /** Container/evaluator.py: delete the url's rows older than the cutoff, then insert. */
    method StoreKeepingHistory(url: string, score: real, grade: string, results: seq<Verdict>,
                               now: Timestamp, cutoff: Timestamp)
      requires Valid()
      modifies this
      ensures Valid()
      ensures rows == StoredKeepingHistory(old(rows), old(nextId), url, score, grade, results, now, cutoff)
      ensures nextId == old(nextId) + |results|
    {
      FilterKeepsIdsIncreasing(rows, (r: Row) => !(r.url == url && r.timestamp < cutoff), nextId);
      rows := PruneUrlBefore(rows, url, cutoff);
      InsertBatch(url, score, grade, results, now);
    }

    /** evaluator.py: delete every row of the url, then insert. */
    method StoreReplacing(url: string, score: real, grade: string, results: seq<Verdict>, now: Timestamp)
      requires Valid()
      modifies this
      ensures Valid()
      ensures rows == StoredReplacing(old(rows), old(nextId), url, score, grade, results, now)
      ensures nextId == old(nextId) + |results|
    {
      FilterKeepsIdsIncreasing(rows, (r: Row) => r.url != url, nextId);
      rows := RowsNotFor(rows, url);
      InsertBatch(url, score, grade, results, now);
    }

    /** Container/analytics.py cleanup_old_entries: returns the number of rows deleted. */
    method CleanupOldEntries(cutoff: Timestamp) returns (deleted: nat)
      requires Valid()
      modifies this
      ensures Valid() && nextId == old(nextId)
      ensures rows == PruneBefore(old(rows), cutoff)
      ensures deleted == CountBefore(old(rows), cutoff) == |old(rows)| - |rows|
    {
      FilterKeepsIdsIncreasing(rows, (r: Row) => !(r.timestamp < cutoff), nextId);
      PruneBeforeCounts(rows, cutoff);
      var before := |rows|;
      rows := PruneBefore(rows, cutoff);
      deleted := before - |rows|;
    }

    /** Container/analytics.py delete_url: returns the number of rows deleted. */
    method DeleteUrl(url: string) returns (deleted: nat)
      requires Valid()
      modifies this
      ensures Valid() && nextId == old(nextId)
      ensures rows == RowsNotFor(old(rows), url)
      ensures deleted == CountFor(old(rows), url) == |old(rows)| - |rows|
    {
      FilterKeepsIdsIncreasing(rows, (r: Row) => r.url != url, nextId);
      RowsNotForCounts(rows, url);
      var before := |rows|;
      rows := RowsNotFor(rows, url);
      deleted := before - |rows|;
    }
  }

  // ---------------------------------------------------------------------------
  // Lemmas about the table operations

  lemma {:induction false} FilterKeepsIdsIncreasing(rows: seq<Row>, keep: Row -> bool, nextId: nat)
    requires IdsIncreasing(rows, nextId)
    ensures IdsIncreasing(Filter(rows, keep), nextId)
  {
    if rows != [] {
      FilterKeepsIdsIncreasing(rows[1..], keep, nextId);
      var r := Filter(rows, keep);
      if keep(rows[0]) {
        forall j | 0 < j < |r| ensures rows[0].id < r[j].id {
          assert r[j] in Filter(rows[1..], keep);
        }
      }
    }
  }

  lemma {:induction false} CountComplement<T>(s: seq<T>, p: T -> bool, q: T -> bool)
    requires forall x :: q(x) == !p(x)
    ensures Count(s, p) + Count(s, q) == |s|
  {
    if s != [] {
      CountComplement(s[1..], p, q);
    }
  }

  /** cleanup_old_entries removes exactly the rows older than the cutoff, and counts them. */
  lemma PruneBeforeCounts(rows: seq<Row>, cutoff: Timestamp)
    ensures CountBefore(rows, cutoff) == |rows| - |PruneBefore(rows, cutoff)|
    ensures forall r :: r in PruneBefore(rows, cutoff) <==> r in rows && r.timestamp >= cutoff
  {
    CountComplement(rows, (r: Row) => r.timestamp < cutoff, (r: Row) => !(r.timestamp < cutoff));
  }

  /** delete_url removes exactly the rows of that url, and counts them. */
  lemma RowsNotForCounts(rows: seq<Row>, url: string)
    ensures CountFor(rows, url) == |rows| - |RowsNotFor(rows, url)|
    ensures forall r :: r in RowsNotFor(rows, url) <==> r in rows && r.url != url
  {
    CountComplement(rows, (r: Row) => r.url == url, (r: Row) => r.url != url);
  }

  lemma {:induction false} FilterAll<T(!new)>(s: seq<T>, keep: T -> bool)
    requires forall x :: x in s ==> keep(x)
    ensures Filter(s, keep) == s
  {
    if s != [] {
      FilterAll(s[1..], keep);
    }
  }

  lemma {:induction false} FilterNone<T(!new)>(s: seq<T>, keep: T -> bool)
    requires forall x :: x in s ==> !keep(x)
    ensures Filter(s, keep) == []
  {
    if s != [] {
      FilterNone(s[1..], keep);
    }
  }

  /** Filtering by a weaker condition after a stronger one changes nothing. */
  lemma {:induction false} FilterFilterWeaker<T(!new)>(s: seq<T>, p: T -> bool, q: T -> bool)
    requires forall x :: q(x) ==> p(x)
    ensures Filter(Filter(s, p), q) == Filter(s, q)
  {
    if s != [] {
      FilterFilterWeaker(s[1..], p, q);
    }
  }

  /** Every row of a stored batch carries the scan's url, score, grade and one timestamp,
      and its (header, status, value) triples are the results, in order. */
  lemma BatchRowsAreOneScan(firstId: nat, url: string, score: real, grade: string,
                            results: seq<Verdict>, now: Timestamp)
    ensures var b := BatchRows(firstId, url, score, grade, results, now);
      && |b| == |results|
      && (forall r :: r in b ==> r.url == url && r.score == score && r.grade == grade && r.timestamp == now)
      && Verdicts(b) == results
  {
  }

  /** Keeping history: the other urls' rows are untouched, the url keeps its rows
      from the cutoff on, and gains the new batch. */
  lemma StoredKeepingHistoryEffect(rows: seq<Row>, nextId: nat, url: string, score: real, grade: string,
                                   results: seq<Verdict>, now: Timestamp, cutoff: Timestamp)
    ensures var after := StoredKeepingHistory(rows, nextId, url, score, grade, results, now, cutoff);
      && RowsNotFor(after, url) == RowsNotFor(rows, url)
      && RowsFor(after, url) ==
           Filter(RowsFor(rows, url), (r: Row) => r.timestamp >= cutoff) + BatchRows(nextId, url, score, grade, results, now)
  {
    var batch := BatchRows(nextId, url, score, grade, results, now);
    var pruned := PruneUrlBefore(rows, url, cutoff);
    FilterConcat(pruned, batch, (r: Row) => r.url != url);
    FilterNone(batch, (r: Row) => r.url != url);
    FilterFilterWeaker(rows, (r: Row) => !(r.url == url && r.timestamp < cutoff), (r: Row) => r.url != url);
    FilterConcat(pruned, batch, (r: Row) => r.url == url);
    FilterAll(batch, (r: Row) => r.url == url);
    PrunedRowsFor(rows, url, cutoff);
  }

  lemma {:induction false} PrunedRowsFor(rows: seq<Row>, url: string, cutoff: Timestamp)
    ensures RowsFor(PruneUrlBefore(rows, url, cutoff), url) ==
            Filter(RowsFor(rows, url), (r: Row) => r.timestamp >= cutoff)
  {
    if rows != [] {
      PrunedRowsFor(rows[1..], url, cutoff);
    }
  }

  /** Replacing: afterwards the url's rows are exactly the new batch and the other
      urls' rows are untouched. */
  lemma StoredReplacingEffect(rows: seq<Row>, nextId: nat, url: string, score: real, grade: string,
                              results: seq<Verdict>, now: Timestamp)
    ensures var after := StoredReplacing(rows, nextId, url, score, grade, results, now);
      && RowsNotFor(after, url) == RowsNotFor(rows, url)
      && RowsFor(after, url) == BatchRows(nextId, url, score, grade, results, now)
  {
    var batch := BatchRows(nextId, url, score, grade, results, now);
    var kept := RowsNotFor(rows, url);
    FilterConcat(kept, batch, (r: Row) => r.url != url);
    FilterNone(batch, (r: Row) => r.url != url);
    FilterAll(kept, (r: Row) => r.url != url);
    FilterConcat(kept, batch, (r: Row) => r.url == url);
    FilterAll(batch, (r: Row) => r.url == url);
    FilterNone(kept, (r: Row) => r.url == url);
  }
}
