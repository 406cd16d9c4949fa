/** The audit_events table and its two queries. Rows are kept in the order they were inserted;
    the queries order them by id. */
module AuditStore {
  import opened Text
  import opened AuditChain

  /** id is the primary key. */
  ghost predicate UniqueIds(rows: seq<StoreEvent>) {
    forall i, j :: 0 <= i < j < |rows| ==> rows[i].id != rows[j].id
  }

  predicate HasId(rows: seq<StoreEvent>, id: nat) {
    exists i :: 0 <= i < |rows| && rows[i].id == id
  }

  predicate OfRun(ev: StoreEvent, run: string) {
    ev.runID == Some(run)
  }

  /** Put `ev` behind every row whose id is not larger. */
  function InsertById(evs: seq<StoreEvent>, ev: StoreEvent): seq<StoreEvent> {
    if evs == [] || evs[|evs| - 1].id <= ev.id then evs + [ev]
    else InsertById(evs[..|evs| - 1], ev) + [evs[|evs| - 1]]
  }

  /** What `WHERE run_id = ? ORDER BY id ASC` returns. */
  function Listing(rows: seq<StoreEvent>, run: string): seq<StoreEvent> {
    if rows == [] then []
    else
      var before := Listing(rows[..|rows| - 1], run);
      var ev := rows[|rows| - 1];
      if OfRun(ev, run) then InsertById(before, ev) else before
  }

  function LastOf(evs: seq<StoreEvent>): Option<StoreEvent> {
    if evs == [] then None else Some(evs[|evs| - 1])
  }

  ghost predicate SortedById(evs: seq<StoreEvent>) {
    forall i, j :: 0 <= i < j < |evs| ==> evs[i].id < evs[j].id
  }

  // ---------------------------------------------------------------- the listing is the sorted selection

  lemma {:induction false} InsertByIdSorts(evs: seq<StoreEvent>, ev: StoreEvent)
    requires SortedById(evs) && forall e :: e in evs ==> e.id != ev.id
    ensures SortedById(InsertById(evs, ev))
    ensures forall e :: e in InsertById(evs, ev) <==> e in evs || e == ev
  {
    if !(evs == [] || evs[|evs| - 1].id <= ev.id) {
      var front, last := evs[..|evs| - 1], evs[|evs| - 1];
      assert evs == front + [last];
      InsertByIdSorts(front, ev);
      var grown := InsertById(front, ev);
      forall i | 0 <= i < |grown| ensures grown[i].id < last.id {
        assert grown[i] in grown;
        if grown[i] in front {
          var k :| 0 <= k < |front| && front[k] == grown[i];
          assert evs[k].id < evs[|front|].id;
        }
      }
    }
  }

  /** `Listing` holds exactly the rows of the run, in strictly increasing id order. */
  lemma {:induction false} ListingIsSortedSelection(rows: seq<StoreEvent>, run: string)
    requires UniqueIds(rows)
    ensures SortedById(Listing(rows, run))
    ensures forall e :: e in Listing(rows, run) <==> e in rows && OfRun(e, run)
  {
    if rows != [] {
      var front, ev := rows[..|rows| - 1], rows[|rows| - 1];
      assert rows == front + [ev];
      ListingIsSortedSelection(front, run);
      if OfRun(ev, run) {
        forall e | e in Listing(front, run) ensures e.id != ev.id {
          var k :| 0 <= k < |front| && front[k] == e;
          assert rows[k].id != rows[|front|].id;
        }
        InsertByIdSorts(Listing(front, run), ev);
      }
    }
  }

  /** A strictly increasing list is determined by its rows, so no query plan can return another. */
  lemma {:induction false} SortedSelectionUnique(a: seq<StoreEvent>, b: seq<StoreEvent>)
    requires SortedById(a) && SortedById(b)
    requires forall e :: e in a <==> e in b
    ensures a == b
  {
    if |a| == 0 || |b| == 0 {
      if |a| > 0 { HeadIsMember(a); assert false; }
      if |b| > 0 { HeadIsMember(b); assert false; }
    } else {
      HeadIsMember(a);
      HeadIsMember(b);
      var i :| 0 <= i < |b| && b[i] == a[0];
      var j :| 0 <= j < |a| && a[j] == b[0];
      assert a[0] == b[0];
      forall e ensures e in a[1..] <==> e in b[1..] {
        assert e in a[1..] <==> e in a && e != a[0];
        assert e in b[1..] <==> e in b && e != b[0];
      }
      SortedSelectionUnique(a[1..], b[1..]);
      assert a == [a[0]] + a[1..] && b == [b[0]] + b[1..];
    }
  }

  /** A row whose id exceeds every id of its run goes to the end of that run's listing and
      leaves every other run's listing alone. */
  lemma ListingAppend(rows: seq<StoreEvent>, ev: StoreEvent, run: string)
    requires OfRun(ev, run) ==> (Listing(rows, run) == [] || Listing(rows, run)[|Listing(rows, run)| - 1].id < ev.id)
    ensures Listing(rows + [ev], run) == if OfRun(ev, run) then Listing(rows, run) + [ev] else Listing(rows, run)
  {
    assert (rows + [ev])[..|rows|] == rows;
  }

  lemma {:induction false} InsertByIdLast(evs: seq<StoreEvent>, ev: StoreEvent)
    ensures LastOf(InsertById(evs, ev)) ==
            Some(if evs == [] || evs[|evs| - 1].id <= ev.id then ev else evs[|evs| - 1])
  {
  }

  // ---------------------------------------------------------------- the table

  class AuditTable {
    var rows: seq<StoreEvent>

    ghost predicate Valid()
      reads this
    {
      UniqueIds(rows)
    }

    constructor ()
      ensures Valid() && rows == []
    {
      rows := [];
    }

    /** `fault` stands for any failure of the database other than a duplicate key. */
    method InsertAuditEvent(e: StoreEvent, fault: bool) returns (ok: bool)
      requires Valid()
      modifies this
      ensures Valid()
      ensures ok <==> !fault && !HasId(old(rows), e.id)
      ensures rows == if ok then old(rows) + [e] else old(rows)
    {
      ok := !fault && !HasId(rows, e.id);
      if ok {
        rows := rows + [e];
      }
    }

    method GetAuditEvents(run: string) returns (events: seq<StoreEvent>)
      ensures events == Listing(rows, run)
    {
      events := [];
      for i := 0 to |rows|
        invariant events == Listing(rows[..i], run)
      {
        assert rows[..i + 1][..i] == rows[..i];
        if OfRun(rows[i], run) {
          events := InsertById(events, rows[i]);
        }
      }
      assert rows[..|rows|] == rows;
    }

    method GetLastAuditEvent(run: string) returns (last: Option<StoreEvent>)
      ensures last == LastOf(Listing(rows, run))
    {
      last := None;
      for i := 0 to |rows|
        invariant last == LastOf(Listing(rows[..i], run))
      {
        assert rows[..i + 1][..i] == rows[..i];
        InsertByIdLast(Listing(rows[..i], run), rows[i]);
        if OfRun(rows[i], run) && (last.None? || last.value.id <= rows[i].id) {
          last := Some(rows[i]);
        }
      }
      assert rows[..|rows|] == rows;
    }
  }
}
