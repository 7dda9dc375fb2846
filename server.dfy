/**
 * The server's shared database as an object: the `daily_data` and
 * `attractions` tables, each with its AUTOINCREMENT counter, and one method per
 * route handler after authentication. Database failures (HTTP 500) are not modelled.
 */
module Server {
  import opened Wrappers
  import opened Strings
  import opened Rates
  import opened Filters
  import opened Sorting
  import opened Tables
  import opened Queries

  class Database {
    var rows: seq<DailyRow>             // daily_data, in rowid order
    var attractions: seq<Attraction>    // attractions, in rowid order
    var nextRowId: int                  // next AUTOINCREMENT id of daily_data
    var nextAttractionId: int           // next AUTOINCREMENT id of attractions

    /** Ids ascend in table order and lie below the next id: they are unique and never reused. */
    ghost predicate Valid()
      reads this
    {
      && IdsAscending(rows) && AttractionIdsAscending(attractions)
      && 1 <= nextRowId && 1 <= nextAttractionId
      && (forall k :: 0 <= k < |rows| ==> 1 <= rows[k].id < nextRowId)
      && (forall k :: 0 <= k < |attractions| ==> 1 <= attractions[k].id < nextAttractionId)
    }

    /** A fresh database: both tables empty, ids starting at 1. */
    constructor ()
      ensures Valid()
      ensures rows == [] && attractions == [] && nextRowId == 1 && nextAttractionId == 1
    {
      rows, attractions := [], [];
      nextRowId, nextAttractionId := 1, 1;
    }

    /**
     * `POST /api/daily-data`. If a row has `(attractionId, date)`, the first one
     * in rowid order gets the two counters and nothing else changes; otherwise
     * one row with the four fields is appended under a fresh id, which is returned.
     */
    method Upsert(attractionId: int, date: string, qrcodes: int, sales: int) returns (outcome: UpsertOutcome)
      requires Valid()
      modifies this
      ensures Valid()
      ensures rows == UpsertRows(old(rows), old(nextRowId), attractionId, date, qrcodes, sales)
      ensures outcome == UpsertOutcomeOf(old(rows), old(nextRowId), attractionId, date)
      ensures match FindKey(old(rows), attractionId, date)
        case Some(i) =>
          && rows == old(rows)[i := old(rows)[i].(qrcodesDelivered := qrcodes, salesMade := sales)]
          && outcome == Updated && nextRowId == old(nextRowId)
        case None =>
          && rows == old(rows) + [DailyRow(old(nextRowId), attractionId, date, qrcodes, sales)]
          && outcome == Inserted(old(nextRowId)) && CountId(old(rows), old(nextRowId)) == 0
          && nextRowId == old(nextRowId) + 1
      ensures old(KeysUnique(rows)) ==> KeysUnique(rows)
      ensures attractions == old(attractions) && nextAttractionId == old(nextAttractionId)
    {
      if KeysUnique(rows) {
        UpsertKeepsKeysUnique(rows, nextRowId, attractionId, date, qrcodes, sales);
      }
      var existing := FindKey(rows, attractionId, date);
      match existing {
        case Some(i) =>
          UpsertExisting(rows, nextRowId, attractionId, date, qrcodes, sales);
          SetCountersById(rows[i].id, qrcodes, sales);
          outcome := Updated;
        case None =>
          UpsertNew(rows, nextRowId, attractionId, date, qrcodes, sales);
          var id := InsertRow(attractionId, date, qrcodes, sales);
          outcome := Inserted(id);
      }
    }

    /** The upsert's UPDATE: the counters of the row with that id; ids, and so the invariant, are untouched. */
    method SetCountersById(id: int, qrcodes: int, sales: int)
      requires Valid()
      modifies this
      ensures Valid()
      ensures rows == UpdateWhereId(old(rows), id, SetCounters(qrcodes, sales))
      ensures attractions == old(attractions) && nextRowId == old(nextRowId) && nextAttractionId == old(nextAttractionId)
    {
      var updated := UpdateWhereId(rows, id, SetCounters(qrcodes, sales));
      assert forall k :: 0 <= k < |rows| ==> updated[k].id == rows[k].id;
      rows := updated;
    }

    /** The upsert's INSERT: a row under the next AUTOINCREMENT id, which is returned and then used up. */
    method InsertRow(attractionId: int, date: string, qrcodes: int, sales: int) returns (id: int)
      requires Valid()
      modifies this
      ensures Valid()
      ensures id == old(nextRowId) && nextRowId == old(nextRowId) + 1
      ensures rows == old(rows) + [DailyRow(id, attractionId, date, qrcodes, sales)]
      ensures attractions == old(attractions) && nextAttractionId == old(nextAttractionId)
    {
      id := nextRowId;
      rows := rows + [DailyRow(id, attractionId, date, qrcodes, sales)];
      nextRowId := nextRowId + 1;
    }

    /**
     * `PUT /api/daily-data/:id`: all four fields of the row with that id are
     * overwritten, the natural key not re-checked; 404 and no change when no row has the id.
     */
    method UpdateById(id: int, attractionId: int, date: string, qrcodes: int, sales: int) returns (status: Status)
      requires Valid()
      modifies this
      ensures Valid()
      ensures rows == UpdateWhereId(old(rows), id, SetAll(attractionId, date, qrcodes, sales))
      ensures status == (if CountId(old(rows), id) == 0 then NotFound else Done)
      ensures status == NotFound ==> rows == old(rows)
      ensures forall i :: 0 <= i < |old(rows)| && old(rows)[i].id == id ==>
        rows == old(rows)[i := DailyRow(id, attractionId, date, qrcodes, sales)]
      ensures attractions == old(attractions) && nextRowId == old(nextRowId) && nextAttractionId == old(nextAttractionId)
    {
      var changes := CountId(rows, id);
      ghost var before := rows;
      rows := UpdateWhereId(rows, id, SetAll(attractionId, date, qrcodes, sales));
      if changes == 0 {
        AbsentIdUnchanged(before, id, SetAll(attractionId, date, qrcodes, sales));
        status := NotFound;
      } else {
        status := Done;
      }
      forall i | 0 <= i < |before| && before[i].id == id
        ensures rows == before[i := DailyRow(id, attractionId, date, qrcodes, sales)]
      {
        UpdateAtIndex(before, i, SetAll(attractionId, date, qrcodes, sales));
      }
    }

    /** `DELETE /api/daily-data/:id`: exactly the row with that id goes; 404 and no change when there is none. */
    method DeleteById(id: int) returns (status: Status)
      requires Valid()
      modifies this
      ensures Valid()
      ensures rows == DeleteWhereId(old(rows), id)
      ensures status == (if CountId(old(rows), id) == 0 then NotFound else Done)
      ensures status == NotFound ==> rows == old(rows)
      ensures forall i :: 0 <= i < |old(rows)| && old(rows)[i].id == id ==> rows == old(rows)[..i] + old(rows)[i + 1..]
      ensures old(KeysUnique(rows)) ==> KeysUnique(rows)
      ensures attractions == old(attractions) && nextRowId == old(nextRowId) && nextAttractionId == old(nextAttractionId)
    {
      var changes := CountId(rows, id);
      ghost var before := rows;
      rows := DeleteWhereId(rows, id);
      DeleteKeepsIdsAscending(before, id);
      DeleteMembers(before, id);
      if KeysUnique(before) { DeleteKeepsKeysUnique(before, id); }
      if changes == 0 {
        AbsentIdUnchanged(before, id, SetCounters(0, 0));
        status := NotFound;
      } else {
        status := Done;
      }
      forall i | 0 <= i < |before| && before[i].id == id ensures rows == before[..i] + before[i + 1..] {
        DeleteAtIndex(before, i);
      }
    }

    /**
     * `POST /api/attractions`: the name is inserted as given, without any
     * check; only a missing name fails (the NOT NULL column), inserting nothing.
     */
    method AddAttraction(name: Option<string>) returns (created: Option<Attraction>)
      requires Valid()
      modifies this
      ensures Valid()
      ensures name.None? ==> created.None? && attractions == old(attractions) && nextAttractionId == old(nextAttractionId)
      ensures name.Some? ==> && created == Some(Attraction(old(nextAttractionId), name.value))
                             && attractions == old(attractions) + [created.value]
                             && nextAttractionId == old(nextAttractionId) + 1
      ensures rows == old(rows) && nextRowId == old(nextRowId)
    {
      if name.None? {
        created := None;
      } else {
        var a := Attraction(nextAttractionId, name.value);
        attractions := attractions + [a];
        nextAttractionId := nextAttractionId + 1;
        created := Some(a);
      }
    }

    /** `GET /api/attractions`: every attraction once, ordered by name. */
    method ListAttractions() returns (out: seq<Attraction>)
      ensures SortedBy(out, NameLe)
      ensures multiset(out) == multiset(attractions)
    {
      NameOrder();
      out := SortBy(attractions, NameLe);
    }

    /**
     * `GET /api/dashboard-data`: the clauses are appended one by one, then the
     * joined rows that pass them are sorted by date descending, then name. The
     * result lists exactly the matching rows that have an attraction, with their rates.
     */
    method Dashboard(f: Filter) returns (out: seq<DashboardRow>)
      ensures SortedBy(out, DashboardLe)
      ensures multiset(out) == multiset(InnerJoin(Selected(rows, f), attractions))
      ensures forall x :: x in out <==> Listed(x, rows, attractions, f)
      ensures forall x :: x in out ==> x.conversionRate == ConversionRate(x.salesMade, x.qrcodesDelivered)
    {
      var cs := BuildClauses(f);
      WhereIsSelected(rows, cs, f);
      DashboardOrder();
      var joined := InnerJoin(Where(rows, cs), attractions);
      out := SortBy(joined, DashboardLe);
      InnerJoinIsListed(rows, attractions, f);
      PermutationMembers(out, joined);
      forall x | x in out ensures x.conversionRate == ConversionRate(x.salesMade, x.qrcodesDelivered) {
        var i, j :| 0 <= i < |rows| && 0 <= j < |attractions| && Matches(f, rows[i].date, rows[i].attractionId)
          && attractions[j].id == rows[i].attractionId && x == Combine(rows[i], attractions[j]);
      }
    }

    /**
     * `GET /api/summary`: the same clauses, no join; the count and sums of the
     * matching rows and the rate of the sums.
     */
    method Summarize(f: Filter) returns (s: Summary)
      ensures s == SummaryOf(Selected(rows, f))
      ensures s.totalDays == CountMatching(rows, f)
      ensures s.avgConversionRate == ConversionRate(SumSales(Selected(rows, f)), SumQrcodes(Selected(rows, f)))
    {
      var cs := BuildClauses(f);
      WhereIsSelected(rows, cs, f);
      s := SummaryOf(Where(rows, cs));
      SummaryCountsRows(rows, f);
    }
  }

  /**
   * A new attraction "Zoo" and a record for 2024-01-01 with 100 codes and 25
   * sales: the unfiltered dashboard shows it at 25.00%, a start date of
   * 2024-01-02 hides it.
   */
  method ZooScenario() returns (all: seq<DashboardRow>, later: seq<DashboardRow>)
    ensures all == [DashboardRow(1, "2024-01-01", "Zoo", 1, 100, 25, 2500)]
    ensures later == []
  {
    var db := new Database();
    var zoo := db.AddAttraction(Some("Zoo"));
    var outcome := db.Upsert(zoo.value.id, "2024-01-01", 100, 25);
    assert db.rows == [DailyRow(1, 1, "2024-01-01", 100, 25)];
    ZooListing(db.rows, db.attractions);
    all := db.Dashboard(Filter(None, None, None));
    OnlyElement(all, DashboardRow(1, "2024-01-01", "Zoo", 1, 100, 25, 2500));
    later := db.Dashboard(Filter(Some("2024-01-02"), None, None));
    PermutationMembers(later, []);
  }

  lemma ZooListing(rows: seq<DailyRow>, atts: seq<Attraction>)
    requires rows == [DailyRow(1, 1, "2024-01-01", 100, 25)] && atts == [Attraction(1, "Zoo")]
    ensures InnerJoin(Selected(rows, Filter(None, None, None)), atts) == [DashboardRow(1, "2024-01-01", "Zoo", 1, 100, 25, 2500)]
    ensures InnerJoin(Selected(rows, Filter(Some("2024-01-02"), None, None)), atts) == []
  {
    assert ConversionRate(25, 100) == 2500 by { RoundDivUnique(250000, 100, 2500); }
    assert Selected(rows, Filter(None, None, None)) == rows;
    assert JoinOne(rows[0], atts) == [DashboardRow(1, "2024-01-01", "Zoo", 1, 100, 25, 2500)];
    ZooLaterHidden(rows);
  }

  /** 2024-01-01 sorts before 2024-01-02, so the start date filter drops the row. */
  lemma ZooLaterHidden(rows: seq<DailyRow>)
    requires rows == [DailyRow(1, 1, "2024-01-01", 100, 25)]
    ensures Selected(rows, Filter(Some("2024-01-02"), None, None)) == []
  {
    LexLeCommonPrefix("2024-01-0", "2", "1");
    assert "2024-01-02" == "2024-01-0" + "2" && "2024-01-01" == "2024-01-0" + "1";
    assert !Matches(Filter(Some("2024-01-02"), None, None), rows[0].date, rows[0].attractionId);
  }

  lemma OnlyElement<T>(s: seq<T>, x: T)
    requires multiset(s) == multiset([x])
    ensures s == [x]
  {
    PermutationMembers(s, [x]);
    assert s[0] in s;
  }
}
