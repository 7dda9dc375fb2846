/**
 * The two read queries: the dashboard listing (filtered rows joined with
 * their attraction, ordered by date descending then attraction name, each with
 * its conversion rate) and the summary (count, sums and the rate of the sums
 * over the filtered rows, without the join).
 */
module Queries {
  import opened Wrappers
  import opened Strings
  import opened Rates
  import opened Filters
  import opened Sorting
  import opened Tables

  /** One row of `GET /api/dashboard-data`. */
  datatype DashboardRow = DashboardRow(
    id: int, date: string, attractionName: string, attractionId: int,
    qrcodesDelivered: int, salesMade: int, conversionRate: int)

  /** The object `GET /api/summary` returns; a SUM over no rows is SQL NULL, here `None`. */
  datatype Summary = Summary(totalDays: nat, totalQrcodes: Option<int>, totalSales: Option<int>, avgConversionRate: int)

  // ---------------------------------------------------------------------------
  // Selection
  // ---------------------------------------------------------------------------

  /** The rows passing the appended WHERE clauses, in table order. */
  function Where(rows: seq<DailyRow>, cs: seq<Clause>): (r: seq<DailyRow>)
    ensures |r| <= |rows|
    ensures forall k :: 0 <= k < |r| ==> r[k] in rows && AllHold(cs, r[k].date, r[k].attractionId)
  {
    if rows == [] then []
    else (if AllHold(cs, rows[0].date, rows[0].attractionId) then [rows[0]] else []) + Where(rows[1..], cs)
  }

  /** The rows matching the filter, in table order. */
  function Selected(rows: seq<DailyRow>, f: Filter): (r: seq<DailyRow>)
    ensures |r| <= |rows|
    ensures forall k :: 0 <= k < |r| ==> Matches(f, r[k].date, r[k].attractionId)
  {
    if rows == [] then []
    else (if Matches(f, rows[0].date, rows[0].attractionId) then [rows[0]] else []) + Selected(rows[1..], f)
  }

  /** Clauses equivalent to the filter select the same rows. */
  lemma {:induction false} WhereIsSelected(rows: seq<DailyRow>, cs: seq<Clause>, f: Filter)
    requires forall date, attractionId :: AllHold(cs, date, attractionId) <==> Matches(f, date, attractionId)
    ensures Where(rows, cs) == Selected(rows, f)
  {
    if rows != [] { WhereIsSelected(rows[1..], cs, f); }
  }

  /** A row is selected exactly when it is in the table and matches the filter. */
  lemma {:induction false} SelectedMembers(rows: seq<DailyRow>, f: Filter)
    ensures forall x :: x in Selected(rows, f) <==> x in rows && Matches(f, x.date, x.attractionId)
  {
    if rows != [] {
      SelectedMembers(rows[1..], f);
      assert rows == [rows[0]] + rows[1..];
    }
  }

  // ---------------------------------------------------------------------------
  // Dashboard listing
  // ---------------------------------------------------------------------------

  /** A listed row: the daily row's own fields, the attraction's name, and the rate of the row's own counters. */
  function Combine(r: DailyRow, a: Attraction): (x: DashboardRow)
    ensures x.id == r.id && x.date == r.date && x.attractionId == r.attractionId && x.attractionName == a.name
    ensures x.qrcodesDelivered == r.qrcodesDelivered && x.salesMade == r.salesMade
    ensures 0 <= r.salesMade <= r.qrcodesDelivered ==> 0 <= x.conversionRate <= 10000
  {
    var rate := ConversionRate(r.salesMade, r.qrcodesDelivered);
    assert 0 <= r.salesMade <= r.qrcodesDelivered ==> 0 <= rate <= 10000 by {
      if 0 < r.qrcodesDelivered && 0 <= r.salesMade <= r.qrcodesDelivered {
        ConversionRateBounds(r.salesMade, r.qrcodesDelivered);
      }
    }
    DashboardRow(r.id, r.date, a.name, r.attractionId, r.qrcodesDelivered, r.salesMade, rate)
  }

  /**
   * The inner join on attraction id for one daily row: one combined row per
   * attraction with the row's attraction id, none when no attraction has it,
   * and at most one when attraction ids are ascending (a primary key).
   */
  function JoinOne(r: DailyRow, atts: seq<Attraction>): (out: seq<DashboardRow>)
    ensures |out| <= |atts|
    ensures (forall k :: 0 <= k < |atts| ==> atts[k].id != r.attractionId) ==> out == []
    ensures AttractionIdsAscending(atts) ==> |out| <= 1
  {
    if atts == [] then []
    else (if atts[0].id == r.attractionId then [Combine(r, atts[0])] else []) + JoinOne(r, atts[1..])
  }

  /** The inner join of the selected daily rows with the attractions. */
  function InnerJoin(sel: seq<DailyRow>, atts: seq<Attraction>): (out: seq<DashboardRow>)
    ensures AttractionIdsAscending(atts) ==> |out| <= |sel|
  {
    if sel == [] then [] else JoinOne(sel[0], atts) + InnerJoin(sel[1..], atts)
  }

  /** A dashboard row is in the listing: built from a table row that matches the filter and an attraction with its id. */
  ghost predicate Listed(x: DashboardRow, rows: seq<DailyRow>, atts: seq<Attraction>, f: Filter) {
    exists i, j :: 0 <= i < |rows| && 0 <= j < |atts| && Matches(f, rows[i].date, rows[i].attractionId)
      && atts[j].id == rows[i].attractionId && x == Combine(rows[i], atts[j])
  }

  lemma {:induction false} JoinOneMembers(r: DailyRow, atts: seq<Attraction>)
    ensures forall x :: x in JoinOne(r, atts) <==> exists j :: 0 <= j < |atts| && atts[j].id == r.attractionId && x == Combine(r, atts[j])
  {
    if atts != [] {
      JoinOneMembers(r, atts[1..]);
      forall x ensures x in JoinOne(r, atts) <==> exists j :: 0 <= j < |atts| && atts[j].id == r.attractionId && x == Combine(r, atts[j]) {
        if x in JoinOne(r, atts[1..]) {
          var j :| 0 <= j < |atts[1..]| && atts[1..][j].id == r.attractionId && x == Combine(r, atts[1..][j]);
          assert atts[j + 1] == atts[1..][j];
        }
        if exists j :: 0 <= j < |atts| && atts[j].id == r.attractionId && x == Combine(r, atts[j]) {
          var j :| 0 <= j < |atts| && atts[j].id == r.attractionId && x == Combine(r, atts[j]);
          if j > 0 { assert atts[1..][j - 1] == atts[j]; }
        }
      }
    }
  }

  lemma {:induction false} InnerJoinMembers(sel: seq<DailyRow>, atts: seq<Attraction>)
    ensures forall x :: x in InnerJoin(sel, atts) <==>
      exists i, j :: 0 <= i < |sel| && 0 <= j < |atts| && atts[j].id == sel[i].attractionId && x == Combine(sel[i], atts[j])
  {
    if sel != [] {
      InnerJoinMembers(sel[1..], atts);
      JoinOneMembers(sel[0], atts);
      forall x ensures x in InnerJoin(sel, atts) <==>
        exists i, j :: 0 <= i < |sel| && 0 <= j < |atts| && atts[j].id == sel[i].attractionId && x == Combine(sel[i], atts[j])
      {
        if x in InnerJoin(sel[1..], atts) {
          var i, j :| 0 <= i < |sel[1..]| && 0 <= j < |atts| && atts[j].id == sel[1..][i].attractionId && x == Combine(sel[1..][i], atts[j]);
          assert sel[i + 1] == sel[1..][i];
        }
        if exists i, j :: 0 <= i < |sel| && 0 <= j < |atts| && atts[j].id == sel[i].attractionId && x == Combine(sel[i], atts[j]) {
          var i, j :| 0 <= i < |sel| && 0 <= j < |atts| && atts[j].id == sel[i].attractionId && x == Combine(sel[i], atts[j]);
          if i > 0 { assert sel[1..][i - 1] == sel[i]; }
        }
      }
    }
  }

  /** The joined selection holds exactly the listed rows. */
  lemma InnerJoinIsListed(rows: seq<DailyRow>, atts: seq<Attraction>, f: Filter)
    ensures forall x :: x in InnerJoin(Selected(rows, f), atts) <==> Listed(x, rows, atts, f)
  {
    InnerJoinMembers(Selected(rows, f), atts);
    SelectedMembers(rows, f);
    forall x ensures x in InnerJoin(Selected(rows, f), atts) <==> Listed(x, rows, atts, f) {
      if x in InnerJoin(Selected(rows, f), atts) { JoinedIsListed(rows, atts, f, x); }
      if Listed(x, rows, atts, f) { ListedIsJoined(rows, atts, f, x); }
    }
  }

  lemma JoinedIsListed(rows: seq<DailyRow>, atts: seq<Attraction>, f: Filter, x: DashboardRow)
    requires forall y :: y in Selected(rows, f) <==> y in rows && Matches(f, y.date, y.attractionId)
    requires exists i, j :: && 0 <= i < |Selected(rows, f)| && 0 <= j < |atts|
                        && atts[j].id == Selected(rows, f)[i].attractionId && x == Combine(Selected(rows, f)[i], atts[j])
    ensures Listed(x, rows, atts, f)
  {
    var sel := Selected(rows, f);
    var i, j :| 0 <= i < |sel| && 0 <= j < |atts| && atts[j].id == sel[i].attractionId && x == Combine(sel[i], atts[j]);
    assert sel[i] in rows;
    var i' :| 0 <= i' < |rows| && rows[i'] == sel[i];
    assert Matches(f, rows[i'].date, rows[i'].attractionId);
  }

  lemma ListedIsJoined(rows: seq<DailyRow>, atts: seq<Attraction>, f: Filter, x: DashboardRow)
    requires forall y :: y in Selected(rows, f) <==> y in rows && Matches(f, y.date, y.attractionId)
    requires Listed(x, rows, atts, f)
    ensures exists i, j :: && 0 <= i < |Selected(rows, f)| && 0 <= j < |atts|
                        && atts[j].id == Selected(rows, f)[i].attractionId && x == Combine(Selected(rows, f)[i], atts[j])
  {
    var sel := Selected(rows, f);
    var i, j :| 0 <= i < |rows| && 0 <= j < |atts| && Matches(f, rows[i].date, rows[i].attractionId)
      && atts[j].id == rows[i].attractionId && x == Combine(rows[i], atts[j]);
    assert rows[i] in sel;
    var i' :| 0 <= i' < |sel| && sel[i'] == rows[i];
    assert atts[j].id == sel[i'].attractionId && x == Combine(sel[i'], atts[j]);
  }

  /**
   * The inner join in terms of one table row (ids unique): the row is listed
   * exactly when it matches the filter and its attraction exists.
   */
  lemma ListedIffAttractionExists(rows: seq<DailyRow>, atts: seq<Attraction>, f: Filter, i: nat)
    requires IdsAscending(rows) && i < |rows|
    ensures (exists x :: Listed(x, rows, atts, f) && x.id == rows[i].id)
      <==> Matches(f, rows[i].date, rows[i].attractionId) && exists j :: 0 <= j < |atts| && atts[j].id == rows[i].attractionId
  {
    if exists j :: 0 <= j < |atts| && atts[j].id == rows[i].attractionId {
      var j :| 0 <= j < |atts| && atts[j].id == rows[i].attractionId;
      if Matches(f, rows[i].date, rows[i].attractionId) {
        assert Listed(Combine(rows[i], atts[j]), rows, atts, f);
      }
    }
    if exists x :: Listed(x, rows, atts, f) && x.id == rows[i].id {
      var x :| Listed(x, rows, atts, f) && x.id == rows[i].id;
      var i', j :| 0 <= i' < |rows| && 0 <= j < |atts| && Matches(f, rows[i'].date, rows[i'].attractionId)
        && atts[j].id == rows[i'].attractionId && x == Combine(rows[i'], atts[j]);
      IdsIdentifyRows(rows, i, i');
    }
  }

  /** `ORDER BY d.date DESC, a.name`: later dates first, then names in ascending order. */
  predicate DashboardLe(x: DashboardRow, y: DashboardRow)
    ensures DashboardLe(x, y) ==> LexLe(y.date, x.date)
    ensures x.date == y.date ==> (DashboardLe(x, y) <==> LexLe(x.attractionName, y.attractionName))
    ensures x.date != y.date ==> (DashboardLe(x, y) <==> !LexLe(x.date, y.date))
  {
    LexLeReflexive(y.date);
    LexLtTrichotomy(x.date, y.date);
    LexLt(y.date, x.date) || (x.date == y.date && LexLe(x.attractionName, y.attractionName))
  }

  /** The dashboard order is a total preorder, so sorting by it is well defined. */
  lemma DashboardOrder()
    ensures TotalPreorder(DashboardLe)
  {
    forall x: DashboardRow, y: DashboardRow ensures DashboardLe(x, y) || DashboardLe(y, x) {
      LexLtTrichotomy(x.date, y.date);
      LexLeTotal(x.attractionName, y.attractionName);
    }
    forall x: DashboardRow, y: DashboardRow, z: DashboardRow | DashboardLe(x, y) && DashboardLe(y, z)
      ensures DashboardLe(x, z)
    {
      LexLtTrichotomy(x.date, y.date);
      LexLtTrichotomy(y.date, z.date);
      LexLtTrichotomy(x.date, z.date);
      if x.date != y.date && y.date != z.date {
        LexLeTransitive(z.date, y.date, x.date);
      }
      if x.date == y.date && y.date == z.date {
        LexLeTransitive(x.attractionName, y.attractionName, z.attractionName);
      }
    }
  }

  /** Two rows compare equal only when they share date and attraction name: ties are confined to those. */
  lemma DashboardTies(x: DashboardRow, y: DashboardRow)
    requires DashboardLe(x, y) && DashboardLe(y, x)
    ensures x.date == y.date && x.attractionName == y.attractionName
  {
    LexLtTrichotomy(x.date, y.date);
    if x.date == y.date { LexLeAntisymmetric(x.attractionName, y.attractionName); }
  }

  /** `ORDER BY name` on attractions. */
  predicate NameLe(a: Attraction, b: Attraction) {
    LexLe(a.name, b.name)
  }

  lemma NameOrder()
    ensures TotalPreorder(NameLe)
  {
    forall a: Attraction, b: Attraction ensures NameLe(a, b) || NameLe(b, a) {
      LexLeTotal(a.name, b.name);
    }
    forall a: Attraction, b: Attraction, c: Attraction | NameLe(a, b) && NameLe(b, c) ensures NameLe(a, c) {
      LexLeTransitive(a.name, b.name, c.name);
    }
  }

  // ---------------------------------------------------------------------------
  // Summary
  // ---------------------------------------------------------------------------

  /** `SUM(d.qrcodes_delivered)` over a non-empty selection. */
  function SumQrcodes(rows: seq<DailyRow>): (n: int)
    ensures (forall k :: 0 <= k < |rows| ==> rows[k].qrcodesDelivered >= 0) ==> n >= 0
    ensures forall k :: 0 <= k < |rows| && (forall k' :: 0 <= k' < |rows| ==> rows[k'].qrcodesDelivered >= 0) ==> n >= rows[k].qrcodesDelivered
  {
    if rows == [] then 0 else rows[0].qrcodesDelivered + SumQrcodes(rows[1..])
  }

  /** `SUM(d.sales_made)` over a non-empty selection; it stays within the code sum when every row does. */
  function SumSales(rows: seq<DailyRow>): (n: int)
    ensures (forall k :: 0 <= k < |rows| ==> rows[k].salesMade >= 0) ==> n >= 0
    ensures (forall k :: 0 <= k < |rows| ==> rows[k].salesMade <= rows[k].qrcodesDelivered) ==> n <= SumQrcodes(rows)
  {
    if rows == [] then 0 else rows[0].salesMade + SumSales(rows[1..])
  }

  /**
   * The summary over the selected rows: their number, the two column sums
   * (NULL over no rows), and the percentage of the summed sales in the summed
   * codes rounded to two decimals, 0 when the summed codes are not positive
   * or NULL.
   */
  function SummaryOf(sel: seq<DailyRow>): (sm: Summary)
    ensures sm.totalDays == |sel|
    ensures sm.totalQrcodes.None? <==> sel == []
    ensures sm.totalSales.None? <==> sel == []
    ensures sel != [] ==> sm.totalQrcodes == Some(SumQrcodes(sel)) && sm.totalSales == Some(SumSales(sel))
    ensures sm.avgConversionRate == ConversionRate(SumSales(sel), SumQrcodes(sel))
  {
    var q := SumQrcodes(sel);
    var s := SumSales(sel);
    Summary(|sel|,
            if sel == [] then None else Some(q),
            if sel == [] then None else Some(s),
            if sel != [] && q > 0 then RoundDiv(s * 10000, q) else 0)
  }

  /** `total_days` counts matching rows, not distinct dates: two rows of one date count twice. */
  lemma SummaryCountsRows(rows: seq<DailyRow>, f: Filter)
    ensures SummaryOf(Selected(rows, f)).totalDays == CountMatching(rows, f)
  {
    SelectedCount(rows, f);
  }

  function CountMatching(rows: seq<DailyRow>, f: Filter): (n: nat)
    ensures n <= |rows|
  {
    if rows == [] then 0 else (if Matches(f, rows[0].date, rows[0].attractionId) then 1 else 0) + CountMatching(rows[1..], f)
  }

  lemma {:induction false} SelectedCount(rows: seq<DailyRow>, f: Filter)
    ensures |Selected(rows, f)| == CountMatching(rows, f)
  {
    if rows != [] { SelectedCount(rows[1..], f); }
  }

  /**
   * Rows (10, 5) and (0, 0): totals 10 and 5 and a rate of 50.00%, although
   * the per-row rates 50.00% and 0.00% average to 25.00%.
   */
  lemma SummaryOfSumsNotMeanOfRates()
    ensures var sel := [DailyRow(1, 1, "2024-01-01", 10, 5), DailyRow(2, 1, "2024-01-02", 0, 0)];
      && SummaryOf(sel) == Summary(2, Some(10), Some(5), 5000)
      && (ConversionRate(5, 10) + ConversionRate(0, 0)) / 2 == 2500
  {
    ConversionRateExamples();
    var sel := [DailyRow(1, 1, "2024-01-01", 10, 5), DailyRow(2, 1, "2024-01-02", 0, 0)];
    assert SumQrcodes(sel) == 10 && SumSales(sel) == 5;
  }

  /** A summary over no rows has NULL totals and a zero rate. */
  lemma SummaryOfNothing()
    ensures SummaryOf([]) == Summary(0, None, None, 0)
  {
  }
}
