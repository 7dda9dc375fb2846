/**
 * The two domain tables and the SQL statements the server runs against them,
 * as functions on the row sequence in rowid order: the natural-key lookup,
 * UPDATE ... WHERE id = ?, DELETE ... WHERE id = ?, and the upsert built from them.
 */
module Tables {
  import opened Wrappers

  /** A `daily_data` row (`created_at` is not modelled). */
  datatype DailyRow = DailyRow(id: int, attractionId: int, date: string, qrcodesDelivered: int, salesMade: int)

  /** An `attractions` row (`created_at` is not modelled). */
  datatype Attraction = Attraction(id: int, name: string)

  /** The SET part of an UPDATE on `daily_data`. */
  datatype Assignment =
    | SetCounters(qrcodes: int, sales: int)                                   // the upsert's update
    | SetAll(attractionId: int, date: string, qrcodes: int, sales: int)       // PUT /api/daily-data/:id

  /** The reply of `POST /api/daily-data`: updated in place, or inserted with this id. */
  datatype UpsertOutcome = Updated | Inserted(id: int)

  /** The reply of PUT and DELETE by id: success, or 404 when no row was affected. */
  datatype Status = Done | NotFound

  function Assigned(r: DailyRow, a: Assignment): (r': DailyRow)
    ensures r'.id == r.id
    ensures a.SetCounters? ==> r'.attractionId == r.attractionId && r'.date == r.date
  {
    match a
    case SetCounters(q, s) => r.(qrcodesDelivered := q, salesMade := s)
    case SetAll(aid, d, q, s) => r.(attractionId := aid, date := d, qrcodesDelivered := q, salesMade := s)
  }

  // ---------------------------------------------------------------------------
  // Table invariants
  // ---------------------------------------------------------------------------

  /** Rows are held in rowid order; AUTOINCREMENT ids only grow, so ids are strictly ascending. */
  predicate IdsAscending(rows: seq<DailyRow>) {
    forall i, j :: 0 <= i < j < |rows| ==> rows[i].id < rows[j].id
  }

  /** Ascending ids are unique: an id names one position. */
  lemma IdsIdentifyRows(rows: seq<DailyRow>, i: nat, j: nat)
    requires IdsAscending(rows) && i < |rows| && j < |rows|
    ensures rows[i].id == rows[j].id <==> i == j
  {
  }

  predicate AttractionIdsAscending(atts: seq<Attraction>) {
    forall i, j :: 0 <= i < j < |atts| ==> atts[i].id < atts[j].id
  }

  predicate HasKey(r: DailyRow, attractionId: int, date: string) {
    r.attractionId == attractionId && r.date == date
  }

  /** At most one row per `(attraction_id, date)`; nothing in the schema enforces it. */
  predicate KeysUnique(rows: seq<DailyRow>) {
    forall i, j :: 0 <= i < j < |rows| ==> !HasKey(rows[j], rows[i].attractionId, rows[i].date)
  }

  function CountKey(rows: seq<DailyRow>, attractionId: int, date: string): (n: nat)
    ensures n <= |rows|
    ensures n == 0 <==> forall k :: 0 <= k < |rows| ==> !HasKey(rows[k], attractionId, date)
  {
    if rows == [] then 0
    else (if HasKey(rows[0], attractionId, date) then 1 else 0) + CountKey(rows[1..], attractionId, date)
  }

  /** `this.changes` of a statement `WHERE id = ?`: the number of rows with that id. */
  function CountId(rows: seq<DailyRow>, id: int): (n: nat)
    ensures n <= |rows|
    ensures n == 0 <==> forall k :: 0 <= k < |rows| ==> rows[k].id != id
  {
    if rows == [] then 0
    else (if rows[0].id == id then 1 else 0) + CountId(rows[1..], id)
  }

  // ---------------------------------------------------------------------------
  // Statements
  // ---------------------------------------------------------------------------

  /**
   * The upsert's single-row lookup of the id stored under an attraction and a
   * date: the first matching row in rowid order, if any.
   */
  function FindKey(rows: seq<DailyRow>, attractionId: int, date: string): (r: Option<nat>)
    ensures r.Some? ==> r.value < |rows| && HasKey(rows[r.value], attractionId, date)
    ensures r.Some? ==> forall k :: 0 <= k < r.value ==> !HasKey(rows[k], attractionId, date)
    ensures r.None? <==> forall k :: 0 <= k < |rows| ==> !HasKey(rows[k], attractionId, date)
  {
    if rows == [] then None
    else if HasKey(rows[0], attractionId, date) then Some(0)
    else match FindKey(rows[1..], attractionId, date)
      case None => None
      case Some(i) => Some(i + 1)
  }

  /** An UPDATE of `daily_data` by id: every row with that id gets the assignment, the others stay. */
  function UpdateWhereId(rows: seq<DailyRow>, id: int, a: Assignment): (r: seq<DailyRow>)
    ensures |r| == |rows|
    ensures forall k :: 0 <= k < |rows| ==> r[k] == if rows[k].id == id then Assigned(rows[k], a) else rows[k]
  {
    if rows == [] then []
    else [if rows[0].id == id then Assigned(rows[0], a) else rows[0]] + UpdateWhereId(rows[1..], id, a)
  }

  /** A DELETE from `daily_data` by id: exactly the rows without that id remain, in order. */
  function DeleteWhereId(rows: seq<DailyRow>, id: int): (r: seq<DailyRow>)
    ensures |r| + CountId(rows, id) == |rows|
    ensures forall k :: 0 <= k < |r| ==> r[k].id != id
  {
    if rows == [] then []
    else if rows[0].id == id then DeleteWhereId(rows[1..], id)
    else [rows[0]] + DeleteWhereId(rows[1..], id)
  }

  /**
   * `POST /api/daily-data`: look the key up; if a row has it, update that row's
   * counters by its id, otherwise append a row under the next AUTOINCREMENT id.
   */
  function UpsertRows(rows: seq<DailyRow>, nextId: int, attractionId: int, date: string, qrcodes: int, sales: int): (r: seq<DailyRow>)
    ensures |r| == |rows| + (if CountKey(rows, attractionId, date) == 0 then 1 else 0)
    ensures forall k :: 0 <= k < |rows| ==> r[k].id == rows[k].id && r[k].attractionId == rows[k].attractionId && r[k].date == rows[k].date
  {
    match FindKey(rows, attractionId, date)
    case Some(i) => UpdateWhereId(rows, rows[i].id, SetCounters(qrcodes, sales))
    case None => rows + [DailyRow(nextId, attractionId, date, qrcodes, sales)]
  }

  function UpsertOutcomeOf(rows: seq<DailyRow>, nextId: int, attractionId: int, date: string): (o: UpsertOutcome)
    ensures o == Updated <==> CountKey(rows, attractionId, date) > 0
    ensures o.Inserted? ==> o.id == nextId
  {
    if FindKey(rows, attractionId, date).Some? then Updated else Inserted(nextId)
  }

  // ---------------------------------------------------------------------------
  // Properties of the statements
  // ---------------------------------------------------------------------------

  /** With unique ids, an UPDATE by the id at index `i` changes that row alone. */
  lemma UpdateAtIndex(rows: seq<DailyRow>, i: nat, a: Assignment)
    requires IdsAscending(rows) && i < |rows|
    ensures UpdateWhereId(rows, rows[i].id, a) == rows[i := Assigned(rows[i], a)]
  {
    var r := UpdateWhereId(rows, rows[i].id, a);
    forall k | 0 <= k < |rows| ensures r[k] == rows[i := Assigned(rows[i], a)][k] {
      if k < i { assert rows[k].id < rows[i].id; }
      if k > i { assert rows[i].id < rows[k].id; }
    }
  }

  /** A statement `WHERE id = ?` matching no row leaves the table as it was. */
  lemma {:induction false} AbsentIdUnchanged(rows: seq<DailyRow>, id: int, a: Assignment)
    requires CountId(rows, id) == 0
    ensures UpdateWhereId(rows, id, a) == rows
    ensures DeleteWhereId(rows, id) == rows
  {
    if rows != [] {
      AbsentIdUnchanged(rows[1..], id, a);
      assert rows == [rows[0]] + rows[1..];
    }
  }

  /** DELETE removes the rows with that id and keeps every other row. */
  lemma {:induction false} DeleteMembers(rows: seq<DailyRow>, id: int)
    ensures forall x :: x in DeleteWhereId(rows, id) <==> x in rows && x.id != id
  {
    if rows != [] {
      DeleteMembers(rows[1..], id);
      assert rows == [rows[0]] + rows[1..];
    }
  }

  /** A property every row has survives DELETE: ids above a bound. */
  lemma {:induction false} DeleteKeepsIdsAbove(rows: seq<DailyRow>, id: int, bound: int)
    requires forall k :: 0 <= k < |rows| ==> rows[k].id > bound
    ensures forall k :: 0 <= k < |DeleteWhereId(rows, id)| ==> DeleteWhereId(rows, id)[k].id > bound
  {
    if rows != [] {
      DeleteKeepsIdsAbove(rows[1..], id, bound);
    }
  }

  /** A property every row has survives DELETE: not having a given key. */
  lemma {:induction false} DeleteKeepsKeyAbsent(rows: seq<DailyRow>, id: int, attractionId: int, date: string)
    requires forall k :: 0 <= k < |rows| ==> !HasKey(rows[k], attractionId, date)
    ensures forall k :: 0 <= k < |DeleteWhereId(rows, id)| ==> !HasKey(DeleteWhereId(rows, id)[k], attractionId, date)
  {
    if rows != [] {
      DeleteKeepsKeyAbsent(rows[1..], id, attractionId, date);
    }
  }

  /** DELETE keeps ids ascending. */
  lemma {:induction false} DeleteKeepsIdsAscending(rows: seq<DailyRow>, id: int)
    requires IdsAscending(rows)
    ensures IdsAscending(DeleteWhereId(rows, id))
  {
    if rows != [] {
      DeleteKeepsIdsAscending(rows[1..], id);
      var tail := DeleteWhereId(rows[1..], id);
      if rows[0].id != id {
        assert forall k :: 0 <= k < |rows[1..]| ==> rows[1..][k].id > rows[0].id;
        DeleteKeepsIdsAbove(rows[1..], id, rows[0].id);
        var r := [rows[0]] + tail;
        assert forall i, j :: 0 < i < j < |r| ==> r[i] == tail[i - 1] && r[j] == tail[j - 1];
      }
    }
  }

  /** DELETE keeps natural keys unique. */
  lemma {:induction false} DeleteKeepsKeysUnique(rows: seq<DailyRow>, id: int)
    requires KeysUnique(rows)
    ensures KeysUnique(DeleteWhereId(rows, id))
  {
    if rows != [] {
      assert KeysUnique(rows[1..]) by {
        assert forall i :: 0 <= i < |rows| - 1 ==> rows[1..][i] == rows[i + 1];
      }
      DeleteKeepsKeysUnique(rows[1..], id);
      var tail := DeleteWhereId(rows[1..], id);
      if rows[0].id != id {
        assert forall k :: 0 <= k < |rows[1..]| ==> !HasKey(rows[1..][k], rows[0].attractionId, rows[0].date);
        DeleteKeepsKeyAbsent(rows[1..], id, rows[0].attractionId, rows[0].date);
        var r := [rows[0]] + tail;
        assert forall i, j :: 0 < i < j < |r| ==> r[i] == tail[i - 1] && r[j] == tail[j - 1];
      }
    }
  }

  /** Below the first row, ids still ascend and all lie above the first id. */
  lemma IdsAscendingTail(rows: seq<DailyRow>)
    requires IdsAscending(rows) && rows != []
    ensures IdsAscending(rows[1..])
    ensures forall k :: 0 <= k < |rows[1..]| ==> rows[0].id < rows[1..][k].id
  {
    forall p, q | 0 <= p < q < |rows| - 1 ensures rows[1..][p].id < rows[1..][q].id {
      assert rows[1..][p] == rows[p + 1] && rows[1..][q] == rows[q + 1];
    }
    forall k | 0 <= k < |rows[1..]| ensures rows[0].id < rows[1..][k].id {
      assert rows[1..][k] == rows[k + 1];
    }
  }

  /** Putting the first row back in front of a splice of the rest. */
  lemma ConsSplice(rows: seq<DailyRow>, i: nat)
    requires 0 < i < |rows|
    ensures [rows[0]] + (rows[1..][..i - 1] + rows[1..][i..]) == rows[..i] + rows[i + 1..]
  {
    assert rows[1..][..i - 1] == rows[1..i] && rows[1..][i..] == rows[i + 1..];
    assert rows[..i] == [rows[0]] + rows[1..i];
  }

  /** With unique ids, DELETE by the id at index `i` removes exactly that row and keeps the others in order. */
  lemma {:induction false} DeleteAtIndex(rows: seq<DailyRow>, i: nat)
    requires IdsAscending(rows) && i < |rows|
    ensures DeleteWhereId(rows, rows[i].id) == rows[..i] + rows[i + 1..]
  {
    var id := rows[i].id;
    var tail := rows[1..];
    IdsAscendingTail(rows);
    if i == 0 {
      AbsentIdUnchanged(tail, id, SetCounters(0, 0));
    } else {
      assert tail[i - 1] == rows[i];
      DeleteAtIndex(tail, i - 1);
      ConsSplice(rows, i);
    }
  }

  /** When the key is present the upsert overwrites that row's two counters and nothing else. */
  lemma UpsertExisting(rows: seq<DailyRow>, nextId: int, attractionId: int, date: string, qrcodes: int, sales: int)
    requires IdsAscending(rows)
    requires FindKey(rows, attractionId, date).Some?
    ensures var i := FindKey(rows, attractionId, date).value;
      && UpsertRows(rows, nextId, attractionId, date, qrcodes, sales)
         == rows[i := rows[i].(qrcodesDelivered := qrcodes, salesMade := sales)]
      && UpsertOutcomeOf(rows, nextId, attractionId, date) == Updated
  {
    UpdateAtIndex(rows, FindKey(rows, attractionId, date).value, SetCounters(qrcodes, sales));
  }

  /** After an upsert some row holds the key with the posted counters: the first row of the key, or the appended one. */
  lemma UpsertStoresCounters(rows: seq<DailyRow>, nextId: int, attractionId: int, date: string, qrcodes: int, sales: int)
    ensures var r := UpsertRows(rows, nextId, attractionId, date, qrcodes, sales);
      exists k :: 0 <= k < |r| && HasKey(r[k], attractionId, date) && r[k].qrcodesDelivered == qrcodes && r[k].salesMade == sales
  {
    var r := UpsertRows(rows, nextId, attractionId, date, qrcodes, sales);
    match FindKey(rows, attractionId, date)
    case Some(i) =>
      assert HasKey(r[i], attractionId, date) && r[i].qrcodesDelivered == qrcodes && r[i].salesMade == sales;
    case None =>
      assert HasKey(r[|rows|], attractionId, date) && r[|rows|].qrcodesDelivered == qrcodes && r[|rows|].salesMade == sales;
  }

  /** When the key is absent the upsert appends one row with the four given fields under `nextId`, a fresh id. */
  lemma UpsertNew(rows: seq<DailyRow>, nextId: int, attractionId: int, date: string, qrcodes: int, sales: int)
    requires forall k :: 0 <= k < |rows| ==> rows[k].id < nextId
    requires FindKey(rows, attractionId, date).None?
    ensures UpsertRows(rows, nextId, attractionId, date, qrcodes, sales) == rows + [DailyRow(nextId, attractionId, date, qrcodes, sales)]
    ensures UpsertOutcomeOf(rows, nextId, attractionId, date) == Inserted(nextId)
    ensures CountId(rows, nextId) == 0
  {
  }

  /** An upsert never creates a second row for a key: unique keys stay unique. */
  lemma UpsertKeepsKeysUnique(rows: seq<DailyRow>, nextId: int, attractionId: int, date: string, qrcodes: int, sales: int)
    requires IdsAscending(rows) && KeysUnique(rows)
    ensures KeysUnique(UpsertRows(rows, nextId, attractionId, date, qrcodes, sales))
  {
    var r := UpsertRows(rows, nextId, attractionId, date, qrcodes, sales);
    match FindKey(rows, attractionId, date)
    case Some(i) =>
      UpsertExisting(rows, nextId, attractionId, date, qrcodes, sales);
      forall p, q | 0 <= p < q < |r| ensures !HasKey(r[q], r[p].attractionId, r[p].date) {
        assert HasKey(r[q], r[p].attractionId, r[p].date) == HasKey(rows[q], rows[p].attractionId, rows[p].date);
      }
    case None =>
      forall p, q | 0 <= p < q < |r| ensures !HasKey(r[q], r[p].attractionId, r[p].date) {
        if q == |rows| { assert r[p] == rows[p]; }
      }
  }

  /** The key's row count after an upsert: one if there was none, otherwise unchanged. */
  lemma UpsertKeyCount(rows: seq<DailyRow>, nextId: int, attractionId: int, date: string, qrcodes: int, sales: int)
    requires IdsAscending(rows)
    ensures var n := CountKey(rows, attractionId, date);
      CountKey(UpsertRows(rows, nextId, attractionId, date, qrcodes, sales), attractionId, date) == if n == 0 then 1 else n
  {
    match FindKey(rows, attractionId, date)
    case Some(i) =>
      UpsertExisting(rows, nextId, attractionId, date, qrcodes, sales);
      CountKeyAfterCounters(rows, i, attractionId, date, qrcodes, sales);
    case None =>
      CountKeyAppend(rows, DailyRow(nextId, attractionId, date, qrcodes, sales), attractionId, date);
  }

  lemma {:induction false} CountKeyAfterCounters(rows: seq<DailyRow>, i: nat, attractionId: int, date: string, qrcodes: int, sales: int)
    requires i < |rows|
    ensures CountKey(rows[i := rows[i].(qrcodesDelivered := qrcodes, salesMade := sales)], attractionId, date) == CountKey(rows, attractionId, date)
  {
    var r := rows[i := rows[i].(qrcodesDelivered := qrcodes, salesMade := sales)];
    if i > 0 {
      CountKeyAfterCounters(rows[1..], i - 1, attractionId, date, qrcodes, sales);
      assert r[1..] == rows[1..][i - 1 := rows[i].(qrcodesDelivered := qrcodes, salesMade := sales)];
    } else {
      assert r[1..] == rows[1..];
    }
  }

  lemma {:induction false} CountKeyAppend(rows: seq<DailyRow>, x: DailyRow, attractionId: int, date: string)
    ensures CountKey(rows + [x], attractionId, date) == CountKey(rows, attractionId, date) + if HasKey(x, attractionId, date) then 1 else 0
  {
    if rows != [] {
      CountKeyAppend(rows[1..], x, attractionId, date);
      assert (rows + [x])[1..] == rows[1..] + [x];
    }
  }

  /** An upsert keeps ids ascending and below the next id it leaves behind. */
  lemma UpsertKeepsIds(rows: seq<DailyRow>, nextId: int, attractionId: int, date: string, qrcodes: int, sales: int)
    requires IdsAscending(rows) && 1 <= nextId
    requires forall k :: 0 <= k < |rows| ==> 1 <= rows[k].id < nextId
    ensures var r := UpsertRows(rows, nextId, attractionId, date, qrcodes, sales);
      var next := if UpsertOutcomeOf(rows, nextId, attractionId, date).Inserted? then nextId + 1 else nextId;
      IdsAscending(r) && forall k :: 0 <= k < |r| ==> 1 <= r[k].id < next
  {
    if FindKey(rows, attractionId, date).Some? {
      UpsertExisting(rows, nextId, attractionId, date, qrcodes, sales);
    }
  }

  /** Overwriting counters does not move the first row of a key. */
  lemma FirstKeyAfterCounters(rows: seq<DailyRow>, i: nat, attractionId: int, date: string, qrcodes: int, sales: int)
    requires FindKey(rows, attractionId, date) == Some(i)
    ensures FindKey(rows[i := rows[i].(qrcodesDelivered := qrcodes, salesMade := sales)], attractionId, date) == Some(i)
  {
    var r := rows[i := rows[i].(qrcodesDelivered := qrcodes, salesMade := sales)];
    assert forall k :: 0 <= k < |r| ==> HasKey(r[k], attractionId, date) == HasKey(rows[k], attractionId, date);
    assert HasKey(r[i], attractionId, date);
  }

  /** The upsert's row for the key is the first row that had it, or else the appended last row. */
  lemma UpsertFoundRow(rows: seq<DailyRow>, nextId: int, attractionId: int, date: string, qrcodes: int, sales: int)
    requires IdsAscending(rows)
    requires forall k :: 0 <= k < |rows| ==> rows[k].id < nextId
    ensures FindKey(UpsertRows(rows, nextId, attractionId, date, qrcodes, sales), attractionId, date)
      == (if FindKey(rows, attractionId, date).Some? then FindKey(rows, attractionId, date) else Some(|rows|))
  {
    var r := UpsertRows(rows, nextId, attractionId, date, qrcodes, sales);
    match FindKey(rows, attractionId, date)
    case Some(i) =>
      UpsertExisting(rows, nextId, attractionId, date, qrcodes, sales);
      FirstKeyAfterCounters(rows, i, attractionId, date, qrcodes, sales);
    case None =>
      UpsertNew(rows, nextId, attractionId, date, qrcodes, sales);
      assert HasKey(r[|rows|], attractionId, date);
      assert forall k :: 0 <= k < |rows| ==> !HasKey(r[k], attractionId, date);
  }

  /**
   * Two upserts on one key, the second with new counters: the second reports
   * `Updated`, the key has exactly one row if it had at most one before, and
   * the second call updates the row the first one found or appended, which
   * then carries the second call's counters.
   */
  lemma UpsertTwice(rows: seq<DailyRow>, nextId: int, attractionId: int, date: string, q1: int, s1: int, q2: int, s2: int)
    requires IdsAscending(rows) && 1 <= nextId
    requires forall k :: 0 <= k < |rows| ==> 1 <= rows[k].id < nextId
    requires CountKey(rows, attractionId, date) <= 1
    ensures var once := UpsertRows(rows, nextId, attractionId, date, q1, s1);
      var next := if UpsertOutcomeOf(rows, nextId, attractionId, date).Inserted? then nextId + 1 else nextId;
      var twice := UpsertRows(once, next, attractionId, date, q2, s2);
      && UpsertOutcomeOf(once, next, attractionId, date) == Updated
      && CountKey(twice, attractionId, date) == 1
      && FindKey(once, attractionId, date)
         == (if FindKey(rows, attractionId, date).Some? then FindKey(rows, attractionId, date) else Some(|rows|))
      && FindKey(twice, attractionId, date) == FindKey(once, attractionId, date)
      && twice[FindKey(twice, attractionId, date).value].qrcodesDelivered == q2
      && twice[FindKey(twice, attractionId, date).value].salesMade == s2
  {
    var once := UpsertRows(rows, nextId, attractionId, date, q1, s1);
    var next := if UpsertOutcomeOf(rows, nextId, attractionId, date).Inserted? then nextId + 1 else nextId;
    UpsertKeepsIds(rows, nextId, attractionId, date, q1, s1);
    UpsertKeyCount(rows, nextId, attractionId, date, q1, s1);
    UpsertFoundRow(rows, nextId, attractionId, date, q1, s1);
    var i := FindKey(once, attractionId, date).value;
    UpsertExisting(once, next, attractionId, date, q2, s2);
    UpsertKeyCount(once, next, attractionId, date, q2, s2);
    FirstKeyAfterCounters(once, i, attractionId, date, q2, s2);
  }

  /** The update by id does not look at the natural key: it can give two rows the same `(attraction_id, date)`. */
  lemma UpdateByIdCanDuplicateKeys()
    ensures var rows := [DailyRow(1, 1, "2024-01-01", 10, 1), DailyRow(2, 1, "2024-01-02", 20, 2)];
      && KeysUnique(rows)
      && !KeysUnique(UpdateWhereId(rows, 2, SetAll(1, "2024-01-01", 30, 3)))
  {
    var rows := [DailyRow(1, 1, "2024-01-01", 10, 1), DailyRow(2, 1, "2024-01-02", 20, 2)];
    var r := UpdateWhereId(rows, 2, SetAll(1, "2024-01-01", 30, 3));
    assert r[0] == rows[0] && r[1] == DailyRow(2, 1, "2024-01-01", 30, 3);
    assert rows[0].date != rows[1].date by { assert rows[0].date[9] != rows[1].date[9]; }
  }
}
