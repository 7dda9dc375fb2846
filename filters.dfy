/**
 * The three optional query filters shared by the dashboard listing and the
 * summary (`startDate`, `endDate`, `attractionId`) and the WHERE clauses the
 * server appends for them one at a time.
 */
module Filters {
  import opened Wrappers
  import opened Strings

  /** The query parameters as the server receives them; an absent parameter is `None`. */
  datatype Filter = Filter(startDate: Option<string>, endDate: Option<string>, attractionId: Option<string>)

  /** JavaScript truthiness of a query parameter: present and not the empty string. */
  predicate Truthy(p: Option<string>) {
    p.Some? && p.value != ""
  }

  /** The attraction filter applies unless it is absent, empty or the sentinel `all`. */
  predicate AttractionFilterApplies(p: Option<string>) {
    Truthy(p) && p.value != "all"
  }

  /**
   * `d.attraction_id = ?` with a TEXT parameter: the INTEGER column's affinity
   * turns a numeral into its integer value; any other text equals no integer.
   */
  predicate AttractionParamEquals(param: string, attractionId: int) {
    ParseDecimal(param) == Some(attractionId)
  }

  /** The filter semantics: each active filter must hold (conjunction). */
  predicate Matches(f: Filter, date: string, attractionId: int)
    ensures !Truthy(f.startDate) && !Truthy(f.endDate) && !AttractionFilterApplies(f.attractionId) ==> Matches(f, date, attractionId)
  {
    && (Truthy(f.startDate) ==> LexLe(f.startDate.value, date))
    && (Truthy(f.endDate) ==> LexLe(date, f.endDate.value))
    && (AttractionFilterApplies(f.attractionId) ==> AttractionParamEquals(f.attractionId.value, attractionId))
  }

  /** One appended condition together with its bound parameter. */
  datatype Clause =
    | DateFrom(start: string)      // AND d.date >= ?
    | DateTo(end: string)          // AND d.date <= ?
    | AttractionIs(param: string)  // AND d.attraction_id = ?

  predicate ClauseHolds(c: Clause, date: string, attractionId: int) {
    match c
    case DateFrom(start) => LexLe(start, date)
    case DateTo(end) => LexLe(date, end)
    case AttractionIs(param) => AttractionParamEquals(param, attractionId)
  }

  /** `WHERE 1=1 AND ...`: every appended clause holds. */
  predicate AllHold(cs: seq<Clause>, date: string, attractionId: int) {
    forall k :: 0 <= k < |cs| ==> ClauseHolds(cs[k], date, attractionId)
  }

  function ActiveCount(f: Filter): nat {
    (if Truthy(f.startDate) then 1 else 0) + (if Truthy(f.endDate) then 1 else 0)
      + (if AttractionFilterApplies(f.attractionId) then 1 else 0)
  }

  /**
   * Appends one clause per active filter, in the order start date, end date,
   * attraction. A row passes the resulting WHERE exactly when it matches the filter.
   */
  method BuildClauses(f: Filter) returns (cs: seq<Clause>)
    ensures |cs| == ActiveCount(f)
    ensures forall date, attractionId :: AllHold(cs, date, attractionId) <==> Matches(f, date, attractionId)
    ensures Truthy(f.startDate) ==> cs[0] == DateFrom(f.startDate.value)
    ensures AttractionFilterApplies(f.attractionId) ==> cs[|cs| - 1] == AttractionIs(f.attractionId.value)
  {
    cs := [];
    if Truthy(f.startDate) {
      AppendClause(cs, DateFrom(f.startDate.value));
      cs := cs + [DateFrom(f.startDate.value)];
    }
    assert forall date, attractionId :: AllHold(cs, date, attractionId) <==> (Truthy(f.startDate) ==> LexLe(f.startDate.value, date));
    ghost var before := cs;
    if Truthy(f.endDate) {
      AppendClause(cs, DateTo(f.endDate.value));
      cs := cs + [DateTo(f.endDate.value)];
    }
    assert forall date, attractionId :: AllHold(cs, date, attractionId) <==> AllHold(before, date, attractionId) && (Truthy(f.endDate) ==> LexLe(date, f.endDate.value));
    before := cs;
    if AttractionFilterApplies(f.attractionId) {
      AppendClause(cs, AttractionIs(f.attractionId.value));
      cs := cs + [AttractionIs(f.attractionId.value)];
    }
    assert forall date, attractionId :: AllHold(cs, date, attractionId) <==> AllHold(before, date, attractionId) && (AttractionFilterApplies(f.attractionId) ==> AttractionParamEquals(f.attractionId.value, attractionId));
  }

  /** Appending a clause adds one more conjunct. */
  lemma AppendClause(cs: seq<Clause>, c: Clause)
    ensures forall date, attractionId :: AllHold(cs + [c], date, attractionId) <==> AllHold(cs, date, attractionId) && ClauseHolds(c, date, attractionId)
  {
    forall date, attractionId
      ensures AllHold(cs + [c], date, attractionId) <==> AllHold(cs, date, attractionId) && ClauseHolds(c, date, attractionId)
    {
      assert (cs + [c])[|cs|] == c;
      assert forall k :: 0 <= k < |cs| ==> (cs + [c])[k] == cs[k];
    }
  }

  /** A start date after the end date selects nothing: a matching date would lie between them. */
  lemma {:induction false} InvertedRangeMatchesNothing(f: Filter, date: string, attractionId: int)
    requires Truthy(f.startDate) && Truthy(f.endDate) && !LexLe(f.startDate.value, f.endDate.value)
    ensures !Matches(f, date, attractionId)
  {
    if Matches(f, date, attractionId) {
      LexLeTransitive(f.startDate.value, date, f.endDate.value);
    }
  }

  /** An attraction filter given as the numeral of an id selects exactly the rows of that attraction. */
  lemma AttractionNumeralSelects(n: nat, date: string, attractionId: int)
    ensures AttractionFilterApplies(Some(ToDecimal(n)))
    ensures Matches(Filter(None, None, Some(ToDecimal(n))), date, attractionId) <==> attractionId == n
  {
    ParseToDecimal(n);
    assert ToDecimal(n)[0] != 'a';
  }
}
