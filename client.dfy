/**
 * The browser side of the dashboard (frontend/src/App.js): date formatting,
 * the query built from the filter bar, the data and attraction forms with
 * their required-field checks, and the session and dashboard state that the
 * handlers update.
 */
module Client {
  import opened Wrappers
  import opened Strings
  import Filters
  import Queries
  import Auth

  // ---------------------------------------------------------------------------
  // formatDate
  // ---------------------------------------------------------------------------

  /** `/^\d{4}-\d{2}-\d{2}/`: the string starts with `YYYY-MM-DD` in ASCII digits. */
  predicate IsoDatePrefix(s: string) {
    && |s| >= 10
    && IsDigit(s[0]) && IsDigit(s[1]) && IsDigit(s[2]) && IsDigit(s[3]) && s[4] == '-'
    && IsDigit(s[5]) && IsDigit(s[6]) && s[7] == '-' && IsDigit(s[8]) && IsDigit(s[9])
  }

  /** Array destructuring of `[year, month, day]`: a missing element is `undefined`, and the template prints it so. */
  function Element(parts: seq<string>, i: nat): string {
    if i < |parts| then parts[i] else "undefined"
  }

  /**
   * `formatDate`: a falsy (empty) input gives `''`; a string starting with
   * `YYYY-MM-DD` is cut at the first `T`, split on `-` and reassembled as
   * `day/month/year`. `None` stands for the `new Date(...)` fallback.
   */
  function FormatDate(s: string): (r: Option<string>)
    ensures r.Some? <==> s == "" || IsoDatePrefix(s)
    ensures r == Some("") <==> s == ""
  {
    if s == "" then Some("")
    else if IsoDatePrefix(s) then
      var parts := Split(Split(s, 'T')[0], '-');
      Some(Element(parts, 2) + "/" + Element(parts, 1) + "/" + Element(parts, 0))
    else None
  }

  /** Digit fields of widths 4, 2 and 2. */
  predicate DateParts(y: string, m: string, d: string) {
    |y| == 4 && |m| == 2 && |d| == 2 && AllDigits(y) && AllDigits(m) && AllDigits(d)
  }

  lemma DateSplits(y: string, m: string, d: string)
    requires DateParts(y, m, d)
    ensures Split(y + "-" + m + "-" + d, '-') == [y, m, d]
  {
    assert [y, m, d][1..] == [m, d] && [m, d][1..] == [d];
    assert Join([m, d], '-') == m + "-" + d;
    assert y + "-" + m + "-" + d == Join([y, m, d], '-');
    SplitJoin([y, m, d], '-');
  }

  lemma DateShape(y: string, m: string, d: string, rest: string)
    requires DateParts(y, m, d)
    ensures 'T' !in y + "-" + m + "-" + d
    ensures IsoDatePrefix(y + "-" + m + "-" + d + rest)
  {
    var a := y + "-" + m + "-" + d;
    assert forall k :: 0 <= k < |a| ==> a[k] == '-' || IsDigit(a[k]);
    assert (a + rest)[..10] == a;
  }

  /**
   * A stored date `YYYY-MM-DD`, bare or followed by a time part `T...`, is
   * shown as `DD/MM/YYYY` (so `2024-01-05T00:00:00` is shown as `05/01/2024`);
   * the empty string is shown as itself.
   */
  lemma FormatDateOf(y: string, m: string, d: string, rest: string)
    requires |y| == 4 && |m| == 2 && |d| == 2 && AllDigits(y) && AllDigits(m) && AllDigits(d)
    requires rest == "" || rest[0] == 'T'
    ensures FormatDate(y + "-" + m + "-" + d + rest) == Some(d + "/" + m + "/" + y)
    ensures FormatDate("") == Some("")
  {
    var a := y + "-" + m + "-" + d;
    DateShape(y, m, d, rest);
    SplitFirstField(a, rest, 'T');
    DateSplits(y, m, d);
  }

  // ---------------------------------------------------------------------------
  // Query parameters (loadData)
  // ---------------------------------------------------------------------------

  /** The filter bar: two date inputs and the attraction select (`'all'` or an attraction id). */
  datatype FilterForm = FilterForm(startDate: string, endDate: string, attractionId: string)

  const InitialFilters := FilterForm("", "", "all")

  /** A `URLSearchParams` as the sequence of its name/value pairs. */
  type Params = seq<(string, string)>

  /** The value under `key`, read from the first pair that has it; the parameters built here never repeat a key. */
  function Lookup(params: Params, key: string): (r: Option<string>)
    ensures r.None? <==> forall k :: 0 <= k < |params| ==> params[k].0 != key
    ensures r.Some? ==> (key, r.value) in params
  {
    if params == [] then None
    else if params[0].0 == key then Some(params[0].1)
    else Lookup(params[1..], key)
  }

  /** The position of each parameter name in the order `loadData` appends them. */
  function KeyRank(key: string): nat {
    if key == "startDate" then 0 else if key == "endDate" then 1 else if key == "attractionId" then 2 else 3
  }

  /**
   * The parameters `loadData` sends: each date only when filled in, the
   * attraction unless it is `'all'`, in that order and nothing else.
   */
  function QueryParams(f: FilterForm): (params: Params)
    ensures forall i, j :: 0 <= i < j < |params| ==> KeyRank(params[i].0) < KeyRank(params[j].0)
    ensures forall k :: 0 <= k < |params| ==> KeyRank(params[k].0) < 3
  {
    (if f.startDate != "" then [("startDate", f.startDate)] else [])
    + (if f.endDate != "" then [("endDate", f.endDate)] else [])
    + (if f.attractionId != "all" then [("attractionId", f.attractionId)] else [])
  }

  /** Looking up a name in two parameter lists one after the other. */
  lemma {:induction false} LookupAppend(a: Params, b: Params, key: string)
    ensures Lookup(a + b, key) == if Lookup(a, key).Some? then Lookup(a, key) else Lookup(b, key)
  {
    if a != [] {
      assert (a + b)[1..] == a[1..] + b;
      LookupAppend(a[1..], b, key);
    } else {
      assert a + b == b;
    }
  }

  /** Each filter reaches the server under its own name exactly when `loadData` appends it. */
  lemma QueryParamsLookup(f: FilterForm)
    ensures Lookup(QueryParams(f), "startDate") == (if f.startDate != "" then Some(f.startDate) else None)
    ensures Lookup(QueryParams(f), "endDate") == (if f.endDate != "" then Some(f.endDate) else None)
    ensures Lookup(QueryParams(f), "attractionId") == (if f.attractionId != "all" then Some(f.attractionId) else None)
  {
    var p1: Params := if f.startDate != "" then [("startDate", f.startDate)] else [];
    var p2: Params := if f.endDate != "" then [("endDate", f.endDate)] else [];
    var p3: Params := if f.attractionId != "all" then [("attractionId", f.attractionId)] else [];
    assert QueryParams(f) == (p1 + p2) + p3;
    LookupAppend(p1 + p2, p3, "startDate");
    LookupAppend(p1 + p2, p3, "endDate");
    LookupAppend(p1 + p2, p3, "attractionId");
    LookupAppend(p1, p2, "startDate");
    LookupAppend(p1, p2, "endDate");
    LookupAppend(p1, p2, "attractionId");
  }

  /** `new URLSearchParams()` followed by the conditional `append`s. */
  method BuildParams(f: FilterForm) returns (params: Params)
    ensures params == QueryParams(f)
  {
    params := [];
    if f.startDate != "" {
      params := params + [("startDate", f.startDate)];
    }
    if f.endDate != "" {
      params := params + [("endDate", f.endDate)];
    }
    if f.attractionId != "all" {
      params := params + [("attractionId", f.attractionId)];
    }
  }

  /** The filter the dashboard and summary routes read from the query. */
  function ServerFilter(params: Params): (f: Filters.Filter)
    ensures f.startDate.None? <==> forall k :: 0 <= k < |params| ==> params[k].0 != "startDate"
    ensures f.endDate.None? <==> forall k :: 0 <= k < |params| ==> params[k].0 != "endDate"
    ensures f.attractionId.None? <==> forall k :: 0 <= k < |params| ==> params[k].0 != "attractionId"
    ensures f.startDate.Some? ==> ("startDate", f.startDate.value) in params
    ensures f.endDate.Some? ==> ("endDate", f.endDate.value) in params
    ensures f.attractionId.Some? ==> ("attractionId", f.attractionId.value) in params
  {
    Filters.Filter(Lookup(params, "startDate"), Lookup(params, "endDate"), Lookup(params, "attractionId"))
  }

  /** What the filter bar means: an empty date or the `'all'` (or empty) choice imposes nothing. */
  predicate FormSelects(f: FilterForm, date: string, attractionId: int) {
    && (f.startDate != "" ==> LexLe(f.startDate, date))
    && (f.endDate != "" ==> LexLe(date, f.endDate))
    && (f.attractionId != "all" && f.attractionId != "" ==> ParseDecimal(f.attractionId) == Some(attractionId))
  }

  /** Client and server together: the server keeps a record exactly when the filter bar selects it. */
  lemma ParamsSelectAsForm(f: FilterForm, date: string, attractionId: int)
    ensures Filters.Matches(ServerFilter(QueryParams(f)), date, attractionId) <==> FormSelects(f, date, attractionId)
  {
    QueryParamsLookup(f);
    assert ServerFilter(QueryParams(f)) == Filters.Filter(
      if f.startDate != "" then Some(f.startDate) else None,
      if f.endDate != "" then Some(f.endDate) else None,
      if f.attractionId != "all" then Some(f.attractionId) else None);
  }

  /** The initial filter bar sends no parameters and so selects every record. */
  lemma InitialFiltersSelectAll(date: string, attractionId: int)
    ensures QueryParams(InitialFilters) == []
    ensures Filters.Matches(ServerFilter(QueryParams(InitialFilters)), date, attractionId)
  {
  }

  /** Choosing attraction `id` in the select (its decimal as the option value) selects exactly that attraction's records. */
  lemma ChosenAttractionSelects(id: nat, date: string, attractionId: int)
    ensures Filters.Matches(ServerFilter(QueryParams(FilterForm("", "", ToDecimal(id)))), date, attractionId) <==> attractionId == id
  {
    var f := FilterForm("", "", ToDecimal(id));
    ParseToDecimal(id);
    assert IsDigit(ToDecimal(id)[0]) && !IsDigit("all"[0]);
    ParamsSelectAsForm(f, date, attractionId);
  }

  // ---------------------------------------------------------------------------
  // Data forms
  // ---------------------------------------------------------------------------

  /** A form value: text typed into an input, or a number copied from a fetched record. */
  datatype Field = Text(text: string) | Number(number: int)

  /** JavaScript truthiness of a form value: text as for a query parameter, and the number `0` is falsy. */
  predicate Truthy(v: Field) {
    match v
    case Text(s) => Filters.Truthy(Some(s))
    case Number(n) => n != 0
  }

  /** A value was supplied: non-empty text, or any number. */
  predicate Supplied(v: Field) {
    match v
    case Text(s) => s != ""
    case Number(_) => true
  }

  /** `parseInt(v)`; `None` is `NaN`, which `JSON.stringify` sends as `null`. A whole number prints as its decimal and parses back to itself. */
  function ParseField(v: Field): (r: Option<int>)
    ensures v.Number? ==> r == Some(v.number)
    ensures v == Text("") ==> r.None?
  {
    match v
    case Text(s) => ParseInt(s)
    case Number(n) => Some(n)
  }

  /** `newData` / `editingData` without the id. */
  datatype DataForm = DataForm(attractionId: Field, date: string, qrcodesDelivered: Field, salesMade: Field)

  const EmptyDataForm := DataForm(Text(""), "", Text(""), Text(""))

  /** Every field came from an input, as in the add form. */
  predicate AllText(f: DataForm) {
    f.attractionId.Text? && f.qrcodesDelivered.Text? && f.salesMade.Text?
  }

  /** `editingData`: the record's id and its editable fields. */
  datatype EditForm = EditForm(id: int, fields: DataForm)

  /** The JSON body sent to `POST /api/daily-data` or `PUT /api/daily-data/:id`. */
  datatype DataRequest = DataRequest(attractionId: Option<int>, date: string, qrcodesDelivered: Option<int>, salesMade: Option<int>)

  /** The request body: the date as typed, each number parsed, so a field left empty is sent as `null`. */
  function RequestOf(f: DataForm): (q: DataRequest)
    ensures q.date == f.date
    ensures !Supplied(f.attractionId) ==> q.attractionId.None?
    ensures !Supplied(f.qrcodesDelivered) ==> q.qrcodesDelivered.None?
    ensures !Supplied(f.salesMade) ==> q.salesMade.None?
  {
    DataRequest(ParseField(f.attractionId), f.date, ParseField(f.qrcodesDelivered), ParseField(f.salesMade))
  }

  /**
   * The required-field check as written: any falsy field refuses the form. It
   * refuses everything the intended check refuses, and on forms filled in
   * through inputs the two agree, so the add form is checked as written.
   */
  predicate RejectedAsWritten(f: DataForm)
    ensures Rejected(f) ==> RejectedAsWritten(f)
    ensures AllText(f) ==> (RejectedAsWritten(f) <==> Rejected(f))
  {
    !Truthy(f.attractionId) || f.date == "" || !Truthy(f.qrcodesDelivered) || !Truthy(f.salesMade)
  }

  /** The check as intended: refuse only a field left empty, so a form that sends a date and three numbers is never refused. */
  predicate Rejected(f: DataForm)
    ensures var q := RequestOf(f);
      q.date != "" && q.attractionId.Some? && q.qrcodesDelivered.Some? && q.salesMade.Some? ==> !Rejected(f)
  {
    !Supplied(f.attractionId) || f.date == "" || !Supplied(f.qrcodesDelivered) || !Supplied(f.salesMade)
  }

  /** `handleEditData`: `attraction_id`, `qrcodes_delivered` and `sales_made` become the camel-case fields; id and date are kept. */
  function EditFromRow(item: Queries.DashboardRow): (e: EditForm)
    ensures e.id == item.id
    ensures RequestOf(e.fields) == DataRequest(Some(item.attractionId), item.date, Some(item.qrcodesDelivered), Some(item.salesMade))
  {
    EditForm(item.id, DataForm(Number(item.attractionId), item.date, Number(item.qrcodesDelivered), Number(item.salesMade)))
  }

  /**
   * Opening a record for editing and saving it untouched is accepted by the
   * intended check (the stored date is never empty) and sends back exactly the
   * record's own values.
   */
  lemma EditRoundTrip(item: Queries.DashboardRow)
    ensures var e := EditFromRow(item);
      && e.id == item.id
      && (Rejected(e.fields) <==> item.date == "")
      && RequestOf(e.fields) == DataRequest(Some(item.attractionId), item.date, Some(item.qrcodesDelivered), Some(item.salesMade))
  {
  }

  /** As written, saving an untouched record is refused exactly when one of its numbers is zero or its date is empty. */
  lemma EditRejectedAsWritten(item: Queries.DashboardRow)
    ensures RejectedAsWritten(EditFromRow(item).fields)
      <==> item.attractionId == 0 || item.date == "" || item.qrcodesDelivered == 0 || item.salesMade == 0
  {
  }

  /** A typed numeral is sent as its value. */
  lemma {:induction false} NumeralParses(s: string)
    requires s != "" && AllDigits(s)
    ensures ParseField(Text(s)) == Some(DigitsValue(s))
  {
    ParseIntOfDigits(s);
  }

  /**
   * The add form accepts any typed numerals, `0` for the sales of a day
   * without sales among them, and sends their values.
   */
  lemma AddFormNumerals(attractionId: string, date: string, qrcodes: string, sales: string)
    requires attractionId != "" && AllDigits(attractionId) && date != ""
    requires qrcodes != "" && AllDigits(qrcodes) && sales != "" && AllDigits(sales)
    ensures var add := DataForm(Text(attractionId), date, Text(qrcodes), Text(sales));
      && !RejectedAsWritten(add)
      && RequestOf(add) == DataRequest(Some(DigitsValue(attractionId)), date, Some(DigitsValue(qrcodes)), Some(DigitsValue(sales)))
  {
    NumeralParses(attractionId);
    NumeralParses(qrcodes);
    NumeralParses(sales);
  }

  /**
   * The same day opened for editing and saved untouched: its zero sales make
   * the check as written refuse it, the intended check accepts it.
   */
  lemma ZeroSalesEdited()
    ensures var item := Queries.DashboardRow(1, "2024-01-01", "Zoo", 1, 100, 0, 0);
      RejectedAsWritten(EditFromRow(item).fields) && !Rejected(EditFromRow(item).fields)
  {
  }

  // ---------------------------------------------------------------------------
  // Session (App) and the API call
  // ---------------------------------------------------------------------------

  /** `Authorization: Bearer ${token}`; a missing token prints as `null`. */
  function AuthorizationHeader(token: Option<string>): (h: string)
    ensures token.Some? && token.value != "" && ' ' !in token.value ==> Auth.BearerToken(Some(h)) == token
    ensures token.None? ==> Auth.BearerToken(Some(h)) == Some("null")
  {
    var t := if token.Some? then token.value else "null";
    assert t != "" && ' ' !in t ==> Auth.BearerToken(Some("Bearer " + t)) == Some(t) by {
      if t != "" && ' ' !in t { Auth.BearerField(t); }
    }
    "Bearer " + t
  }

  /** A session holding a space-free token that verifies is let through by the server's gate with its claims. */
  lemma SessionTokenPassesGate<C>(token: string, verify: string -> Option<C>, claims: C)
    requires token != "" && ' ' !in token && verify(token) == Some(claims)
    ensures Auth.Authenticate(Some(AuthorizationHeader(Some(token))), verify) == Auth.Proceed(claims)
  {
    Auth.BearerHeaderToken(token, verify);
  }

  /** The `App` component's `token` and `user` state. */
  class Session {
    var token: Option<string>
    var user: Option<Auth.PublicUser>

    /** Restored from what the browser stored. */
    constructor (storedToken: Option<string>, storedUser: Option<Auth.PublicUser>)
      ensures token == storedToken && user == storedUser
    {
      token := storedToken;
      user := storedUser;
    }

    /** `!token || !user`: the Login view is shown instead of the dashboard. */
    predicate ShowsLogin()
      reads this
      ensures ShowsLogin() <==> !Filters.Truthy(token) || user.None?
    {
      token.None? || token.value == "" || user.None?
    }

    /** `handleLogin`. */
    method LogIn(t: string, u: Auth.PublicUser)
      modifies this
      ensures token == Some(t) && user == Some(u)
      ensures ShowsLogin() <==> t == ""
    {
      token := Some(t);
      user := Some(u);
    }

    /** `handleLogout`: both token and user are cleared, which brings back the Login view. */
    method LogOut()
      modifies this
      ensures token == None && user == None
      ensures ShowsLogin()
    {
      token := None;
      user := None;
    }

    /** `apiCall` once the response arrived: 401 logs out and yields null, any other status yields the body. */
    method ApiCall<B>(status: int, body: B) returns (result: Option<B>)
      modifies this
      ensures status == 401 ==> result == None && token == None && user == None && ShowsLogin()
      ensures status != 401 ==> result == Some(body) && token == old(token) && user == old(user)
    {
      if status == 401 {
        LogOut();
        result := None;
      } else {
        result := Some(body);
      }
    }
  }

  // ---------------------------------------------------------------------------
  // Dashboard handlers
  // ---------------------------------------------------------------------------

  /** How a request ended: a status and the body's `message` (absent from error bodies), or an exception from `fetch` or `response.json()`. */
  datatype Outcome = Replied(status: int, message: Option<string>) | Failed

  /** `setMessage(result.message)`: an absent message shows nothing, like `''`. */
  function MessageText(m: Option<string>): string {
    if m.Some? then m.value else ""
  }

  const RequiredMessage := "Todos os campos são obrigatórios"
  const AttractionRequiredMessage := "Nome da atração é obrigatório"
  const AttractionAddedMessage := "Atração adicionada com sucesso!"
  const AddDataError := "Erro ao adicionar dados"
  const UpdateDataError := "Erro ao atualizar dados"
  const AddAttractionError := "Erro ao adicionar atração"

  /** The `Dashboard` component's form and message state. */
  class DashboardView {
    var message: string
    var newData: DataForm
    var editing: Option<EditForm>
    var showAddForm: bool
    var showEditForm: bool
    var newAttraction: string
    var loading: bool
    var filters: FilterForm

    constructor ()
      ensures message == "" && newData == EmptyDataForm && editing == None
      ensures !showAddForm && !showEditForm && newAttraction == "" && !loading && filters == InitialFilters
    {
      message := "";
      newData := EmptyDataForm;
      editing := None;
      showAddForm := false;
      showEditForm := false;
      newAttraction := "";
      loading := false;
      filters := InitialFilters;
    }

    /** The parameters of the current `loadData` request. */
    method LoadDataParams() returns (params: Params)
      ensures params == QueryParams(filters)
    {
      params := BuildParams(filters);
    }

    /**
     * `handleAddData`: a form with an empty field is refused with the required
     * message and nothing is sent; otherwise the parsed form is sent, and a
     * reply other than 401 shows its message, empties the form and closes it.
     */
    method HandleAddData(session: Session, outcome: Outcome) returns (sent: Option<DataRequest>)
      modifies this, session
      ensures editing == old(editing) && showEditForm == old(showEditForm)
      ensures newAttraction == old(newAttraction) && filters == old(filters)
      ensures RejectedAsWritten(old(newData)) ==>
        && sent == None && message == RequiredMessage && newData == old(newData)
        && showAddForm == old(showAddForm) && loading == old(loading)
        && session.token == old(session.token) && session.user == old(session.user)
      ensures !RejectedAsWritten(old(newData)) ==>
        && sent == Some(RequestOf(old(newData))) && !loading
        && match outcome
          case Failed =>
            && message == AddDataError && newData == old(newData) && showAddForm == old(showAddForm)
            && session.token == old(session.token) && session.user == old(session.user)
          case Replied(status, m) =>
            if status == 401 then
              message == "" && newData == old(newData) && showAddForm == old(showAddForm) && session.token == None && session.user == None && session.ShowsLogin()
            else
              && message == MessageText(m) && newData == EmptyDataForm && !showAddForm
              && session.token == old(session.token) && session.user == old(session.user)
    {
      var form := newData;
      if RejectedAsWritten(form) {
        message := RequiredMessage;
        sent := None;
        return;
      }
      sent := Some(RequestOf(form));
      loading := true;
      message := "";
      match outcome {
        case Failed =>
          message := AddDataError;
        case Replied(status, m) =>
          var result := session.ApiCall(status, m);
          if result.Some? {
            message := MessageText(result.value);
            newData := EmptyDataForm;
            showAddForm := false;
          }
      }
      loading := false;
    }

    /** `handleEditData`: the record is copied into the edit form, which opens. */
    method HandleEditData(item: Queries.DashboardRow)
      modifies this
      ensures editing == Some(EditFromRow(item)) && showEditForm
      ensures message == old(message) && newData == old(newData) && showAddForm == old(showAddForm)
      ensures newAttraction == old(newAttraction) && loading == old(loading) && filters == old(filters)
    {
      editing := Some(EditFromRow(item));
      showEditForm := true;
    }

    /**
     * `handleUpdateData`, with the intended required check: a form with an
     * empty field is refused; otherwise the parsed form is sent for the
     * record's id, and a reply other than 401 shows its message and closes the
     * edit form.
     */
    method HandleUpdateData(session: Session, outcome: Outcome) returns (sent: Option<(int, DataRequest)>)
      requires editing.Some?
      modifies this, session
      ensures newData == old(newData) && showAddForm == old(showAddForm)
      ensures newAttraction == old(newAttraction) && filters == old(filters)
      ensures Rejected(old(editing).value.fields) ==>
        && sent == None && message == RequiredMessage && editing == old(editing)
        && showEditForm == old(showEditForm) && loading == old(loading)
        && session.token == old(session.token) && session.user == old(session.user)
      ensures !Rejected(old(editing).value.fields) ==>
        && sent == Some((old(editing).value.id, RequestOf(old(editing).value.fields))) && !loading
        && match outcome
          case Failed =>
            && message == UpdateDataError && editing == old(editing) && showEditForm == old(showEditForm)
            && session.token == old(session.token) && session.user == old(session.user)
          case Replied(status, m) =>
            if status == 401 then
              message == "" && editing == old(editing) && showEditForm == old(showEditForm) && session.token == None && session.user == None && session.ShowsLogin()
            else
              && message == MessageText(m) && editing == None && !showEditForm
              && session.token == old(session.token) && session.user == old(session.user)
    {
      var form := editing.value;
      if Rejected(form.fields) {
        message := RequiredMessage;
        sent := None;
        return;
      }
      sent := Some((form.id, RequestOf(form.fields)));
      loading := true;
      message := "";
      match outcome {
        case Failed =>
          message := UpdateDataError;
        case Replied(status, m) =>
          var result := session.ApiCall(status, m);
          if result.Some? {
            message := MessageText(result.value);
            editing := None;
            showEditForm := false;
          }
      }
      loading := false;
    }

    /**
     * `handleAddAttraction`: a name that is blank after trimming is refused;
     * otherwise the trimmed name, non-empty and without surrounding
     * whitespace, is sent, and any reply other than 401 is taken as success.
     */
    method HandleAddAttraction(session: Session, outcome: Outcome) returns (sent: Option<string>)
      modifies this, session
      ensures newData == old(newData) && editing == old(editing) && showAddForm == old(showAddForm)
      ensures showEditForm == old(showEditForm) && filters == old(filters)
      ensures sent == None <==> AllWhitespace(old(newAttraction))
      ensures sent.Some? ==>
        && sent.value == Trim(old(newAttraction)) && sent.value != ""
        && !IsWhitespace(sent.value[0]) && !IsWhitespace(sent.value[|sent.value| - 1])
      ensures sent == None ==>
        && message == AttractionRequiredMessage && newAttraction == old(newAttraction) && loading == old(loading)
        && session.token == old(session.token) && session.user == old(session.user)
      ensures sent.Some? ==> !loading && match outcome
        case Failed =>
          && message == AddAttractionError && newAttraction == old(newAttraction)
          && session.token == old(session.token) && session.user == old(session.user)
        case Replied(status, _) =>
          if status == 401 then
            message == old(message) && newAttraction == old(newAttraction) && session.token == None && session.user == None && session.ShowsLogin()
          else
            && message == AttractionAddedMessage && newAttraction == ""
            && session.token == old(session.token) && session.user == old(session.user)
    {
      var name := Trim(newAttraction);
      if name == "" {
        message := AttractionRequiredMessage;
        sent := None;
        return;
      }
      sent := Some(name);
      loading := true;
      match outcome {
        case Failed =>
          message := AddAttractionError;
        case Replied(status, m) =>
          var result := session.ApiCall(status, m);
          if result.Some? {
            message := AttractionAddedMessage;
            newAttraction := "";
          }
      }
      loading := false;
    }
  }
}
