/** The events repository: it composes the list query, runs statements against the store,
    and hydrates scanned rows into `sports.Event` records. The store is a parameter: `query`
    answers a statement with a query error or the outcomes of scanning each result row in
    turn, `queryRow` answers with the outcome of scanning the single row, and `convert` is
    the timestamp conversion, which may fail. */
module Events {
  import opened Outcomes
  import opened Text
  import opened Status
  import opened Queries
  import opened EventModel
  import opened EventFilter

  /** The outcome of scanning one result row. */
  datatype ScanOutcome = Scanned(row: ScannedRow) | NoRows | ScanError(error: Error)

  /** The outcome of running a list statement. */
  datatype QueryResult = QueryError(error: Error) | Rows(outcomes: seq<ScanOutcome>)

  /** Appends the caller's ordering verbatim, unvalidated and unescaped; an empty `orderBy`
      leaves the query as it is. */
  function ApplySort(query: string, orderBy: string): (sorted: string)
    ensures query <= sorted
    ensures orderBy == "" <==> sorted == query
    ensures orderBy != "" ==>
              |sorted| == |query| + 10 + |orderBy|
              && sorted[|query|..|query| + 10] == " ORDER BY "
              && sorted[|query| + 10..] == orderBy
  {
    if orderBy == "" then query else query + " ORDER BY " + orderBy
  }

  /** The statement `List` runs: the list query, then the filter, then the ordering. */
  function ListStatement(filter: Option<Filter>, orderBy: string): (st: Statement)
    ensures var filtered := ApplyFilter(EventsList, filter);
      && EventsList <= filtered.sql <= st.sql
      && st.args == filtered.args
      && st.sql == ApplySort(filtered.sql, orderBy)
    ensures Occurrences(st.sql, '?') == |st.args| + Occurrences(orderBy, '?')
    ensures var k := |ApplyFilter(EventsList, filter).sql|;
      && (st.args != [] ==> |EventsList| < k && st.sql[|EventsList|..|EventsList| + 7] == " WHERE ")
      && (orderBy != "" ==> st.sql[k..k + 10] == " ORDER BY " && st.sql[k + 10..] == orderBy)
  {
    var filtered := ApplyFilter(EventsList, filter);
    EventsListHasNoPlaceholder();
    ComposedStatement(EventsList, filter, orderBy);
    Statement(ApplySort(filtered.sql, orderBy), filtered.args)
  }

  /** Filtering then sorting any base query without placeholders: the `WHERE` clause sits
      right after the base, and every placeholder outside the caller's ordering has its
      argument. */
  lemma ComposedStatement(base: string, filter: Option<Filter>, orderBy: string)
    requires Occurrences(base, '?') == 0
    ensures var filtered := ApplyFilter(base, filter);
      var sql := ApplySort(filtered.sql, orderBy);
      && Occurrences(sql, '?') == |filtered.args| + Occurrences(orderBy, '?')
      && (filtered.args != [] ==> |base| < |filtered.sql| && sql[|base|..|base| + 7] == " WHERE ")
  {
    var filtered := ApplyFilter(base, filter);
    SortPlaceholders(filtered.sql, orderBy);
    if filtered.args != [] {
      WhereFollowsBase(base, filter);
    }
  }

  lemma SortPlaceholders(query: string, orderBy: string)
    ensures Occurrences(ApplySort(query, orderBy), '?') == Occurrences(query, '?') + Occurrences(orderBy, '?')
  {
    if orderBy != "" {
      OccurrencesAbsent(" ORDER BY ", '?');
      OccurrencesAppend(query, " ORDER BY ", '?');
      OccurrencesAppend(query + " ORDER BY ", orderBy, '?');
    }
  }

  lemma WhereFollowsBase(base: string, filter: Option<Filter>)
    requires ApplyFilter(base, filter).args != []
    ensures |base| < |ApplyFilter(base, filter).sql|
    ensures ApplyFilter(base, filter).sql[|base|..|base| + 7] == " WHERE "
  {
    var filtered := ApplyFilter(base, filter);
    var conj := Join(Clauses(Selected(filter.value)), " AND ");
    assert filtered.sql == base + " WHERE " + conj;
  }

  /** The record a scanned row becomes once its start time is converted. */
  function Hydrate(row: ScannedRow, ts: Timestamp): Event
  {
    Event(row.id, row.name, row.location, row.sport, ts, row.status)
  }

  /** The record one scan outcome yields, if it yields one. */
  function RowEvent(o: ScanOutcome, convert: Instant -> Result<Timestamp>): Option<Event>
  {
    match o
    case Scanned(row) =>
      (match convert(row.start)
       case Success(ts) => Some(Hydrate(row, ts))
       case Failure(_) => None)
    case _ => None
  }

  /** The error a scan outcome that yields no record stops with: none for `ErrNoRows`. */
  function HaltError(o: ScanOutcome, convert: Instant -> Result<Timestamp>): Option<Error>
  {
    match o
    case NoRows => None
    case ScanError(e) => Some(e)
    case Scanned(row) =>
      (match convert(row.start)
       case Failure(e) => Some(e)
       case Success(_) => None)
  }

  /** The position of the first outcome that yields no record, or `|outcomes|`. */
  function FirstHalt(outcomes: seq<ScanOutcome>, convert: Instant -> Result<Timestamp>): (k: nat)
    ensures k <= |outcomes|
    ensures forall j :: 0 <= j < k ==> RowEvent(outcomes[j], convert).Some?
    ensures k < |outcomes| ==> RowEvent(outcomes[k], convert).None?
  {
    if outcomes == [] then 0
    else if RowEvent(outcomes[0], convert).None? then 0
    else 1 + FirstHalt(outcomes[1..], convert)
  }

  /** What hydrating a whole result set means, all or nothing: every record in row order
      when every row yields one; otherwise no records, and the error of the first row that
      failed (none when that row reported `ErrNoRows`). */
  function Hydrated(outcomes: seq<ScanOutcome>, convert: Instant -> Result<Timestamp>): (r: ListReply<Event>)
    ensures r.err.Some? ==> r.items == []
  {
    var k := FirstHalt(outcomes, convert);
    if k == |outcomes| then
      ListReply(seq(|outcomes|, i requires 0 <= i < |outcomes| => RowEvent(outcomes[i], convert).value), None)
    else
      ListReply([], HaltError(outcomes[k], convert))
  }

  /** `scanEvents`: walks the result set, hydrating each row, and gives up on the first
      row that cannot be scanned or converted. */
  method ScanEvents(outcomes: seq<ScanOutcome>, convert: Instant -> Result<Timestamp>)
    returns (events: seq<Event>, err: Option<Error>)
    ensures ListReply(events, err) == Hydrated(outcomes, convert)
    ensures err.Some? ==> events == []
    ensures err.None? && events != [] ==> |events| == |outcomes|
  {
    events := [];
    var i := 0;
    while i < |outcomes|
      invariant i <= FirstHalt(outcomes, convert)
      invariant |events| == i
      invariant forall j :: 0 <= j < i ==> RowEvent(outcomes[j], convert) == Some(events[j])
    {
      match outcomes[i]
      case NoRows =>
        return [], None;
      case ScanError(e) =>
        return [], Some(e);
      case Scanned(row) =>
        match convert(row.start)
        case Failure(e) =>
          return [], Some(e);
        case Success(ts) =>
          events := events + [Hydrate(row, ts)];
      i := i + 1;
    }
    return events, None;
  }

  /** `scanEvent`: hydrates the single row of a by-id lookup. */
  function ScanEvent(o: ScanOutcome, convert: Instant -> Result<Timestamp>): (r: Reply<Event>)
    ensures r.value.Some? ==> r.err.None?
    ensures r.value == RowEvent(o, convert)
    ensures r.err == HaltError(o, convert)
  {
    match o
    case NoRows => Reply(None, None)
    case ScanError(e) => Reply(None, Some(e))
    case Scanned(row) =>
      match convert(row.start)
      case Failure(e) => Reply(None, Some(e))
      case Success(ts) => Reply(Some(Hydrate(row, ts)), None)
  }

  /** `List`: runs the composed statement; a query error is returned as it is, with no records. */
  method List(filter: Option<Filter>, orderBy: string,
              query: Statement -> QueryResult, convert: Instant -> Result<Timestamp>)
    returns (events: seq<Event>, err: Option<Error>)
    ensures query(ListStatement(filter, orderBy)).QueryError? ==>
              events == [] && err == Some(query(ListStatement(filter, orderBy)).error)
    ensures query(ListStatement(filter, orderBy)).Rows? ==>
              ListReply(events, err) == Hydrated(query(ListStatement(filter, orderBy)).outcomes, convert)
    ensures err.Some? ==> events == []
  {
    var st := ListStatement(filter, orderBy);
    var result := query(st);
    match result
    case QueryError(e) =>
      return [], Some(e);
    case Rows(outcomes) =>
      events, err := ScanEvents(outcomes, convert);
  }

  /** The statement `GetByID` runs: the by-id query with the id as its only argument. */
  function ByIdStatement(id: Int64): (st: Statement)
    ensures Occurrences(st.sql, '?') == |st.args| == 1
    ensures st.args == [Integer(id)]
    ensures st.sql == EventsList + " WHERE id = ?"
  {
    EventByIdPlaceholder();
    EventByIdExtendsList();
    Statement(EventById, [Integer(id)])
  }

  /** `GetByID`: looks up one event; `ErrNoRows` becomes "not found", a nil record with no error. */
  function GetByID(id: Int64, queryRow: Statement -> ScanOutcome,
                   convert: Instant -> Result<Timestamp>): (r: Reply<Event>)
    ensures r.value.Some? ==> r.err.None?
    ensures queryRow(ByIdStatement(id)).NoRows? ==> r == Reply(None, None)
    ensures queryRow(ByIdStatement(id)).ScanError? ==> r == Reply(None, Some(queryRow(ByIdStatement(id)).error))
    ensures queryRow(ByIdStatement(id)).Scanned? ==>
              var row := queryRow(ByIdStatement(id)).row;
              match convert(row.start)
              case Failure(e) => r == Reply(None, Some(e))
              case Success(ts) =>
                r == Reply(Some(Event(row.id, row.name, row.location, row.sport, ts, row.status)),
                           None)
  {
    ScanEvent(queryRow(ByIdStatement(id)), convert)
  }

  /** Looking up a stored event by its id, when the store answers with that event's row,
      returns the event with its fields and converted start, CLOSED exactly when the start is
      at or before the store's clock; a failed conversion returns its error instead. */
  lemma GetByIDFindsStoredEvent(e: StoredEvent, now: Instant, queryRow: Statement -> ScanOutcome,
                                convert: Instant -> Result<Timestamp>)
    requires queryRow(ByIdStatement(e.id)) == Scanned(Project(e, now))
    ensures convert(e.start).Failure? ==>
              GetByID(e.id, queryRow, convert) == Reply(None, Some(convert(e.start).error))
    ensures convert(e.start).Success? ==>
              && GetByID(e.id, queryRow, convert).err.None?
              && GetByID(e.id, queryRow, convert).value.Some?
              && var ev := GetByID(e.id, queryRow, convert).value.value;
                 && ev.id == e.id && ev.name == e.name && ev.location == e.location
                 && ev.sport == e.sport && ev.advertisedStartTime == convert(e.start).value
                 && (ev.status == Closed <==> e.start <= now)
  {
  }

  /** A by-id lookup and a list over a one-row result set hydrate that row alike, and both
      turn `ErrNoRows` into no record and no error. */
  lemma ScanEventAgreesWithList(o: ScanOutcome, convert: Instant -> Result<Timestamp>)
    ensures var single := ScanEvent(o, convert);
      Hydrated([o], convert)
        == ListReply(if single.value.Some? then [single.value.value] else [], single.err)
  {
    var k := FirstHalt([o], convert);
    assert [o][1..] == [];
    if RowEvent(o, convert).Some? {
      assert k == 1;
    } else {
      assert k == 0;
    }
  }

  /** An `ErrNoRows` reported after rows were already scanned discards them: the list comes
      back empty with no error, exactly as a result set with no rows at all. */
  lemma NoRowsDiscardsScannedRows(row: ScannedRow, convert: Instant -> Result<Timestamp>)
    requires convert(row.start).Success?
    ensures Hydrated([Scanned(row), NoRows], convert) == Hydrated([], convert)
    ensures Hydrated([Scanned(row), NoRows], convert) == ListReply([], None)
  {
    var outcomes := [Scanned(row), NoRows];
    assert outcomes[1..] == [NoRows];
    assert [NoRows][1..] == [];
    assert FirstHalt(outcomes, convert) == 1;
  }

  /** A record hydrated from the row the events queries produce carries the stored event's
      fields, and its status is CLOSED exactly when the advertised start is at or before
      the store's clock, OPEN otherwise. */
  lemma HydratedStatus(e: StoredEvent, now: Instant, convert: Instant -> Result<Timestamp>)
    requires convert(e.start).Success?
    ensures RowEvent(Scanned(Project(e, now)), convert).Some?
    ensures var ev := RowEvent(Scanned(Project(e, now)), convert).value;
      && ev.id == e.id && ev.name == e.name && ev.location == e.location && ev.sport == e.sport
      && ev.advertisedStartTime == convert(e.start).value
      && (ev.status == Closed <==> e.start <= now)
      && (ev.status == Open <==> now < e.start)
  {
  }
}
