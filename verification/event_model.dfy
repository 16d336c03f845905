/** The records of the sports catalog: the stored `events` row, the request filter,
    what one row scan reads, the `sports.Event` message, and statements sent to the store. */
module EventModel {
  import opened Outcomes
  import opened Status

  /** A row of the `events` table. */
  datatype StoredEvent = StoredEvent(id: Int64, name: string, location: string, sport: string, start: Instant)

  /** The `ListEventsRequestFilter` message: an empty field places no condition on its column. */
  datatype Filter = Filter(name: string, location: string, sport: string)

  /** The filterable columns of `events`. */
  datatype Column = NameColumn | LocationColumn | SportColumn

  /** The order in which the filter's fields are examined. */
  const FilterOrder: seq<Column> := [NameColumn, LocationColumn, SportColumn]

  function ColumnName(c: Column): string
  {
    match c
    case NameColumn => "name"
    case LocationColumn => "location"
    case SportColumn => "sport"
  }

  /** The filter field that constrains column `c`. */
  function FieldOf(f: Filter, c: Column): string
  {
    match c
    case NameColumn => f.name
    case LocationColumn => f.location
    case SportColumn => f.sport
  }

  /** The value a stored event holds in column `c`. */
  function ValueOf(e: StoredEvent, c: Column): string
  {
    match c
    case NameColumn => e.name
    case LocationColumn => e.location
    case SportColumn => e.sport
  }

  /** What one scan of a result row reads: the columns, the start time as a time value,
      and the derived status column. */
  datatype ScannedRow = ScannedRow(id: Int64, name: string, location: string, sport: string,
                                   start: Instant, status: string)

  /** The `sports.Event` message. */
  datatype Event = Event(id: Int64, name: string, location: string, sport: string,
                         advertisedStartTime: Timestamp, status: string)

  /** A positional argument of a statement. */
  datatype Arg = Text(text: string) | Integer(value: Int64)

  /** A query and the arguments bound to its `?` placeholders, in order. */
  datatype Statement = Statement(sql: string, args: seq<Arg>)

  /** The row the events queries produce for a stored event when the store's clock reads `now`:
      the stored columns as they are, and the derived status column. */
  function Project(e: StoredEvent, now: Instant): (r: ScannedRow)
    ensures r.id == e.id && r.name == e.name && r.location == e.location && r.sport == e.sport
    ensures r.start == e.start
    ensures r.status == Closed <==> e.start <= now
    ensures r.status == Open <==> now < e.start
  {
    ScannedRow(e.id, e.name, e.location, e.sport, e.start, StatusAt(e.start, now))
  }
}
