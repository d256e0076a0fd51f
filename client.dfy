/** The values the query adapter handles: result cells, flattened rows ("records"),
    the events the database client delivers while a query streams, and the outcome
    of the promise that collects them. */
module Client {

  datatype Option<+T> = None | Some(value: T)

  /** A cell of a result row. Numbers are carried as the decimal text JavaScript
      prints for them: the adapter never computes with a value, it only copies it
      and, for a measurement name, interpolates it into a query. Timestamps are
      kept opaque. */
  datatype Value =
    | Str(text: string)
    | Num(decimal: string)
    | Time(stamp: string)

  /** One row of a result, flattened together with its table metadata:
      column name to cell. There is no fixed schema. */
  type Record = map<string, Value>

  /** Property access on a record; a column the row does not have reads as
      `undefined`, here `None`. */
  function Get(r: Record, column: string): Option<Value>
  {
    if column in r then Some(r[column]) else None
  }

  /** What a `${...}` placeholder of a template literal turns a property into. */
  function Interpolate(v: Option<Value>): string
  {
    match v
    case None => "undefined"
    case Some(Str(s)) => s
    case Some(Num(d)) => d
    case Some(Time(t)) => t
  }

  /** The error the client reports (network failure, malformed query, unknown bucket, ...). */
  datatype QueryError = QueryError(message: string)

  /** One callback of the client's row-streaming interface: `next` with a row
      (already flattened by `tableMeta.toObject`), `error` or `complete`. */
  datatype Event =
    | Next(row: Record)
    | Error(error: QueryError)
    | Complete

  /** How a promise of the adapter ends: resolved with a value, rejected with an
      error, or never settled (the stream stopped without a terminal event, so
      the `await` on it never returns). */
  datatype Outcome<+T> =
    | Resolved(value: T)
    | Rejected(error: QueryError)
    | Pending

  /** A failed outcome carried over to another result type. */
  function Propagate<T, U>(o: Outcome<T>): Outcome<U>
    requires !o.Resolved?
  {
    if o.Rejected? then Rejected(o.error) else Pending
  }

  /** The database as the adapter sees it: the event stream it delivers for a
      query text, given the position of the call among all the queries sent to
      it (so that its data may change from one call to the next). */
  type Responder = (nat, string) -> seq<Event>

  /** Puts `acc` in front of a resolved list and leaves a failure as it is. */
  function Prefixed<T>(acc: seq<T>, o: Outcome<seq<T>>): Outcome<seq<T>>
  {
    if o.Resolved? then Resolved(acc + o.value) else o
  }

  lemma PrefixedTwice<T>(a: seq<T>, b: seq<T>, o: Outcome<seq<T>>)
    ensures Prefixed(a, Prefixed(b, o)) == Prefixed(a + b, o)
  {
    if o.Resolved? {
      assert a + (b + o.value) == (a + b) + o.value;
    }
  }
}
