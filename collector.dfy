/** Row collection (influxdb.ts, queryInfluxDB): the rows of a streaming query
    are appended to a list as `next` delivers them; `complete` resolves the
    promise with that list, `error` rejects it and the list is dropped. A promise
    settles once, so the first terminal event decides. */
module Collector {
  import opened Client

  /** The outcome of the collecting promise when the client delivers `events`. */
  function Settle(events: seq<Event>): Outcome<seq<Record>>
  {
    if events == [] then Pending
    else
      match events[0]
      case Next(row) => Prefixed([row], Settle(events[1..]))
      case Error(e) => Rejected(e)
      case Complete => Resolved([])
  }

  /** The position of the first terminal event (`error` or `complete`), or
      `|events|` when there is none. */
  function FirstTerminal(events: seq<Event>): (k: nat)
    ensures k <= |events|
    ensures forall j :: 0 <= j < k ==> events[j].Next?
    ensures k < |events| ==> !events[k].Next?
  {
    if events == [] || !events[0].Next? then 0 else 1 + FirstTerminal(events[1..])
  }

  /** The rows carried by a run of `next` events, in delivery order. */
  function RowsOf(events: seq<Event>): seq<Record>
    requires forall j :: 0 <= j < |events| ==> events[j].Next?
  {
    seq(|events|, j requires 0 <= j < |events| => events[j].row)
  }

  /** The whole behaviour of the collector: before the first terminal event only
      rows arrive; a `complete` there resolves with exactly those rows, an
      `error` there rejects with that error, and without a terminal event the
      promise stays pending. */
  lemma {:induction false} SettleDecided(events: seq<Event>)
    ensures var k := FirstTerminal(events);
      Settle(events) ==
        if k == |events| then Pending
        else if events[k].Complete? then Resolved(RowsOf(events[..k]))
        else Rejected(events[k].error)
  {
    if events == [] {
    } else if !events[0].Next? {
      assert RowsOf(events[..0]) == [];
    } else {
      var k := FirstTerminal(events);
      SettleDecided(events[1..]);
      assert FirstTerminal(events[1..]) == k - 1;
      assert Settle(events) == Prefixed([events[0].row], Settle(events[1..]));
      if k < |events| {
        assert events[1..][k - 1] == events[k];
        if events[k].Complete? {
          assert RowsOf(events[..k]) == [events[0].row] + RowsOf(events[1..][..k - 1]);
        }
      }
    }
  }

  /** A stream that completes after k rows resolves with one record per row, in
      delivery order, and nothing else. */
  lemma CompleteYieldsEveryRow(events: seq<Event>, k: nat)
    requires k < |events| && events[k] == Complete
    requires forall j :: 0 <= j < k ==> events[j].Next?
    ensures Settle(events).Resolved?
    ensures |Settle(events).value| == k
    ensures forall j :: 0 <= j < k ==> Settle(events).value[j] == events[j].row
  {
    SettleDecided(events);
    assert FirstTerminal(events) == k;
  }

  /** A stream that signals an error before completing rejects with that error;
      the rows collected so far are not returned. */
  lemma ErrorDiscardsRows(events: seq<Event>, k: nat, e: QueryError)
    requires k < |events| && events[k] == Error(e)
    requires forall j :: 0 <= j < k ==> events[j].Next?
    ensures Settle(events) == Rejected(e)
  {
    SettleDecided(events);
    assert FirstTerminal(events) == k;
  }

  /** Settle-once: whatever the client delivers after the first terminal event
      does not change how the promise settles (resolved or rejected, and with
      which error). */
  lemma {:induction false} LaterEventsIgnored(events: seq<Event>, more: seq<Event>)
    requires FirstTerminal(events) < |events|
    ensures Settle(events + more) == Settle(events)
  {
    assert (events + more)[0] == events[0];
    if events[0].Next? {
      assert (events + more)[1..] == events[1..] + more;
      LaterEventsIgnored(events[1..], more);
    }
  }

  /** The collector as the source runs it: a `results` list that each `next`
      extends, left at the first `error` or `complete`. */
  method Collect(events: seq<Event>) returns (o: Outcome<seq<Record>>)
    ensures o == Settle(events)
  {
    var results: seq<Record> := [];
    var i := 0;
    assert events[0..] == events;
    assert Settle(events).Resolved? ==> [] + Settle(events).value == Settle(events).value;
    while i < |events|
      invariant 0 <= i <= |events|
      invariant Settle(events) == Prefixed(results, Settle(events[i..]))
      decreases |events| - i
    {
      assert events[i..][0] == events[i] && events[i..][1..] == events[i + 1..];
      match events[i] {
        case Next(row) =>
          PrefixedTwice(results, [row], Settle(events[i + 1..]));
          results := results + [row];
        case Error(e) =>
          return Rejected(e);
        case Complete =>
          assert results + [] == results;
          return Resolved(results);
      }
      i := i + 1;
    }
    return Pending;
  }
}
