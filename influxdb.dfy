/** The query adapter of influxdb.ts: the four exported operations, run against
    a database whose query interface streams rows through callbacks. */
module InfluxDB {
  import opened Client
  import opened Collector
  import opened Flux
  import opened Aggregation

  /** The process-wide query client. The database's answers are given by
      `respond`; `log` records, in order, the query texts it has received. */
  class Database {
    const respond: Responder
    var log: seq<string>

    constructor (respond: Responder)
      ensures this.respond == respond && log == []
    {
      this.respond := respond;
      log := [];
    }

    /** `queryApi.queryRows`: sends one query and delivers its event stream. */
    method QueryRows(query: string) returns (events: seq<Event>)
      modifies this
      ensures log == old(log) + [query]
      ensures events == respond(|old(log)|, query)
    {
      events := respond(|log|, query);
      log := log + [query];
    }
  }

  /** queryInfluxDB: one call to the database, whose rows are collected. */
  method QueryInfluxDB(db: Database, query: string) returns (o: Outcome<seq<Record>>)
    modifies db
    ensures db.log == old(db.log) + [query]
    ensures o == Settle(db.respond(|old(db.log)|, query))
  {
    var events := db.QueryRows(query);
    o := Collect(events);
  }

  /** getLatestData: builds its query and returns queryInfluxDB's outcome as is. */
  method GetLatestData(db: Database, bucket: string, measurement: string, field: string, timeRange: Option<string>)
    returns (o: Outcome<seq<Record>>)
    modifies db
    ensures db.log == old(db.log) + [LatestDataQuery(bucket, measurement, field, timeRange)]
    ensures o == Settle(db.respond(|old(db.log)|, LatestDataQuery(bucket, measurement, field, timeRange)))
  {
    o := QueryInfluxDB(db, LatestDataQuery(bucket, measurement, field, timeRange));
  }

  /** getDataInRange: builds its query and returns queryInfluxDB's outcome as is. */
  method GetDataInRange(db: Database, bucket: string, measurement: string, field: string, start: string, stop: Option<string>)
    returns (o: Outcome<seq<Record>>)
    modifies db
    ensures db.log == old(db.log) + [DataInRangeQuery(bucket, measurement, field, start, stop)]
    ensures o == Settle(db.respond(|old(db.log)|, DataInRangeQuery(bucket, measurement, field, start, stop)))
  {
    o := QueryInfluxDB(db, DataInRangeQuery(bucket, measurement, field, start, stop));
  }

  /** The loop of getRecentActiveMeasurements: for each name in turn, its
      phase-2 query is built and awaited, and a summary is pushed when its rows
      are not empty. The first query that does not resolve abandons the loop. */
  method LatestPerMeasurement(db: Database, bucket: string, names: seq<Option<Value>>)
    returns (o: Outcome<seq<Summary>>)
    modifies db
    ensures o == PhaseTwo(db.respond, |old(db.log)|, names, PhaseTwoQueries(bucket, names))
    ensures var queries := PhaseTwoQueries(bucket, names);
      db.log == old(db.log) + queries[..Sent(db.respond, |old(db.log)|, queries)]
  {
    ghost var n := |db.log|;
    ghost var queries := PhaseTwoQueries(bucket, names);
    var results: seq<Summary> := [];
    ghost var rowsets: seq<seq<Record>> := [];
    assert queries[..0] == [];
    for i := 0 to |names|
      invariant db.log == old(db.log) + queries[..i]
      invariant |db.log| == n + i
      invariant |rowsets| == i
      invariant results == Select(names[..i], rowsets)
      invariant forall j :: 0 <= j < i ==> Settle(db.respond(n + j, queries[j])) == Resolved(rowsets[j])
    {
      assert queries[i] == LatestPerFieldQuery(bucket, Interpolate(names[i]));
      var latestData := QueryInfluxDB(db, LatestPerFieldQuery(bucket, Interpolate(names[i])));
      Extend(queries, i);
      if !latestData.Resolved? {
        PhaseTwoStops(db.respond, n, names, queries, i);
        assert latestData == Settle(db.respond(n + i, queries[i]));
        o := Propagate(latestData);
        assert o == PhaseTwo(db.respond, n, names, queries);
        assert db.log == old(db.log) + queries[..i + 1];
        return;
      }
      var rows := latestData.value;
      SelectGrows(names, rowsets, i, rows);
      if |rows| > 0 {
        results := results + [Summarize(names[i], rows)];
      }
      StillResolved(db.respond, n, queries, i, rowsets, rows);
      rowsets := rowsets + [rows];
    }
    assert queries[..|names|] == queries;
    assert names[..|names|] == names;
    PhaseTwoCompletes(db.respond, n, names, queries, rowsets);
    assert results == Select(names, rowsets);
    return Resolved(results);
  }

  /** getRecentActiveMeasurements: the phase-1 query, then the phase-2 loop over
      the names it lists, one query per name; a phase-1 failure abandons the
      call. */
  method GetRecentActiveMeasurements(db: Database, bucket: string) returns (o: Outcome<seq<Summary>>)
    modifies db
    ensures o == RecentActive(db.respond, |old(db.log)|, bucket)
    ensures db.log == old(db.log) + Issued(db.respond, |old(db.log)|, bucket)
  {
    ghost var n := |db.log|;
    var measurements := QueryInfluxDB(db, MeasurementsQuery(bucket));
    if !measurements.Resolved? {
      RecentActiveFailsAtPhaseOne(db.respond, n, bucket);
      return Propagate(measurements);
    }
    AfterPhaseOne(db.respond, n, bucket, measurements.value);
    var names := Names(measurements.value);
    ghost var queries := PhaseTwoQueries(bucket, names);
    assert |db.log| == n + 1;
    o := LatestPerMeasurement(db, bucket, names);
    Regroup(old(db.log), [MeasurementsQuery(bucket)], queries[..Sent(db.respond, n + 1, queries)]);
  }
}
