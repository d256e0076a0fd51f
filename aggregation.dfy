/** The two-phase aggregation of getRecentActiveMeasurements (influxdb.ts) as
    functions of the database's answers: phase 1 lists the measurement names,
    phase 2 queries each name in turn, and every name with rows yields one
    summary. Any query that fails aborts the whole call. */
module Aggregation {
  import opened Client
  import opened Collector
  import opened Flux

  /** `{field, value, time}`: one returned row, reduced to three columns. */
  datatype FieldSample = FieldSample(field: Option<Value>, value: Option<Value>, time: Option<Value>)

  /** `{measurement, fields}`: one measurement with recent data. */
  datatype Summary = Summary(measurement: Option<Value>, fields: seq<FieldSample>)

  /** The measurement names: the `_value` of each phase-1 row, in order. */
  function Names(rows: seq<Record>): seq<Option<Value>>
  {
    seq(|rows|, i requires 0 <= i < |rows| => Get(rows[i], "_value"))
  }

  function SampleOf(row: Record): FieldSample
  {
    FieldSample(Get(row, "_field"), Get(row, "_value"), Get(row, "_time"))
  }

  /** The summary pushed for a measurement whose phase-2 query returned `rows`. */
  function Summarize(name: Option<Value>, rows: seq<Record>): Summary
  {
    Summary(name, seq(|rows|, i requires 0 <= i < |rows| => SampleOf(rows[i])))
  }

  /** The phase-2 query texts, one per name, in the order of the names. */
  function PhaseTwoQueries(bucket: string, names: seq<Option<Value>>): seq<string>
  {
    seq(|names|, i requires 0 <= i < |names| => LatestPerFieldQuery(bucket, Interpolate(names[i])))
  }

  /** Awaits `queries` one after another, the first at call position `n`; the
      first that does not resolve decides the outcome. When all resolve, the
      result holds the rows of each query, in order. */
  function RunAll(respond: Responder, n: nat, queries: seq<string>): (o: Outcome<seq<seq<Record>>>)
    ensures o.Resolved? ==> |o.value| == |queries|
    decreases |queries|
  {
    if queries == [] then Resolved([])
    else
      var k := |queries| - 1;
      var before := RunAll(respond, n, queries[..k]);
      if !before.Resolved? then before
      else
        var last := Settle(respond(n + k, queries[k]));
        if last.Resolved? then Resolved(before.value + [last.value]) else Propagate(last)
  }

  /** How many of `queries` RunAll sends: all of them, or those up to and
      including the first that does not resolve. */
  function Sent(respond: Responder, n: nat, queries: seq<string>): (c: nat)
    ensures c <= |queries|
    decreases |queries|
  {
    if queries == [] then 0
    else
      var k := |queries| - 1;
      if RunAll(respond, n, queries[..k]).Resolved? then |queries| else Sent(respond, n, queries[..k])
  }

  /** The summaries kept, in order: one for each name whose rows are not empty. */
  function Select(names: seq<Option<Value>>, rowsets: seq<seq<Record>>): seq<Summary>
    requires |names| == |rowsets|
    decreases |names|
  {
    if names == [] then []
    else
      var k := |names| - 1;
      Select(names[..k], rowsets[..k]) + if rowsets[k] == [] then [] else [Summarize(names[k], rowsets[k])]
  }

  /** The positions of the non-empty row lists, in increasing order. */
  function NonEmpty(rowsets: seq<seq<Record>>): (ks: seq<nat>)
    ensures forall j :: 0 <= j < |ks| ==> ks[j] < |rowsets| && rowsets[ks[j]] != []
    ensures forall j, j' :: 0 <= j < j' < |ks| ==> ks[j] < ks[j']
    ensures forall i :: 0 <= i < |rowsets| && rowsets[i] != [] ==> i in ks
    decreases |rowsets|
  {
    if rowsets == [] then []
    else
      var k := |rowsets| - 1;
      NonEmpty(rowsets[..k]) + if rowsets[k] == [] then [] else [k]
  }

  /** The phase-2 loop's outcome, when `queries[i]` is the query of `names[i]`:
      the selected summaries when every query resolves, otherwise the first
      failure. */
  function PhaseTwo(respond: Responder, n: nat, names: seq<Option<Value>>, queries: seq<string>): Outcome<seq<Summary>>
    requires |queries| == |names|
  {
    var rowsets := RunAll(respond, n, queries);
    if rowsets.Resolved? then Resolved(Select(names, rowsets.value)) else Propagate(rowsets)
  }

  /** getRecentActiveMeasurements, as a function of the database's answers, for
      a call whose first query is the n-th the database receives. */
  function RecentActive(respond: Responder, n: nat, bucket: string): Outcome<seq<Summary>>
  {
    var phaseOne := Settle(respond(n, MeasurementsQuery(bucket)));
    if !phaseOne.Resolved? then Propagate(phaseOne)
    else
      var names := Names(phaseOne.value);
      PhaseTwo(respond, n + 1, names, PhaseTwoQueries(bucket, names))
  }

  /** The queries getRecentActiveMeasurements sends, in order. */
  function Issued(respond: Responder, n: nat, bucket: string): seq<string>
  {
    var phaseOne := Settle(respond(n, MeasurementsQuery(bucket)));
    [MeasurementsQuery(bucket)] +
      if phaseOne.Resolved?
      then
        var queries := PhaseTwoQueries(bucket, Names(phaseOne.value));
        queries[..Sent(respond, n + 1, queries)]
      else []
  }

  /** When RunAll resolves, each query resolved, with the rows RunAll reports
      for it. */
  lemma {:induction false} RunAllRows(respond: Responder, n: nat, queries: seq<string>)
    requires RunAll(respond, n, queries).Resolved?
    ensures forall i :: 0 <= i < |queries| ==>
      Settle(respond(n + i, queries[i])) == Resolved(RunAll(respond, n, queries).value[i])
    decreases |queries|
  {
    if queries != [] {
      var k := |queries| - 1;
      RunAllRows(respond, n, queries[..k]);
      forall i | 0 <= i < k
        ensures queries[..k][i] == queries[i]
      {
      }
    }
  }

  /** When every query resolves, RunAll resolves and every query is sent. */
  lemma {:induction false} RunAllResolves(respond: Responder, n: nat, queries: seq<string>)
    requires forall i :: 0 <= i < |queries| ==> Settle(respond(n + i, queries[i])).Resolved?
    ensures RunAll(respond, n, queries).Resolved?
    ensures Sent(respond, n, queries) == |queries|
    decreases |queries|
  {
    if queries != [] {
      var k := |queries| - 1;
      assert forall i :: 0 <= i < k ==> queries[..k][i] == queries[i];
      RunAllResolves(respond, n, queries[..k]);
    }
  }

  /** The first query that does not resolve decides RunAll's outcome, and no
      query after it is sent. */
  lemma {:induction false} RunAllStopsAtFirstFailure(respond: Responder, n: nat, queries: seq<string>, k: nat)
    requires k < |queries|
    requires forall i :: 0 <= i < k ==> Settle(respond(n + i, queries[i])).Resolved?
    requires !Settle(respond(n + k, queries[k])).Resolved?
    ensures RunAll(respond, n, queries) == Propagate(Settle(respond(n + k, queries[k])))
    ensures Sent(respond, n, queries) == k + 1
    decreases |queries|
  {
    var m := |queries| - 1;
    assert forall i :: 0 <= i < m ==> queries[..m][i] == queries[i];
    if m == k {
      RunAllResolves(respond, n, queries[..m]);
    } else {
      RunAllStopsAtFirstFailure(respond, n, queries[..m], k);
    }
  }

  /** Select keeps exactly the names whose rows are not empty, in their order,
      each with the summary of its own rows. */
  lemma {:induction false} SelectKeepsNonEmpty(names: seq<Option<Value>>, rowsets: seq<seq<Record>>)
    requires |names| == |rowsets|
    ensures var ks := NonEmpty(rowsets);
      && |Select(names, rowsets)| == |ks|
      && forall j :: 0 <= j < |ks| ==> Select(names, rowsets)[j] == Summarize(names[ks[j]], rowsets[ks[j]])
    decreases |names|
  {
    if names != [] {
      var k := |names| - 1;
      SelectKeepsNonEmpty(names[..k], rowsets[..k]);
      var ks := NonEmpty(rowsets[..k]);
      var before := Select(names[..k], rowsets[..k]);
      forall j | 0 <= j < |ks|
        ensures before[j] == Summarize(names[ks[j]], rowsets[ks[j]])
      {
        assert names[..k][ks[j]] == names[ks[j]] && rowsets[..k][ks[j]] == rowsets[ks[j]];
      }
      if rowsets[k] == [] {
        assert Select(names, rowsets) == before;
        assert NonEmpty(rowsets) == ks;
      } else {
        assert Select(names, rowsets) == before + [Summarize(names[k], rowsets[k])];
        assert NonEmpty(rowsets) == ks + [k];
      }
    }
  }

  /** A name without rows never yields a summary, so there are never more
      summaries than names. */
  lemma {:induction false} SelectNoLonger(names: seq<Option<Value>>, rowsets: seq<seq<Record>>)
    requires |names| == |rowsets|
    ensures |Select(names, rowsets)| <= |names|
    ensures |Select(names, rowsets)| == |names| <==> forall i :: 0 <= i < |rowsets| ==> rowsets[i] != []
    decreases |names|
  {
    if names != [] {
      var k := |names| - 1;
      SelectNoLonger(names[..k], rowsets[..k]);
      assert forall i :: 0 <= i < k ==> rowsets[..k][i] == rowsets[i];
    }
  }

  /** Each summary lists one `{field, value, time}` per returned row, in the
      order the rows were returned. */
  lemma SummaryFollowsRows(name: Option<Value>, rows: seq<Record>)
    ensures Summarize(name, rows).measurement == name
    ensures |Summarize(name, rows).fields| == |rows|
    ensures forall i :: 0 <= i < |rows| ==>
      Summarize(name, rows).fields[i] == FieldSample(Get(rows[i], "_field"), Get(rows[i], "_value"), Get(rows[i], "_time"))
  {
  }

  /** When phase 1 and every phase-2 query resolve, the call resolves with the
      summaries of the names with rows, and it sent the phase-1 query and then
      one phase-2 query per name (the `_value` of each phase-1 row), in order. */
  lemma RecentActiveSucceeds(respond: Responder, n: nat, bucket: string, rows: seq<Record>, rowsets: seq<seq<Record>>)
    requires Settle(respond(n, MeasurementsQuery(bucket))) == Resolved(rows)
    requires |rowsets| == |rows|
    requires forall i :: 0 <= i < |rows| ==>
      Settle(respond(n + 1 + i, LatestPerFieldQuery(bucket, Interpolate(Get(rows[i], "_value"))))) == Resolved(rowsets[i])
    ensures RecentActive(respond, n, bucket) == Resolved(Select(Names(rows), rowsets))
    ensures Issued(respond, n, bucket) == [MeasurementsQuery(bucket)] + PhaseTwoQueries(bucket, Names(rows))
  {
    PhaseTwoResolves(respond, n, bucket, rows, rowsets);
    PhaseTwoDone(respond, n, bucket, rows, rowsets);
  }

  /** RecentActiveSucceeds, once the phase-2 facts are stated through RunAll. */
  lemma PhaseTwoDone(respond: Responder, n: nat, bucket: string, rows: seq<Record>, rowsets: seq<seq<Record>>)
    requires Settle(respond(n, MeasurementsQuery(bucket))) == Resolved(rows)
    requires RunAll(respond, n + 1, PhaseTwoQueries(bucket, Names(rows))) == Resolved(rowsets)
    requires Sent(respond, n + 1, PhaseTwoQueries(bucket, Names(rows))) == |rows|
    ensures RecentActive(respond, n, bucket) == Resolved(Select(Names(rows), rowsets))
    ensures Issued(respond, n, bucket) == [MeasurementsQuery(bucket)] + PhaseTwoQueries(bucket, Names(rows))
  {
    AfterPhaseOne(respond, n, bucket, rows);
    var queries := PhaseTwoQueries(bucket, Names(rows));
    assert queries[..|rows|] == queries;
  }

  /** Every phase-2 query resolving makes RunAll resolve with their rows. */
  lemma PhaseTwoResolves(respond: Responder, n: nat, bucket: string, rows: seq<Record>, rowsets: seq<seq<Record>>)
    requires |rowsets| == |rows|
    requires forall i :: 0 <= i < |rows| ==>
      Settle(respond(n + 1 + i, LatestPerFieldQuery(bucket, Interpolate(Get(rows[i], "_value"))))) == Resolved(rowsets[i])
    ensures RunAll(respond, n + 1, PhaseTwoQueries(bucket, Names(rows))) == Resolved(rowsets)
    ensures Sent(respond, n + 1, PhaseTwoQueries(bucket, Names(rows))) == |rows|
  {
    var queries := PhaseTwoQueries(bucket, Names(rows));
    forall i | 0 <= i < |queries|
      ensures Settle(respond(n + 1 + i, queries[i])) == Resolved(rowsets[i])
    {
      assert queries[i] == LatestPerFieldQuery(bucket, Interpolate(Get(rows[i], "_value")));
    }
    RunAllYields(respond, n + 1, queries, rowsets);
  }

  /** RunAll resolves with exactly the rows each query resolved with. */
  lemma RunAllYields(respond: Responder, n: nat, queries: seq<string>, rowsets: seq<seq<Record>>)
    requires |rowsets| == |queries|
    requires forall i :: 0 <= i < |queries| ==> Settle(respond(n + i, queries[i])) == Resolved(rowsets[i])
    ensures RunAll(respond, n, queries) == Resolved(rowsets)
    ensures Sent(respond, n, queries) == |queries|
  {
    RunAllResolves(respond, n, queries);
    RunAllRows(respond, n, queries);
    var o := RunAll(respond, n, queries).value;
    assert forall i :: 0 <= i < |queries| ==> Resolved(o[i]) == Resolved(rowsets[i]);
    assert o == rowsets;
  }

  /** A phase-2 query that fails aborts the whole call with its failure: no
      summary built before it is returned and no later name is queried. */
  lemma RecentActiveFailsAtPhaseTwo(respond: Responder, n: nat, bucket: string, rows: seq<Record>, k: nat)
    requires Settle(respond(n, MeasurementsQuery(bucket))) == Resolved(rows)
    requires k < |rows|
    requires forall i :: 0 <= i < k ==>
      Settle(respond(n + 1 + i, LatestPerFieldQuery(bucket, Interpolate(Get(rows[i], "_value"))))).Resolved?
    requires !Settle(respond(n + 1 + k, LatestPerFieldQuery(bucket, Interpolate(Get(rows[k], "_value"))))).Resolved?
    ensures RecentActive(respond, n, bucket) ==
      Propagate(Settle(respond(n + 1 + k, LatestPerFieldQuery(bucket, Interpolate(Get(rows[k], "_value"))))))
    ensures Issued(respond, n, bucket) == [MeasurementsQuery(bucket)] + PhaseTwoQueries(bucket, Names(rows))[..k + 1]
  {
    var names := Names(rows);
    var queries := PhaseTwoQueries(bucket, names);
    forall j | 0 <= j < k
      ensures Settle(respond(n + 1 + j, queries[j])).Resolved?
    {
      assert queries[j] == LatestPerFieldQuery(bucket, Interpolate(Get(rows[j], "_value")));
    }
    assert queries[k] == LatestPerFieldQuery(bucket, Interpolate(Get(rows[k], "_value")));
    PhaseTwoFailsAt(respond, n, bucket, rows, k);
  }

  /** RecentActiveFailsAtPhaseTwo, stated on the list of phase-2 queries. */
  lemma PhaseTwoFailsAt(respond: Responder, n: nat, bucket: string, rows: seq<Record>, k: nat)
    requires Settle(respond(n, MeasurementsQuery(bucket))) == Resolved(rows)
    requires k < |rows|
    requires forall j :: 0 <= j < k ==> Settle(respond(n + 1 + j, PhaseTwoQueries(bucket, Names(rows))[j])).Resolved?
    requires !Settle(respond(n + 1 + k, PhaseTwoQueries(bucket, Names(rows))[k])).Resolved?
    ensures RecentActive(respond, n, bucket) == Propagate(Settle(respond(n + 1 + k, PhaseTwoQueries(bucket, Names(rows))[k])))
    ensures Issued(respond, n, bucket) == [MeasurementsQuery(bucket)] + PhaseTwoQueries(bucket, Names(rows))[..k + 1]
  {
    var names := Names(rows);
    var queries := PhaseTwoQueries(bucket, names);
    assert |queries| == |names| == |rows|;
    PhaseTwoStops(respond, n + 1, names, queries, k);
    AfterPhaseOne(respond, n, bucket, rows);
  }

  /** Whatever the outcome, the call first sends the phase-1 query and then the
      phase-2 queries of the phase-1 names, in phase-1 order, each built from
      the `_value` of its row, and at most one per name. */
  lemma IssuedInOrder(respond: Responder, n: nat, bucket: string, rows: seq<Record>)
    requires Settle(respond(n, MeasurementsQuery(bucket))) == Resolved(rows)
    ensures var issued := Issued(respond, n, bucket);
      && 1 <= |issued| <= 1 + |rows|
      && issued[0] == MeasurementsQuery(bucket)
      && forall i :: 0 <= i < |issued| - 1 ==>
        issued[1 + i] == LatestPerFieldQuery(bucket, Interpolate(Get(rows[i], "_value")))
  {
    AfterPhaseOne(respond, n, bucket, rows);
    var queries := PhaseTwoQueries(bucket, Names(rows));
    var sent := queries[..Sent(respond, n + 1, queries)];
    var issued := Issued(respond, n, bucket);
    assert issued == [MeasurementsQuery(bucket)] + sent;
    forall i | 0 <= i < |issued| - 1
      ensures issued[1 + i] == LatestPerFieldQuery(bucket, Interpolate(Get(rows[i], "_value")))
    {
      assert issued[1 + i] == sent[i] == queries[i];
    }
  }

  /** A phase-1 query that fails aborts the call with its failure before any
      phase-2 query is sent. */
  lemma RecentActiveFailsAtPhaseOne(respond: Responder, n: nat, bucket: string)
    requires !Settle(respond(n, MeasurementsQuery(bucket))).Resolved?
    ensures RecentActive(respond, n, bucket) == Propagate(Settle(respond(n, MeasurementsQuery(bucket))))
    ensures Issued(respond, n, bucket) == [MeasurementsQuery(bucket)]
  {
  }

  /** All or nothing: the call resolves only when phase 1 and every phase-2
      query resolved, and then with at most one summary per name, each for a
      name whose rows are not empty. */
  lemma RecentActiveResolvedOnlyIfAllResolved(respond: Responder, n: nat, bucket: string, s: seq<Summary>)
    requires RecentActive(respond, n, bucket) == Resolved(s)
    ensures Settle(respond(n, MeasurementsQuery(bucket))).Resolved?
    ensures var names := Names(Settle(respond(n, MeasurementsQuery(bucket))).value);
      && (forall i :: 0 <= i < |names| ==>
            Settle(respond(n + 1 + i, LatestPerFieldQuery(bucket, Interpolate(names[i])))).Resolved?)
      && |s| <= |names|
      && forall j :: 0 <= j < |s| ==> s[j].fields != []
  {
    var names := Names(Settle(respond(n, MeasurementsQuery(bucket))).value);
    var queries := PhaseTwoQueries(bucket, names);
    assert RecentActive(respond, n, bucket) == PhaseTwo(respond, n + 1, names, queries);
    PhaseTwoResolvedOnlyIfAllResolved(respond, n + 1, names, queries, s);
    forall i | 0 <= i < |names|
      ensures Settle(respond(n + 1 + i, LatestPerFieldQuery(bucket, Interpolate(names[i])))).Resolved?
    {
      assert queries[i] == LatestPerFieldQuery(bucket, Interpolate(names[i]));
    }
  }

  /** The phase-2 loop resolves only when every query resolved, and then with
      at most one summary per name, none of them empty. */
  lemma PhaseTwoResolvedOnlyIfAllResolved(respond: Responder, n: nat, names: seq<Option<Value>>, queries: seq<string>, s: seq<Summary>)
    requires |queries| == |names|
    requires PhaseTwo(respond, n, names, queries) == Resolved(s)
    ensures forall i :: 0 <= i < |queries| ==> Settle(respond(n + i, queries[i])).Resolved?
    ensures |s| <= |names|
    ensures forall j :: 0 <= j < |s| ==> s[j].fields != []
  {
    var rowsets := RunAll(respond, n, queries).value;
    RunAllRows(respond, n, queries);
    SelectNoLonger(names, rowsets);
    SelectKeepsNonEmpty(names, rowsets);
  }

  /** Select over one more name appends that name's summary when it has rows. */
  lemma SelectStep(names: seq<Option<Value>>, rowsets: seq<seq<Record>>, rows: seq<Record>)
    requires names != [] && |rowsets| == |names| - 1
    ensures Select(names, rowsets + [rows]) ==
      Select(names[..|names| - 1], rowsets) + if rows == [] then [] else [Summarize(names[|names| - 1], rows)]
  {
    assert (rowsets + [rows])[..|names| - 1] == rowsets;
  }

  /** The per-query facts RunAllYields needs, extended by one more query. */
  lemma StillResolved(respond: Responder, n: nat, queries: seq<string>, i: nat, rowsets: seq<seq<Record>>, rows: seq<Record>)
    requires i < |queries| && |rowsets| == i
    requires forall j :: 0 <= j < i ==> Settle(respond(n + j, queries[j])) == Resolved(rowsets[j])
    requires Settle(respond(n + i, queries[i])) == Resolved(rows)
    ensures forall j :: 0 <= j < i + 1 ==> Settle(respond(n + j, queries[j])) == Resolved((rowsets + [rows])[j])
  {
    forall j | 0 <= j < i + 1
      ensures Settle(respond(n + j, queries[j])) == Resolved((rowsets + [rows])[j])
    {
      if j < i {
        assert (rowsets + [rows])[j] == rowsets[j];
      }
    }
  }

  /** The loop ends at the first query that does not resolve, with its failure,
      having sent the queries up to it. */
  lemma PhaseTwoStops(respond: Responder, n: nat, names: seq<Option<Value>>, queries: seq<string>, i: nat)
    requires |queries| == |names| && i < |queries|
    requires forall j :: 0 <= j < i ==> Settle(respond(n + j, queries[j])).Resolved?
    requires !Settle(respond(n + i, queries[i])).Resolved?
    ensures PhaseTwo(respond, n, names, queries) == Propagate(Settle(respond(n + i, queries[i])))
    ensures Sent(respond, n, queries) == i + 1
  {
    RunAllStopsAtFirstFailure(respond, n, queries, i);
  }

  /** The loop runs to its end when every query resolves, with the summaries of
      the names whose rows are not empty, having sent every query. */
  lemma PhaseTwoCompletes(respond: Responder, n: nat, names: seq<Option<Value>>, queries: seq<string>, rowsets: seq<seq<Record>>)
    requires |queries| == |names| == |rowsets|
    requires forall j :: 0 <= j < |queries| ==> Settle(respond(n + j, queries[j])) == Resolved(rowsets[j])
    ensures PhaseTwo(respond, n, names, queries) == Resolved(Select(names, rowsets))
    ensures Sent(respond, n, queries) == |queries|
  {
    RunAllYields(respond, n, queries, rowsets);
  }

  /** Concatenation is associative. */
  lemma Regroup<T>(a: seq<T>, b: seq<T>, c: seq<T>)
    ensures a + b + c == a + (b + c)
  {
  }

  /** Select over the names up to i grows by the summary of name i when its
      rows are not empty. */
  lemma SelectGrows(names: seq<Option<Value>>, rowsets: seq<seq<Record>>, i: nat, rows: seq<Record>)
    requires i < |names| && |rowsets| == i
    ensures Select(names[..i + 1], rowsets + [rows]) ==
      Select(names[..i], rowsets) + if rows == [] then [] else [Summarize(names[i], rows)]
  {
    assert names[..i + 1][..i] == names[..i];
    SelectStep(names[..i + 1], rowsets, rows);
  }

  /** A prefix grows by the next element. */
  lemma Extend<T>(s: seq<T>, i: nat)
    requires i < |s|
    ensures s[..i] + [s[i]] == s[..i + 1]
  {
  }

  /** RecentActive and Issued once phase 1 resolved with `rows`. */
  lemma AfterPhaseOne(respond: Responder, n: nat, bucket: string, rows: seq<Record>)
    requires Settle(respond(n, MeasurementsQuery(bucket))) == Resolved(rows)
    ensures RecentActive(respond, n, bucket) == PhaseTwo(respond, n + 1, Names(rows), PhaseTwoQueries(bucket, Names(rows)))
    ensures var queries := PhaseTwoQueries(bucket, Names(rows));
      Issued(respond, n, bucket) == [MeasurementsQuery(bucket)] + queries[..Sent(respond, n + 1, queries)]
  {
  }
}
