/** The Flux query texts the adapter builds (influxdb.ts). Each is a template
    literal that interpolates its arguments verbatim: nothing is escaped, so no
    claim is made here that a text is well-formed Flux, only what text it is. */
module Flux {
  import opened Client

  /** Lookback of getLatestData when no time range is given. */
  const DefaultTimeRange: string := "-1h"
  /** Stop bound of getDataInRange when no stop is given. */
  const DefaultStop: string := "now()"

  /** A JavaScript default parameter: the default applies when the argument is
      `undefined` (here `None`); any given string, even an empty one, is used. */
  function OrDefault(arg: Option<string>, default: string): string
  {
    match arg
    case Some(s) => s
    case None => default
  }

  predicate StartsWith(s: string, p: string)
  {
    |p| <= |s| && s[..|p|] == p
  }

  predicate EndsWith(s: string, p: string)
  {
    |p| <= |s| && s[|s| - |p|..] == p
  }

  predicate OccursAt(s: string, p: string, i: int)
  {
    0 <= i <= |s| - |p| && s[i..i + |p|] == p
  }

  predicate Contains(s: string, p: string)
  {
    exists i | 0 <= i <= |s| - |p| :: OccursAt(s, p, i)
  }

  lemma Infix(a: string, p: string, c: string)
    ensures Contains(a + p + c, p)
  {
    assert (a + p + c)[|a|..|a| + |p|] == p;
    assert OccursAt(a + p + c, p, |a|);
  }

  /** Where five consecutive pieces of a text stand in it. */
  lemma Pieces(a: string, b: string, c: string, d: string, e: string)
    ensures var s := a + b + c + d + e;
      StartsWith(s, a) && Contains(s, b) && Contains(s, c) && Contains(s, d) && EndsWith(s, e)
  {
    var s := a + b + c + d + e;
    assert s[..|a|] == a;
    assert s[|s| - |e|..] == e;
    assert s == a + b + (c + d + e);
    Infix(a, b, c + d + e);
    assert s == (a + b) + c + (d + e);
    Infix(a + b, c, d + e);
    assert s == (a + b + c) + d + e;
    Infix(a + b + c, d, e);
  }

  /** Text around a piece determines the piece. */
  lemma MiddleDetermined(a: string, m: string, m': string, c: string)
    requires a + m + c == a + m' + c
    ensures m == m'
  {
    var s := a + m + c;
    assert |m| == |m'|;
    assert s[|a|..|a| + |m|] == m;
    assert (a + m' + c)[|a|..|a| + |m'|] == m';
  }

  /** One line of a query template: a line break, the indentation, the text. */
  function Line(indent: string, text: string): string
  {
    "\n" + indent + text
  }

  function FromBucket(bucket: string): string
  {
    "from(bucket: \"" + bucket + "\")"
  }

  function MeasurementFilter(measurement: string): string
  {
    "|> filter(fn: (r) => r._measurement == \"" + measurement + "\")"
  }

  function FieldFilter(field: string): string
  {
    "|> filter(fn: (r) => r._field == \"" + field + "\")"
  }

  /** getLatestData's query: the last sample of one field of one measurement
      within a lookback window. */
  function LatestDataQuery(bucket: string, measurement: string, field: string, timeRange: Option<string>): string
  {
    Line("    ", FromBucket(bucket)) +
    Line("      ", "|> range(start: " + OrDefault(timeRange, DefaultTimeRange) + ")") +
    Line("      ", MeasurementFilter(measurement)) +
    Line("      ", FieldFilter(field)) +
    Line("      ", "|> last()") +
    Line("  ", "")
  }

  /** getDataInRange's query: every sample of one field of one measurement
      between two time bounds, with no reduction. */
  function DataInRangeQuery(bucket: string, measurement: string, field: string, start: string, stop: Option<string>): string
  {
    Line("    ", FromBucket(bucket)) +
    Line("      ", "|> range(start: " + start + ", stop: " + OrDefault(stop, DefaultStop) + ")") +
    Line("      ", MeasurementFilter(measurement)) +
    Line("      ", FieldFilter(field)) +
    Line("  ", "")
  }

  /** Phase 1 of getRecentActiveMeasurements: the distinct measurement names
      with data in the last two days. */
  function MeasurementsQuery(bucket: string): string
  {
    Line("    ", FromBucket(bucket)) +
    Line("      ", "|> range(start: -2d)") +
    Line("      ", "|> distinct(column: \"_measurement\")") +
    Line("  ", "")
  }

  /** Phase 2 of getRecentActiveMeasurements, for one measurement: the last
      sample of each of its fields in the last two days. */
  function LatestPerFieldQuery(bucket: string, measurement: string): string
  {
    Line("      ", FromBucket(bucket)) +
    Line("        ", "|> range(start: -2d)") +
    Line("        ", MeasurementFilter(measurement)) +
    Line("        ", "|> group(columns: [\"_field\"])") +
    Line("        ", "|> last()") +
    Line("    ", "")
  }

  /** getLatestData reads from the bucket, restricts to the given window (`-1h`
      when none is given), keeps the measurement and the field asked for, and
      ends by reducing to the last row. */
  lemma LatestDataQueryText(bucket: string, measurement: string, field: string, timeRange: Option<string>)
    ensures var q := LatestDataQuery(bucket, measurement, field, timeRange);
      && StartsWith(q, Line("    ", FromBucket(bucket)))
      && Contains(q, Line("      ", "|> range(start: " + OrDefault(timeRange, DefaultTimeRange) + ")"))
      && Contains(q, Line("      ", MeasurementFilter(measurement)))
      && Contains(q, Line("      ", FieldFilter(field)))
      && EndsWith(q, Line("      ", "|> last()") + Line("  ", ""))
  {
    var last := Line("      ", "|> last()");
    var close := Line("  ", "");
    var front := Line("    ", FromBucket(bucket)) +
      Line("      ", "|> range(start: " + OrDefault(timeRange, DefaultTimeRange) + ")") +
      Line("      ", MeasurementFilter(measurement)) +
      Line("      ", FieldFilter(field));
    assert front + last + close == front + (last + close);
    Pieces(Line("    ", FromBucket(bucket)),
      Line("      ", "|> range(start: " + OrDefault(timeRange, DefaultTimeRange) + ")"),
      Line("      ", MeasurementFilter(measurement)),
      Line("      ", FieldFilter(field)),
      last + close);
  }

  /** Omitting the time range of getLatestData is the same as asking for `-1h`. */
  lemma LatestDataDefaultRange(bucket: string, measurement: string, field: string)
    ensures LatestDataQuery(bucket, measurement, field, None) == LatestDataQuery(bucket, measurement, field, Some("-1h"))
    ensures Contains(LatestDataQuery(bucket, measurement, field, None), Line("      ", "|> range(start: " + "-1h" + ")"))
  {
    LatestDataQueryText(bucket, measurement, field, None);
  }

  /** getDataInRange reads from the bucket, restricts to [start, stop) (`now()`
      when no stop is given) and keeps the measurement and the field asked for;
      the field filter is its last stage, so there is no `last()` reduction. */
  lemma DataInRangeQueryText(bucket: string, measurement: string, field: string, start: string, stop: Option<string>)
    ensures var q := DataInRangeQuery(bucket, measurement, field, start, stop);
      && StartsWith(q, Line("    ", FromBucket(bucket)))
      && Contains(q, Line("      ", "|> range(start: " + start + ", stop: " + OrDefault(stop, DefaultStop) + ")"))
      && Contains(q, Line("      ", MeasurementFilter(measurement)))
      && EndsWith(q, Line("      ", FieldFilter(field)) + Line("  ", ""))
  {
    Pieces(Line("    ", FromBucket(bucket)),
      Line("      ", "|> range(start: " + start + ", stop: " + OrDefault(stop, DefaultStop) + ")"),
      Line("      ", MeasurementFilter(measurement)),
      Line("      ", FieldFilter(field)),
      Line("  ", ""));
    var front := Line("    ", FromBucket(bucket)) +
      Line("      ", "|> range(start: " + start + ", stop: " + OrDefault(stop, DefaultStop) + ")") +
      Line("      ", MeasurementFilter(measurement));
    var q := DataInRangeQuery(bucket, measurement, field, start, stop);
    assert q == front + (Line("      ", FieldFilter(field)) + Line("  ", ""));
    assert q[|q| - |Line("      ", FieldFilter(field)) + Line("  ", "")|..] == Line("      ", FieldFilter(field)) + Line("  ", "");
  }

  /** Omitting the stop bound of getDataInRange is the same as asking for `now()`. */
  lemma DataInRangeDefaultStop(bucket: string, measurement: string, field: string, start: string)
    ensures DataInRangeQuery(bucket, measurement, field, start, None) == DataInRangeQuery(bucket, measurement, field, start, Some("now()"))
    ensures Contains(DataInRangeQuery(bucket, measurement, field, start, None), Line("      ", "|> range(start: " + start + ", stop: " + "now()" + ")"))
  {
    DataInRangeQueryText(bucket, measurement, field, start, None);
  }

  /** The phase-1 query reads from the bucket over the last two days and ends by
      listing the distinct measurement names. */
  lemma MeasurementsQueryText(bucket: string)
    ensures var q := MeasurementsQuery(bucket);
      && StartsWith(q, Line("    ", FromBucket(bucket)))
      && Contains(q, Line("      ", "|> range(start: -2d)"))
      && EndsWith(q, Line("      ", "|> distinct(column: \"_measurement\")") + Line("  ", ""))
  {
    var from := Line("    ", FromBucket(bucket));
    var range := Line("      ", "|> range(start: -2d)");
    var tail := Line("      ", "|> distinct(column: \"_measurement\")") + Line("  ", "");
    var q := MeasurementsQuery(bucket);
    assert q == from + range + tail;
    assert q[..|from|] == from;
    assert q[|q| - |tail|..] == tail;
    Infix(from, range, tail);
  }

  /** The phase-2 query of one measurement keeps that measurement over the last
      two days, groups by field and takes the last row of each group. */
  lemma LatestPerFieldQueryText(bucket: string, measurement: string)
    ensures var q := LatestPerFieldQuery(bucket, measurement);
      && StartsWith(q, Line("      ", FromBucket(bucket)))
      && Contains(q, Line("        ", "|> range(start: -2d)"))
      && Contains(q, Line("        ", MeasurementFilter(measurement)))
      && Contains(q, Line("        ", "|> group(columns: [\"_field\"])"))
      && EndsWith(q, Line("        ", "|> last()") + Line("    ", ""))
  {
    var front := Line("      ", FromBucket(bucket)) + Line("        ", "|> range(start: -2d)") +
      Line("        ", MeasurementFilter(measurement)) + Line("        ", "|> group(columns: [\"_field\"])");
    var last := Line("        ", "|> last()");
    var close := Line("    ", "");
    assert front + last + close == front + (last + close);
    Pieces(Line("      ", FromBucket(bucket)), Line("        ", "|> range(start: -2d)"),
      Line("        ", MeasurementFilter(measurement)), Line("        ", "|> group(columns: [\"_field\"])"),
      last + close);
  }

  /** Regroups a text built around a middle piece `m` into what precedes it, `m`
      and what follows it. */
  lemma SplitAround(x: string, p1: string, p2: string, m: string, s: string, g: string, l: string)
    ensures x + (p1 + (p2 + m + s)) + g + l == (x + p1 + p2) + m + (s + g + l)
  {
  }

  /** The phase-2 query text determines the measurement text it was built from,
      so distinct interpolated names give distinct queries. */
  lemma LatestPerFieldQueryInjective(bucket: string, measurement: string, other: string)
    ensures LatestPerFieldQuery(bucket, measurement) == LatestPerFieldQuery(bucket, other) <==> measurement == other
  {
    var x := Line("      ", FromBucket(bucket)) + Line("        ", "|> range(start: -2d)");
    var p1 := "\n" + "        ";
    var p2 := "|> filter(fn: (r) => r._measurement == \"";
    var s := "\")";
    var g := Line("        ", "|> group(columns: [\"_field\"])");
    var l := Line("        ", "|> last()") + Line("    ", "");
    var lastLine := Line("        ", "|> last()");
    var closeLine := Line("    ", "");
    forall name | name in {measurement, other}
      ensures LatestPerFieldQuery(bucket, name) == (x + p1 + p2) + name + (s + g + l)
    {
      assert Line("        ", MeasurementFilter(name)) == p1 + (p2 + name + s);
      assert LatestPerFieldQuery(bucket, name) == x + (p1 + (p2 + name + s)) + g + lastLine + closeLine;
      assert x + (p1 + (p2 + name + s)) + g + lastLine + closeLine == x + (p1 + (p2 + name + s)) + g + l;
      SplitAround(x, p1, p2, name, s, g, l);
    }
    if LatestPerFieldQuery(bucket, measurement) == LatestPerFieldQuery(bucket, other) {
      MiddleDetermined(x + p1 + p2, measurement, other, s + g + l);
    }
  }
}
