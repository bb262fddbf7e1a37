/** The ingestion step `materialize()`: walk the months from the start date
    to the end date, download and normalise one batch per taxi type and
    month, concatenate the batches and stamp the extraction time. */
module Ingestion {
  import opened Calendar
  import opened TripUrls
  import opened Frames
  import opened Normalization

  /** Taxi types used when the run's variables name none. */
  const DefaultTaxiTypes: seq<string> := ["yellow", "green"]

  /** `vars.get("taxi_types", ["yellow", "green"])`. */
  function TaxiTypes(configured: Option<seq<string>>): seq<string>
  {
    match configured
    case Some(taxis) => taxis
    case None => DefaultTaxiTypes
  }

  /** A frame the download can return: one that normalises under every
      tag. */
  type Download = t: Table | Loadable(t) witness Empty

  predicate AllValid(vs: seq<DateTime>)
  {
    forall i :: 0 <= i < |vs| ==> Valid(vs[i])
  }

  /** The batch for one month and one tag: the file at that month's address,
      normalised under the tag. */
  function Batch(d: DateTime, taxi: string, fetch: string -> Download): (b: Table)
    requires Valid(d)
    ensures WellFormed(b)
  {
    var raw := fetch(TripUrl(taxi, d.year, d.month));
    LoadableNormalizable(taxi, raw);
    Normalized(taxi, raw)
  }

  /** The batches of one month, one per tag, in tag order. */
  function MonthBatches(d: DateTime, taxis: seq<string>, fetch: string -> Download): seq<Table>
    requires Valid(d)
  {
    seq(|taxis|, j requires 0 <= j < |taxis| => Batch(d, taxis[j], fetch))
  }

  /** The month batch lists for the visited cursors `vs`, in walk order. */
  function Months(vs: seq<DateTime>, taxis: seq<string>, fetch: string -> Download): seq<seq<Table>>
    requires AllValid(vs)
  {
    seq(|vs|, i requires 0 <= i < |vs| => MonthBatches(vs[i], taxis, fetch))
  }

  /** The lists of `lists`, joined end to end in order. */
  function Flatten(lists: seq<seq<Table>>): seq<Table>
  {
    if lists == [] then [] else Flatten(lists[..|lists| - 1]) + lists[|lists| - 1]
  }

  /** The batch list `dfs` built for the visited cursors `vs`: month by
      month, and within a month tag by tag. */
  function Batches(vs: seq<DateTime>, taxis: seq<string>, fetch: string -> Download): (bs: seq<Table>)
    requires AllValid(vs)
    ensures AllWellFormed(bs)
  {
    FlattenWellFormed(Months(vs, taxis, fetch));
    Flatten(Months(vs, taxis, fetch))
  }

  /** What `materialize()` returns: the concatenated batches with
      `extracted_at` set to `now` on every row, or an empty frame when no
      batch was built. */
  function Materialized(start: DateTime, end: DateTime, taxis: seq<string>, fetch: string -> Download, now: DateTime): Table
    requires Valid(start) && Valid(end)
  {
    Stamped(Batches(Visits(start, end), taxis, fetch), "extracted_at", Instant(now))
  }

  /** One pass of the inner loop: build the address for the `j`-th tag and
      the cursor's month, download the file and normalise it in place. */
  method FetchBatch(cur: DateTime, taxi: string, fetch: string -> Download) returns (b: Table)
    requires Valid(cur)
    ensures b == Batch(cur, taxi, fetch)
  {
    var url := TripUrl(taxi, cur.year, cur.month);
    var df := new Frame(fetch(url));
    LoadableNormalizable(taxi, df.Snapshot());
    NormalizeBatch(df, taxi);
    b := df.Snapshot();
  }

  /** The inner loop of `materialize()`: one batch per tag for the cursor's
      month, appended to `dfs` in tag order. */
  method FetchMonth(dfs: seq<Table>, cur: DateTime, taxis: seq<string>, fetch: string -> Download)
    returns (dfs': seq<Table>)
    requires Valid(cur)
    ensures dfs' == dfs + MonthBatches(cur, taxis, fetch)
  {
    ghost var month := MonthBatches(cur, taxis, fetch);
    dfs' := dfs;
    for j := 0 to |taxis|
      invariant dfs' == dfs + month[..j]
    {
      var df := FetchBatch(cur, taxis[j], fetch);
      assert month[..j + 1] == month[..j] + [df];
      dfs' := dfs' + [df];
    }
    assert month[..|taxis|] == month;
  }

  /** The loops of `materialize()`, with the download `fetch`, the clock
      reading `now` and the tag list passed in. */
  method Materialize(start: DateTime, end: DateTime, taxis: seq<string>, fetch: string -> Download, now: DateTime)
    returns (out: Table)
    requires Valid(start) && Valid(end)
    ensures out == Materialized(start, end, taxis, fetch, now)
  {
    var dfs: seq<Table> := [];
    var cur := start;
    ghost var visited: seq<DateTime> := [];
    while Before(cur, end)
      invariant Valid(cur) && AllValid(visited)
      invariant Visits(start, end) == visited + Visits(cur, end)
      invariant dfs == Batches(visited, taxis, fetch)
      decreases MonthIndex(end) - MonthIndex(cur) + 1
    {
      dfs := FetchMonth(dfs, cur, taxis, fetch);
      AppendMonth(visited, cur, taxis, fetch);
      VisitsUnfold(cur, end);
      visited := visited + [cur];
      BeforeBoundsMonth(cur, end);
      cur := NextMonth(cur);
    }
    VisitsStop(cur, end);
    assert Visits(start, end) == visited;
    if |dfs| > 0 {
      var frame := new Frame(Concatenated(dfs));
      frame.Assign("extracted_at", Instant(now));
      out := frame.Snapshot();
    } else {
      out := Empty;
    }
  }

  lemma MonthsAppend(vs: seq<DateTime>, d: DateTime, taxis: seq<string>, fetch: string -> Download)
    requires AllValid(vs) && Valid(d)
    ensures AllValid(vs + [d])
    ensures Months(vs + [d], taxis, fetch) == Months(vs, taxis, fetch) + [MonthBatches(d, taxis, fetch)]
  {
    var w := vs + [d];
    assert AllValid(w);
    var l, r := Months(w, taxis, fetch), Months(vs, taxis, fetch) + [MonthBatches(d, taxis, fetch)];
    forall i | 0 <= i < |l|
      ensures l[i] == r[i]
    {
      if i < |vs| {
        assert w[i] == vs[i];
      } else {
        assert w[i] == d;
      }
    }
  }

  lemma FlattenAppend(lists: seq<seq<Table>>, last: seq<Table>)
    ensures Flatten(lists + [last]) == Flatten(lists) + last
  {
    assert (lists + [last])[..|lists|] == lists;
  }

  /** Running one more month appends that month's batches, tag by tag. */
  lemma AppendMonth(vs: seq<DateTime>, d: DateTime, taxis: seq<string>, fetch: string -> Download)
    requires AllValid(vs) && Valid(d)
    ensures AllValid(vs + [d])
    ensures Batches(vs + [d], taxis, fetch) == Batches(vs, taxis, fetch) + MonthBatches(d, taxis, fetch)
  {
    MonthsAppend(vs, d, taxis, fetch);
    FlattenAppend(Months(vs, taxis, fetch), MonthBatches(d, taxis, fetch));
  }

  lemma VisitsUnfold(cur: DateTime, end: DateTime)
    requires Valid(cur) && Valid(end) && Before(cur, end)
    ensures Visits(cur, end) == [cur] + Visits(NextMonth(cur), end)
  {
  }

  // ---------------------------------------------------------------------
  // Properties of the batch list

  lemma MulSucc(a: nat, n: nat)
    ensures (a + 1) * n == a * n + n
  {
  }

  lemma MulMonotone(a: nat, b: nat, n: nat)
    requires a < b
    ensures a * n + n <= b * n
  {
    var d := b - a - 1;
    assert b == a + 1 + d;
    assert b * n == a * n + n + d * n;
  }

  lemma {:induction false} FlattenLength(lists: seq<seq<Table>>, n: nat)
    requires forall i :: 0 <= i < |lists| ==> |lists[i]| == n
    ensures |Flatten(lists)| == |lists| * n
    decreases |lists|
  {
    if lists != [] {
      var front := lists[..|lists| - 1];
      FlattenLength(front, n);
      MulSucc(|front|, n);
    }
  }

  lemma {:induction false} FlattenAt(lists: seq<seq<Table>>, n: nat, i: nat, j: nat)
    requires forall i :: 0 <= i < |lists| ==> |lists[i]| == n
    requires i < |lists| && j < n
    ensures i * n + j < |Flatten(lists)| && Flatten(lists)[i * n + j] == lists[i][j]
    decreases |lists|
  {
    var front := lists[..|lists| - 1];
    FlattenLength(front, n);
    FlattenLength(lists, n);
    if i < |front| {
      FlattenAt(front, n, i, j);
      MulMonotone(i, |front|, n);
    }
  }

  lemma {:induction false} FlattenWellFormed(lists: seq<seq<Table>>)
    requires forall i :: 0 <= i < |lists| ==> AllWellFormed(lists[i])
    ensures AllWellFormed(Flatten(lists))
    decreases |lists|
  {
    if lists != [] {
      FlattenWellFormed(lists[..|lists| - 1]);
    }
  }

  /** One batch per visited month and tag. */
  lemma BatchesCount(vs: seq<DateTime>, taxis: seq<string>, fetch: string -> Download)
    requires AllValid(vs)
    ensures |Batches(vs, taxis, fetch)| == |vs| * |taxis|
  {
    FlattenLength(Months(vs, taxis, fetch), |taxis|);
  }

  /** Batch `i * |taxis| + j` is the `j`-th tag's file for the `i`-th visited
      month: months in walk order, tags in list order within a month. */
  lemma BatchAt(vs: seq<DateTime>, taxis: seq<string>, fetch: string -> Download, i: nat, j: nat)
    requires AllValid(vs)
    requires i < |vs| && j < |taxis|
    ensures i * |taxis| + j < |Batches(vs, taxis, fetch)|
    ensures Batches(vs, taxis, fetch)[i * |taxis| + j] == Batch(vs[i], taxis[j], fetch)
  {
    FlattenAt(Months(vs, taxis, fetch), |taxis|, i, j);
  }

  /** With the default tags, month `i` contributes the yellow batch at
      `2 * i` and the green batch at `2 * i + 1`. */
  lemma DefaultTagsAlternate(vs: seq<DateTime>, fetch: string -> Download, i: nat)
    requires AllValid(vs) && i < |vs|
    ensures |Batches(vs, TaxiTypes(None), fetch)| == 2 * |vs|
    ensures Batches(vs, TaxiTypes(None), fetch)[2 * i] == Batch(vs[i], "yellow", fetch)
    ensures Batches(vs, TaxiTypes(None), fetch)[2 * i + 1] == Batch(vs[i], "green", fetch)
  {
    var taxis := TaxiTypes(None);
    assert |taxis| == 2 && taxis[0] == "yellow" && taxis[1] == "green";
    BatchesCount(vs, taxis, fetch);
    TimesTwo(|vs|, |taxis|);
    TimesTwo(i, |taxis|);
    BatchAt(vs, taxis, fetch, i, 0);
    BatchAt(vs, taxis, fetch, i, 1);
    assert i * |taxis| + 0 == 2 * i && i * |taxis| + 1 == 2 * i + 1;
  }

  lemma TimesTwo(a: nat, n: nat)
    requires n == 2
    ensures a * n == 2 * a
  {
  }

  /** With no tag listed twice, no two batches of a run download the same
      address: different (month, tag) positions give different addresses. */
  lemma DistinctAddresses(start: DateTime, end: DateTime, taxis: seq<string>, i1: nat, j1: nat, i2: nat, j2: nat)
    requires Valid(start) && Valid(end) && Distinct(taxis)
    requires i1 < |Visits(start, end)| && i2 < |Visits(start, end)| && j1 < |taxis| && j2 < |taxis|
    requires i1 != i2 || j1 != j2
    ensures var vs := Visits(start, end);
      TripUrl(taxis[j1], vs[i1].year, vs[i1].month) != TripUrl(taxis[j2], vs[i2].year, vs[i2].month)
  {
    var vs := Visits(start, end);
    VisitsAreConsecutiveMonths(start, end);
    TripUrlInjective(taxis[j1], vs[i1].year, vs[i1].month, taxis[j2], vs[i2].year, vs[i2].month);
    if i1 == i2 {
      DistinctAt(taxis, j1, j2);
    } else {
      assert MonthIndex(vs[i1]) != MonthIndex(vs[i2]);
    }
  }

  /** A tag listed twice downloads the same file twice in a month and
      appends the same batch twice. */
  lemma RepeatedTagDuplicates(vs: seq<DateTime>, taxis: seq<string>, fetch: string -> Download, i: nat, j1: nat, j2: nat)
    requires AllValid(vs) && i < |vs| && j1 < |taxis| && j2 < |taxis|
    requires taxis[j1] == taxis[j2]
    ensures i * |taxis| + j1 < |Batches(vs, taxis, fetch)| && i * |taxis| + j2 < |Batches(vs, taxis, fetch)|
    ensures Batches(vs, taxis, fetch)[i * |taxis| + j1] == Batches(vs, taxis, fetch)[i * |taxis| + j2]
  {
    BatchAt(vs, taxis, fetch, i, j1);
    BatchAt(vs, taxis, fetch, i, j2);
  }

  // ---------------------------------------------------------------------
  // Properties of the result

  /** The result is the empty frame exactly when no batch is built: the
      start is not before the end, or the tag list is empty. Otherwise it
      has an `extracted_at` column. */
  lemma MaterializedEmpty(start: DateTime, end: DateTime, taxis: seq<string>, fetch: string -> Download, now: DateTime)
    requires Valid(start) && Valid(end)
    ensures Materialized(start, end, taxis, fetch, now) == Empty <==> !Before(start, end) || |taxis| == 0
  {
    var vs := Visits(start, end);
    VisitsStop(start, end);
    BatchesCount(vs, taxis, fetch);
    StampedShape(Batches(vs, taxis, fetch), "extracted_at", Instant(now));
  }

  /** When batches exist, the result has as many rows as all batches
      together and every row carries the same `extracted_at` value. */
  lemma MaterializedRows(start: DateTime, end: DateTime, taxis: seq<string>, fetch: string -> Download, now: DateTime)
    requires Valid(start) && Valid(end)
    requires Before(start, end) && |taxis| > 0
    ensures var out := Materialized(start, end, taxis, fetch, now);
      && out.rows == TotalRows(Batches(Visits(start, end), taxis, fetch))
      && "extracted_at" in out.columns
      && Column(out, "extracted_at") == Fill(Instant(now), out.rows)
  {
    var vs := Visits(start, end);
    VisitsStop(start, end);
    BatchesCount(vs, taxis, fetch);
    StampedShape(Batches(vs, taxis, fetch), "extracted_at", Instant(now));
  }

  /** Row `r` of batch `k` of the stamped batch list, for any visited
      cursors; `MaterializedRowOrder` specialises it to the walk. */
  lemma StampedBatchesKeep(vs: seq<DateTime>, taxis: seq<string>, fetch: string -> Download, now: DateTime,
                           k: nat, r: nat, c: string, x: Value)
    requires AllValid(vs)
    requires k < |Batches(vs, taxis, fetch)|
    requires r < Batches(vs, taxis, fetch)[k].rows
    requires c in Batches(vs, taxis, fetch)[k].columns && c != "extracted_at"
    requires Column(Batches(vs, taxis, fetch)[k], c)[r] == x
    ensures var bs := Batches(vs, taxis, fetch);
      var out := Stamped(bs, "extracted_at", Instant(now));
      && c in out.columns
      && TotalRows(bs[..k]) + r < out.rows
      && Column(out, c)[TotalRows(bs[..k]) + r] == x
  {
    StampedKeeps(Batches(vs, taxis, fetch), "extracted_at", Instant(now), c, k, r);
  }

  /** Rows keep batch-arrival order: row `r` of batch `k` is row
      `TotalRows(bs[..k]) + r` of the result, and whatever value that row
      holds in a column of the batch, the result holds there too. */
  lemma MaterializedRowOrder(start: DateTime, end: DateTime, taxis: seq<string>, fetch: string -> Download, now: DateTime,
                             k: nat, r: nat, c: string, x: Value)
    requires Valid(start) && Valid(end)
    requires k < |Batches(Visits(start, end), taxis, fetch)|
    requires r < Batches(Visits(start, end), taxis, fetch)[k].rows
    requires c in Batches(Visits(start, end), taxis, fetch)[k].columns && c != "extracted_at"
    requires Column(Batches(Visits(start, end), taxis, fetch)[k], c)[r] == x
    ensures var bs := Batches(Visits(start, end), taxis, fetch);
      var out := Materialized(start, end, taxis, fetch, now);
      && c in out.columns
      && TotalRows(bs[..k]) + r < out.rows
      && Column(out, c)[TotalRows(bs[..k]) + r] == x
  {
    StampedBatchesKeep(Visits(start, end), taxis, fetch, now, k, r, c, x);
  }

  /** A column that batch `k` lacks but another batch has is null on the
      rows that came from batch `k`. */
  lemma MaterializedMissingNull(start: DateTime, end: DateTime, taxis: seq<string>, fetch: string -> Download, now: DateTime,
                                k: nat, r: nat, c: string)
    requires Valid(start) && Valid(end)
    requires k < |Batches(Visits(start, end), taxis, fetch)|
    requires r < Batches(Visits(start, end), taxis, fetch)[k].rows
    requires c in Concatenated(Batches(Visits(start, end), taxis, fetch)).columns && c != "extracted_at"
    requires c !in Batches(Visits(start, end), taxis, fetch)[k].columns
    ensures var bs := Batches(Visits(start, end), taxis, fetch);
      var out := Materialized(start, end, taxis, fetch, now);
      && c in out.columns
      && TotalRows(bs[..k]) + r < out.rows
      && Column(out, c)[TotalRows(bs[..k]) + r] == Null
  {
    var bs := Batches(Visits(start, end), taxis, fetch);
    var out := Materialized(start, end, taxis, fetch, now);
    var p := TotalRows(bs[..k]) + r;
    assert c in out.columns && p < out.rows && Column(out, c)[p] == Null by {
      assert out == Stamped(bs, "extracted_at", Instant(now));
      StampedAt(bs, "extracted_at", Instant(now), c, k, r);
    }
  }

  /** Batch `k` is tagged with tag `k % |taxis|` on every row. */
  lemma BatchTagged(vs: seq<DateTime>, taxis: seq<string>, fetch: string -> Download, k: nat)
    requires AllValid(vs)
    requires k < |Batches(vs, taxis, fetch)|
    ensures |taxis| > 0
    ensures var b := Batches(vs, taxis, fetch)[k];
      "taxi_type" in b.columns && Column(b, "taxi_type") == Fill(Text(taxis[k % |taxis|]), b.rows)
  {
    BatchesCount(vs, taxis, fetch);
    DivModWithin(k, |taxis|, |vs|);
    var i, j := k / |taxis|, k % |taxis|;
    BatchAt(vs, taxis, fetch, i, j);
    var raw := fetch(TripUrl(taxis[j], vs[i].year, vs[i].month));
    LoadableNormalizable(taxis[j], raw);
    NormalizedTagsEveryRow(taxis[j], raw);
  }

  /** A position below `m * n` splits into a row `k / n` below `m` and a
      column `k % n`. */
  lemma DivModWithin(k: nat, n: nat, m: nat)
    requires k < m * n
    ensures n > 0 && k / n < m && k == (k / n) * n + k % n
  {
    if k / n >= m {
      MulAtMost(m, k / n, n);
    }
  }

  lemma MulAtMost(a: nat, b: nat, n: nat)
    requires a <= b
    ensures a * n <= b * n
  {
    if a < b {
      MulMonotone(a, b, n);
    }
  }

  /** Every row of the result that comes from row `r` of batch `k` carries
      that batch's tag, `taxis[k % |taxis|]`, in `taxi_type`. */
  lemma MaterializedTags(start: DateTime, end: DateTime, taxis: seq<string>, fetch: string -> Download, now: DateTime,
                         k: nat, r: nat)
    requires Valid(start) && Valid(end)
    requires k < |Batches(Visits(start, end), taxis, fetch)|
    requires r < Batches(Visits(start, end), taxis, fetch)[k].rows
    ensures |taxis| > 0
    ensures var bs := Batches(Visits(start, end), taxis, fetch);
      var out := Materialized(start, end, taxis, fetch, now);
      && "taxi_type" in out.columns
      && TotalRows(bs[..k]) + r < out.rows
      && Column(out, "taxi_type")[TotalRows(bs[..k]) + r] == Text(taxis[k % |taxis|])
  {
    var vs := Visits(start, end);
    BatchTagged(vs, taxis, fetch, k);
    var b := Batches(vs, taxis, fetch)[k];
    assert Column(b, "taxi_type")[r] == Text(taxis[k % |taxis|]);
    MaterializedRowOrder(start, end, taxis, fetch, now, k, r, "taxi_type", Text(taxis[k % |taxis|]));
  }
}
