/** Per-batch normalisation of one downloaded month of one taxi type: the
    `taxi_type` tag, the variant's rename table and the variant's backfill. */
module Normalization {
  import opened Frames

  /** Native yellow column names and their unified names. */
  const YellowRenames: Renames := map[
    "tpep_pickup_datetime" := "pickup_datetime",
    "tpep_dropoff_datetime" := "dropoff_datetime",
    "VendorID" := "vendor_id",
    "RatecodeID" := "ratecode_id",
    "PULocationID" := "pu_location_id",
    "DOLocationID" := "do_location_id",
    "passenger_count" := "passenger_count",
    "trip_distance" := "trip_distance",
    "payment_type" := "payment_type",
    "fare_amount" := "fare_amount",
    "extra" := "extra",
    "mta_tax" := "mta_tax",
    "tip_amount" := "tip_amount",
    "tolls_amount" := "tolls_amount",
    "improvement_surcharge" := "improvement_surcharge",
    "total_amount" := "total_amount",
    "congestion_surcharge" := "congestion_surcharge",
    "airport_fee" := "airport_fee"
  ]

  /** Native green column names and their unified names. */
  const GreenRenames: Renames := map[
    "lpep_pickup_datetime" := "pickup_datetime",
    "lpep_dropoff_datetime" := "dropoff_datetime",
    "VendorID" := "vendor_id",
    "RatecodeID" := "ratecode_id",
    "PULocationID" := "pu_location_id",
    "DOLocationID" := "do_location_id",
    "passenger_count" := "passenger_count",
    "trip_distance" := "trip_distance",
    "payment_type" := "payment_type",
    "fare_amount" := "fare_amount",
    "extra" := "extra",
    "mta_tax" := "mta_tax",
    "tip_amount" := "tip_amount",
    "tolls_amount" := "tolls_amount",
    "improvement_surcharge" := "improvement_surcharge",
    "total_amount" := "total_amount",
    "congestion_surcharge" := "congestion_surcharge",
    "trip_type" := "trip_type"
  ]

  /** The green backfill's rename of the legacy fee column. */
  const EhailToAirport: Renames := map["ehail_fee" := "airport_fee"]

  /** The rename table a tag selects; an unrecognised tag renames nothing. */
  function RenamesFor(taxi: string): Renames
  {
    if taxi == "yellow" then YellowRenames else if taxi == "green" then GreenRenames else map[]
  }

  /** `x` is neither renamed by `table` nor a target of it. */
  predicate Leaves(table: Renames, x: string)
  {
    !IsKey(table, x) && !IsTarget(table, x)
  }

  lemma TablesLeaveTag(taxi: string)
    ensures Leaves(RenamesFor(taxi), "taxi_type")
  {
  }

  lemma YellowLeavesTripType()
    ensures Leaves(YellowRenames, "trip_type")
  {
  }

  lemma GreenLeavesAirportFee()
    ensures Leaves(GreenRenames, "airport_fee")
  {
  }

  lemma GreenLeavesEhailFee()
    ensures Leaves(GreenRenames, "ehail_fee")
  {
  }

  /** A downloaded frame the normalisation can handle: well formed, and the
      tag's rename table maps no two of its columns to one name. */
  predicate Normalizable(taxi: string, t: Table)
  {
    WellFormed(t) && CollisionFree(RenamesFor(taxi), t.columns)
  }

  /** A downloaded frame that normalises under every tag: well formed, and
      neither variant's rename table maps two of its columns to one name. */
  predicate Loadable(t: Table)
  {
    WellFormed(t) && CollisionFree(YellowRenames, t.columns) && CollisionFree(GreenRenames, t.columns)
  }

  lemma LoadableNormalizable(taxi: string, t: Table)
    requires Loadable(t)
    ensures Normalizable(taxi, t)
  {
    if taxi != "yellow" && taxi != "green" {
      assert RenameColumns(map[], t.columns) == t.columns;
    }
  }

  /** Adding the `taxi_type` column does not make the rename collide. */
  lemma TaggedCollisionFree(taxi: string, t: Table)
    requires Normalizable(taxi, t)
    ensures CollisionFree(RenamesFor(taxi), Assigned(t, "taxi_type", Text(taxi)).columns)
  {
    var table := RenamesFor(taxi);
    TablesLeaveTag(taxi);
    if "taxi_type" !in t.columns {
      var before := RenameColumns(table, t.columns);
      var after := RenameColumns(table, t.columns + ["taxi_type"]);
      RenameNameOutcome(table, "taxi_type");
      assert after == before + ["taxi_type"];
      forall i | 0 <= i < |before|
        ensures before[i] != "taxi_type"
      {
        RenameNameOutcome(table, t.columns[i]);
      }
      DistinctSnoc(before, "taxi_type");
    }
  }

  /** Yellow backfill: `trip_type` becomes an all-null column when absent. */
  function YellowBackfilled(t: Table): (r: Table)
    requires WellFormed(t)
    ensures WellFormed(r) && r.rows == t.rows
  {
    if "trip_type" in t.columns then t else Assigned(t, "trip_type", Null)
  }

  /** Green backfill: an existing `airport_fee` is kept; otherwise
      `ehail_fee` is renamed to it; otherwise it is added as all nulls. */
  function GreenBackfilled(t: Table): (r: Table)
    requires WellFormed(t)
    ensures WellFormed(r) && r.rows == t.rows
  {
    if "airport_fee" in t.columns then t
    else if "ehail_fee" in t.columns then
      SingleRenameCollisionFree(t.columns, "ehail_fee", "airport_fee");
      Renamed(t, EhailToAirport)
    else Assigned(t, "airport_fee", Null)
  }

  /** One downloaded batch after the per-batch steps: tagged with
      `taxi_type`, then renamed and backfilled according to its tag. */
  function Normalized(taxi: string, t: Table): (r: Table)
    requires Normalizable(taxi, t)
    ensures WellFormed(r) && r.rows == t.rows
  {
    var tagged := Assigned(t, "taxi_type", Text(taxi));
    TaggedCollisionFree(taxi, t);
    if taxi == "yellow" then YellowBackfilled(Renamed(tagged, YellowRenames))
    else if taxi == "green" then GreenBackfilled(Renamed(tagged, GreenRenames))
    else tagged
  }

  /** Afterwards `trip_type` exists; its cells are the original ones when it
      existed and nulls otherwise; every other column is untouched. */
  lemma YellowBackfillSpec(t: Table)
    requires WellFormed(t)
    ensures var r := YellowBackfilled(t);
      && r.columns == (if "trip_type" in t.columns then t.columns else t.columns + ["trip_type"])
      && "trip_type" in r.columns
      && Column(r, "trip_type") == (if "trip_type" in t.columns then Column(t, "trip_type") else Fill(Null, t.rows))
      && (forall c :: c in t.columns ==> c in r.columns && Column(r, c) == Column(t, c))
  {
    AssignedColumns(t, "trip_type", Null);
  }

  /** Renaming `ehail_fee` to `airport_fee` changes that one label, where it
      stands. */
  lemma EhailRenamedColumns(t: Table)
    requires WellFormed(t) && "ehail_fee" in t.columns && "airport_fee" !in t.columns
    ensures CollisionFree(EhailToAirport, t.columns)
    ensures Renamed(t, EhailToAirport).columns == t.columns[IndexOf(t.columns, "ehail_fee") := "airport_fee"]
  {
    SingleRenameCollisionFree(t.columns, "ehail_fee", "airport_fee");
    var k := IndexOf(t.columns, "ehail_fee");
    var r := RenameColumns(EhailToAirport, t.columns);
    forall i | 0 <= i < |t.columns|
      ensures r[i] == t.columns[k := "airport_fee"][i]
    {
      if i != k {
        IndexOfDistinct(t.columns, i);
      }
    }
  }

  /** The three cases of the green backfill, and every column other than
      `ehail_fee` keeps its cells. */
  lemma GreenBackfillSpec(t: Table)
    requires WellFormed(t)
    ensures var r := GreenBackfilled(t);
      && ("airport_fee" in t.columns ==> r == t)
      && ("airport_fee" !in t.columns && "ehail_fee" in t.columns ==>
            && "airport_fee" in r.columns && "ehail_fee" !in r.columns
            && r.columns == t.columns[IndexOf(t.columns, "ehail_fee") := "airport_fee"]
            && IndexOf(r.columns, "airport_fee") == IndexOf(t.columns, "ehail_fee")
            && Column(r, "airport_fee") == Column(t, "ehail_fee"))
      && ("airport_fee" !in t.columns && "ehail_fee" !in t.columns ==>
            && r.columns == t.columns + ["airport_fee"]
            && Column(r, "airport_fee") == Fill(Null, t.rows))
      && (forall c :: c in t.columns && c != "ehail_fee" ==> c in r.columns && Column(r, c) == Column(t, c))
  {
    var r := GreenBackfilled(t);
    if "airport_fee" !in t.columns {
      if "ehail_fee" in t.columns {
        SingleRenameCollisionFree(t.columns, "ehail_fee", "airport_fee");
        EhailRenamedColumns(t);
        RenamedKeepsCells(t, EhailToAirport);
        RenamedAway(t, EhailToAirport, "ehail_fee");
        forall c | c in t.columns && c != "ehail_fee"
          ensures c in r.columns && Column(r, c) == Column(t, c)
        {
          assert RenameName(EhailToAirport, c) == c;
        }
      } else {
        AssignedColumns(t, "airport_fee", Null);
      }
    }
  }

  /** Whatever the tag, every row of the normalised batch carries it in
      `taxi_type`. */
  lemma NormalizedTagsEveryRow(taxi: string, t: Table)
    requires Normalizable(taxi, t)
    ensures var r := Normalized(taxi, t);
      "taxi_type" in r.columns && Column(r, "taxi_type") == Fill(Text(taxi), t.rows)
  {
    var tagged := Assigned(t, "taxi_type", Text(taxi));
    AssignedColumns(t, "taxi_type", Text(taxi));
    TaggedCollisionFree(taxi, t);
    TablesLeaveTag(taxi);
    if taxi == "yellow" {
      var renamed := Renamed(tagged, YellowRenames);
      RenamedUntouched(tagged, YellowRenames, "taxi_type");
      YellowBackfillSpec(renamed);
    } else if taxi == "green" {
      var renamed := Renamed(tagged, GreenRenames);
      RenamedUntouched(tagged, GreenRenames, "taxi_type");
      GreenBackfillSpec(renamed);
    }
  }

  /** An unrecognised tag only gains the `taxi_type` column: every other
      column keeps its name, position and cells. */
  lemma NormalizedUnknownTag(taxi: string, t: Table)
    requires Normalizable(taxi, t) && taxi != "yellow" && taxi != "green"
    ensures var r := Normalized(taxi, t);
      && r.columns == (if "taxi_type" in t.columns then t.columns else t.columns + ["taxi_type"])
      && (forall c :: c in t.columns && c != "taxi_type" ==> Column(r, c) == Column(t, c))
  {
    AssignedColumns(t, "taxi_type", Text(taxi));
  }

  /** Yellow, one native column: it is found under its unified name with
      its cells unchanged. */
  lemma NormalizedYellowColumn(t: Table, c: string)
    requires Normalizable("yellow", t) && c in t.columns && c != "taxi_type"
    ensures var r := Normalized("yellow", t);
      RenameName(YellowRenames, c) in r.columns && Column(r, RenameName(YellowRenames, c)) == Column(t, c)
  {
    var tagged := Assigned(t, "taxi_type", Text("yellow"));
    TaggedCollisionFree("yellow", t);
    var renamed := Renamed(tagged, YellowRenames);
    AssignedOther(t, "taxi_type", Text("yellow"), c);
    RenamedAt(tagged, YellowRenames, c);
    YellowBackfillSpec(renamed);
  }

  /** Yellow: `trip_type` holds the native cells, or nulls when the file
      has no such column. */
  lemma NormalizedYellowTripType(t: Table)
    requires Normalizable("yellow", t)
    ensures var r := Normalized("yellow", t);
      && "trip_type" in r.columns
      && ("trip_type" in t.columns ==> Column(r, "trip_type") == Column(t, "trip_type"))
      && ("trip_type" !in t.columns ==> Column(r, "trip_type") == Fill(Null, t.rows))
  {
    var tagged := Assigned(t, "taxi_type", Text("yellow"));
    TaggedCollisionFree("yellow", t);
    var renamed := Renamed(tagged, YellowRenames);
    AssignedOther(t, "taxi_type", Text("yellow"), "trip_type");
    YellowLeavesTripType();
    RenamedUntouched(tagged, YellowRenames, "trip_type");
    assert "trip_type" in renamed.columns <==> "trip_type" in t.columns;
    YellowBackfillSpec(renamed);
  }

  /** Yellow: every native column is found under its unified name with its
      cells unchanged, and `trip_type` holds the native cells or nulls. */
  lemma NormalizedYellow(t: Table)
    requires Normalizable("yellow", t)
    ensures var r := Normalized("yellow", t);
      && (forall c :: c in t.columns && c != "taxi_type" ==>
            RenameName(YellowRenames, c) in r.columns
            && Column(r, RenameName(YellowRenames, c)) == Column(t, c))
      && "trip_type" in r.columns
      && ("trip_type" in t.columns ==> Column(r, "trip_type") == Column(t, "trip_type"))
      && ("trip_type" !in t.columns ==> Column(r, "trip_type") == Fill(Null, t.rows))
  {
    forall c | c in t.columns && c != "taxi_type"
      ensures RenameName(YellowRenames, c) in Normalized("yellow", t).columns
      ensures Column(Normalized("yellow", t), RenameName(YellowRenames, c)) == Column(t, c)
    {
      NormalizedYellowColumn(t, c);
    }
    NormalizedYellowTripType(t);
  }

  /** Green: every native column other than the fee columns is found under
      its unified name with its cells unchanged, and `airport_fee` holds the
      native `airport_fee` cells, else the `ehail_fee` cells (which then no
      longer exist under their old name), else nulls. */
  lemma NormalizedGreen(t: Table)
    requires Normalizable("green", t)
    ensures var r := Normalized("green", t);
      && (forall c :: c in t.columns && c != "taxi_type" && c != "ehail_fee" ==>
            RenameName(GreenRenames, c) in r.columns
            && Column(r, RenameName(GreenRenames, c)) == Column(t, c))
      && "airport_fee" in r.columns
      && Column(r, "airport_fee") ==
           (if "airport_fee" in t.columns then Column(t, "airport_fee")
            else if "ehail_fee" in t.columns then Column(t, "ehail_fee")
            else Fill(Null, t.rows))
      && ("ehail_fee" in r.columns <==> "ehail_fee" in t.columns && "airport_fee" in t.columns)
      && ("ehail_fee" in t.columns && "airport_fee" in t.columns ==> Column(r, "ehail_fee") == Column(t, "ehail_fee"))
  {
    var tagged := Assigned(t, "taxi_type", Text("green"));
    TaggedCollisionFree("green", t);
    var renamed := Renamed(tagged, GreenRenames);
    GreenLeavesAirportFee();
    GreenLeavesEhailFee();
    forall c | c in t.columns && c != "taxi_type" && c != "ehail_fee"
      ensures RenameName(GreenRenames, c) in Normalized("green", t).columns
      ensures Column(Normalized("green", t), RenameName(GreenRenames, c)) == Column(t, c)
    {
      AssignedOther(t, "taxi_type", Text("green"), c);
      RenamedAt(tagged, GreenRenames, c);
      RenameNameOutcome(GreenRenames, c);
      GreenBackfillSpec(renamed);
    }
    AssignedOther(t, "taxi_type", Text("green"), "airport_fee");
    AssignedOther(t, "taxi_type", Text("green"), "ehail_fee");
    AssignedColumns(t, "taxi_type", Text("green"));
    RenamedUntouched(tagged, GreenRenames, "airport_fee");
    RenamedUntouched(tagged, GreenRenames, "ehail_fee");
    GreenBackfillSpec(renamed);
  }

  /** Yellow, the whole column list: the tagged columns under their unified
      names, in their order, then `trip_type` when the file had none. */
  lemma NormalizedYellowColumns(t: Table)
    requires Normalizable("yellow", t)
    ensures var tagged := if "taxi_type" in t.columns then t.columns else t.columns + ["taxi_type"];
      Normalized("yellow", t).columns
        == RenameColumns(YellowRenames, tagged) + (if "trip_type" in t.columns then [] else ["trip_type"])
  {
    var tagged := Assigned(t, "taxi_type", Text("yellow"));
    AssignedColumns(t, "taxi_type", Text("yellow"));
    TaggedCollisionFree("yellow", t);
    var renamed := Renamed(tagged, YellowRenames);
    AssignedOther(t, "taxi_type", Text("yellow"), "trip_type");
    YellowLeavesTripType();
    RenamedUntouched(tagged, YellowRenames, "trip_type");
    YellowBackfillSpec(renamed);
  }

  /** Green, the whole column list: the tagged columns under their unified
      names, in their order; then `airport_fee` is kept, or takes the place
      of `ehail_fee`, or is appended. */
  lemma NormalizedGreenColumns(t: Table)
    requires Normalizable("green", t)
    ensures var tagged := if "taxi_type" in t.columns then t.columns else t.columns + ["taxi_type"];
      var renamed := RenameColumns(GreenRenames, tagged);
      Normalized("green", t).columns
        == if "airport_fee" in t.columns then renamed
           else if "ehail_fee" in t.columns then renamed[IndexOf(t.columns, "ehail_fee") := "airport_fee"]
           else renamed + ["airport_fee"]
  {
    var tagged := Assigned(t, "taxi_type", Text("green"));
    AssignedColumns(t, "taxi_type", Text("green"));
    TaggedCollisionFree("green", t);
    var renamed := Renamed(tagged, GreenRenames);
    AssignedOther(t, "taxi_type", Text("green"), "airport_fee");
    AssignedOther(t, "taxi_type", Text("green"), "ehail_fee");
    GreenLeavesAirportFee();
    GreenLeavesEhailFee();
    RenamedUntouched(tagged, GreenRenames, "airport_fee");
    RenamedUntouched(tagged, GreenRenames, "ehail_fee");
    GreenBackfillSpec(renamed);
  }

  /** The same steps on a frame changed in place. */
  method NormalizeBatch(df: Frame, taxi: string)
    requires df.Valid() && Normalizable(taxi, df.Snapshot())
    modifies df
    ensures df.Valid() && df.Snapshot() == Normalized(taxi, old(df.Snapshot()))
  {
    TaggedCollisionFree(taxi, df.Snapshot());
    df.Assign("taxi_type", Text(taxi));
    if taxi == "yellow" {
      df.Rename(YellowRenames);
      if "trip_type" !in df.columns {
        df.Assign("trip_type", Null);
      }
    } else if taxi == "green" {
      df.Rename(GreenRenames);
      if "airport_fee" !in df.columns {
        if "ehail_fee" in df.columns {
          SingleRenameCollisionFree(df.columns, "ehail_fee", "airport_fee");
          df.Rename(EhailToAirport);
        } else {
          df.Assign("airport_fee", Null);
        }
      }
    }
  }
}
