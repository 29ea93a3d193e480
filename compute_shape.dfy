/**
 * Post-processing of zonal statistics: `StatsCounter` in compute_shape.py.
 *
 * The external zonal-statistics primitive is a parameter `zonal` that gives,
 * for each value of its `all_touched` flag, the features it returns: each
 * feature carries the shape's attribute table and the computed mean.
 * The generator `process` is modelled by a `Run`: the records it yields before
 * it stops, and the exception it stops with, if any.
 */
module ComputeShape {
  import opened Wrappers

  /** The rasterization strategies of the constants module. */
  datatype RasterizationStrategy = Default | AllTouched | Combined | Downscale

  /** The geographies of the constants module. */
  datatype Geography = Zip | County | Custom

  /** One feature of the primitive's output: its `properties` without `mean`, and `mean`. */
  datatype Feature = Feature(properties: map<string, string>, mean: Option<real>)

  /** The dataclass `Record`: an aggregated mean (or `None`) and the shape's identifier. */
  datatype Record = Record(mean: Option<real>, prop: string)

  /** The exceptions `process` can raise. */
  datatype Error =
    | UnsupportedGeography(geography: Geography)  // ValueError
    | UnknownShapeFormat(candidates: seq<string>)   // ValueError
    | MissingField(field: string)                   // KeyError on a key sub-field
    | MissingFeature(index: nat)                    // IndexError on the all-touched pass
    | KeyMismatch(prop1: string, prop2: string)     // AssertionError `prop1 == prop2`
    | MeanWithoutAllTouched(m1: real)               // AssertionError "m1 && !m2"
    | RecordNotIterable                             // TypeError unpacking a `Record` into `mean, prop`

  /**
   * How the combined branch takes `_combine`'s result. As written, it unpacks
   * the returned `Record` into `mean, prop`. A dataclass instance is not
   * iterable, so that raises TypeError. As intended, the record is yielded.
   */
  datatype Unpacking = AsWritten | Intended

  /** What the generator produces: the records yielded, then the exception, if any. */
  datatype Run = Run(records: seq<Record>, failure: Option<Error>)

  const ZipCandidates: seq<string> := ["ZIP", "ZCTA5", "ZCTA5CE10", "ZCTA5CE20"]
  const CountyCandidates: seq<string> := ["COUNTY", "COUNTYFP"]
  const StateCandidates: seq<string> := ["STATE", "STATEFP"]

  // ---------------------------------------------------------------------------
  // Pass selection
  // ---------------------------------------------------------------------------

  /** The `all_touched` flags of the primitive calls a strategy makes, in call order. */
  function Passes(strategy: RasterizationStrategy): (flags: seq<bool>)
    ensures 1 <= |flags| <= 2
    ensures flags[0] <==> strategy == AllTouched
    ensures |flags| == 2 <==> strategy == Combined
    ensures |flags| == 2 ==> flags[1]
  {
    assert strategy.Default? || strategy.AllTouched? || strategy.Combined? || strategy.Downscale?;
    (if strategy in {Default, Combined, Downscale} then [false] else [])
    + (if strategy in {AllTouched, Combined} then [true] else [])
  }

  /** The list `stats`: the primitive's result for each pass, in call order. */
  function PassResults(strategy: RasterizationStrategy, zonal: bool -> seq<Feature>): seq<seq<Feature>>
  {
    var flags := Passes(strategy);
    seq(|flags|, k requires 0 <= k < |flags| => zonal(flags[k]))
  }

  // ---------------------------------------------------------------------------
  // Key resolution
  // ---------------------------------------------------------------------------

  /** The index of the first candidate present among the properties. */
  function FirstPresent(properties: map<string, string>, candidates: seq<string>): (k: Option<nat>)
    ensures k.Some? ==> k.value < |candidates| && candidates[k.value] in properties
    ensures k.Some? ==> forall j :: 0 <= j < k.value ==> candidates[j] !in properties
    ensures k.None? ==> forall j :: 0 <= j < |candidates| ==> candidates[j] !in properties
  {
    if |candidates| == 0 then None
    else if candidates[0] in properties then Some(0)
    else match FirstPresent(properties, candidates[1..])
      case None => None
      case Some(k) => Some(k + 1)
  }

  /** `_determine_key`: the first candidate present in the row's properties, or "Unknown shape format". */
  function DetermineKey(properties: map<string, string>, candidates: seq<string>): (r: Result<string, Error>)
    ensures r.Success? <==> exists j :: 0 <= j < |candidates| && candidates[j] in properties
    ensures r.Success? ==> r.value in properties
    ensures r.Success? ==> exists k :: 0 <= k < |candidates| && candidates[k] == r.value &&
                                   forall j :: 0 <= j < k ==> candidates[j] !in properties
    ensures r.Failure? ==> r.error == UnknownShapeFormat(candidates)
  {
    match FirstPresent(properties, candidates)
    case Some(k) => Success(candidates[k])
    case None => Failure(UnknownShapeFormat(candidates))
  }

  /** `_determine_zip_key`: a key of arity one, the first zip candidate present. */
  function ZipKey(properties: map<string, string>): (r: Result<seq<string>, Error>)
    ensures r.Success? <==> "ZIP" in properties || "ZCTA5" in properties ||
                            "ZCTA5CE10" in properties || "ZCTA5CE20" in properties
    ensures r.Success? ==> r.value == [if "ZIP" in properties then "ZIP"
                                       else if "ZCTA5" in properties then "ZCTA5"
                                       else if "ZCTA5CE10" in properties then "ZCTA5CE10"
                                       else "ZCTA5CE20"]
    ensures r.Failure? ==> r.error == UnknownShapeFormat(ZipCandidates)
  {
    assert ZipCandidates[0] == "ZIP" && ZipCandidates[1] == "ZCTA5";
    assert ZipCandidates[2] == "ZCTA5CE10" && ZipCandidates[3] == "ZCTA5CE20";
    match DetermineKey(properties, ZipCandidates)
    case Success(k) => Success([k])
    case Failure(e) => Failure(e)
  }

  /** `_determine_county_key`: the key `(state, county)`, each field resolved on its own, county first. */
  function CountyKey(properties: map<string, string>): (r: Result<seq<string>, Error>)
    ensures r.Success? <==> ("STATE" in properties || "STATEFP" in properties) &&
                            ("COUNTY" in properties || "COUNTYFP" in properties)
    ensures r.Success? ==> r.value == [if "STATE" in properties then "STATE" else "STATEFP",
                                       if "COUNTY" in properties then "COUNTY" else "COUNTYFP"]
    ensures r.Failure? ==> r.error == if "COUNTY" in properties || "COUNTYFP" in properties
                                      then UnknownShapeFormat(StateCandidates)
                                      else UnknownShapeFormat(CountyCandidates)
  {
    assert CountyCandidates[0] == "COUNTY" && CountyCandidates[1] == "COUNTYFP";
    assert StateCandidates[0] == "STATE" && StateCandidates[1] == "STATEFP";
    match DetermineKey(properties, CountyCandidates)
    case Failure(e) => Failure(e)
    case Success(c) =>
      match DetermineKey(properties, StateCandidates)
      case Failure(e) => Failure(e)
      case Success(s) => Success([s, c])
  }

  /** The geography dispatch of `process`: zip, county, or "Unsupported geography". */
  function ResolveKey(geography: Geography, properties: map<string, string>): (r: Result<seq<string>, Error>)
    ensures geography == Zip ==> r == ZipKey(properties)
    ensures geography == County ==> r == CountyKey(properties)
    ensures geography == Custom ==> r == Failure(UnsupportedGeography(Custom))
    ensures r.Success? ==> |r.value| == (if geography == Zip then 1 else 2)
    ensures r.Success? ==> forall j :: 0 <= j < |r.value| ==> r.value[j] in properties
  {
    match geography
    case Zip => ZipKey(properties)
    case County => CountyKey(properties)
    case Custom => Failure(UnsupportedGeography(Custom))
  }

  // ---------------------------------------------------------------------------
  // Per-shape records
  // ---------------------------------------------------------------------------

  /** `"".join(properties[subkey] for subkey in key)`, with the KeyError of the first missing sub-field. */
  function JoinFields(properties: map<string, string>, key: seq<string>): (r: Result<string, Error>)
    ensures r.Success? <==> forall j :: 0 <= j < |key| ==> key[j] in properties
    ensures r.Failure? ==> exists j :: 0 <= j < |key| && key[j] !in properties &&
                                   r.error == MissingField(key[j]) &&
                                   forall i :: 0 <= i < j ==> key[i] in properties
    ensures r.Success? && |key| == 1 ==> r.value == properties[key[0]]
    ensures r.Success? && |key| == 2 ==> r.value == properties[key[0]] + properties[key[1]]
  {
    if |key| == 0 then Success("")
    else if key[0] !in properties then Failure(MissingField(key[0]))
    else match JoinFields(properties, key[1..])
      case Failure(e) => Failure(e)
      case Success(rest) => Success(properties[key[0]] + rest)
  }

  /** Python truthiness of an optional mean: `None` and `0` are both false. */
  predicate Truthy(m: Option<real>) {
    m.Some? && m.value != 0.0
  }

  /** The mean rule of `_combine`, from the cell-center mean `m1` and the all-touched mean `m2`. */
  function CombineMean(m1: Option<real>, m2: Option<real>): (r: Result<Option<real>, Error>)
    ensures r.Failure? <==> Truthy(m1) && !Truthy(m2)
    ensures r.Failure? ==> r.error == MeanWithoutAllTouched(m1.value)
    ensures r.Success? && r.value.Some? <==> Truthy(m2)
    ensures Truthy(m1) && Truthy(m2) ==>
              r.value.value * 2.0 == m1.value + m2.value &&
              (m1.value <= r.value.value <= m2.value || m2.value <= r.value.value <= m1.value)
    ensures !Truthy(m1) && Truthy(m2) ==> r == Success(m2)
  {
    if Truthy(m1) && Truthy(m2) then Success(Some((m1.value + m2.value) / 2.0))
    else if Truthy(m2) then Success(m2)
    else if Truthy(m1) then Failure(MeanWithoutAllTouched(m1.value))
    else Success(None)
  }

  /** `_combine`: the record of one shape from its cell-center and all-touched features. */
  function Combine(key: seq<string>, r1: Feature, r2: Feature): (r: Result<Record, Error>)
    ensures JoinFields(r1.properties, key).Failure? ==> r == Failure(JoinFields(r1.properties, key).error)
    ensures JoinFields(r1.properties, key).Success? && JoinFields(r2.properties, key).Failure? ==>
              r == Failure(JoinFields(r2.properties, key).error)
    ensures JoinFields(r1.properties, key).Success? && JoinFields(r1.properties, key) == JoinFields(r2.properties, key) &&
            CombineMean(r1.mean, r2.mean).Failure? ==>
              r == Failure(CombineMean(r1.mean, r2.mean).error)
    ensures r.Success? ==> Success(r.value.prop) == JoinFields(r1.properties, key)
    ensures r.Success? ==> Success(r.value.prop) == JoinFields(r2.properties, key)
    ensures r.Success? ==> Success(r.value.mean) == CombineMean(r1.mean, r2.mean)
    ensures JoinFields(r1.properties, key).Success? && JoinFields(r2.properties, key).Success? ==>
              (r.Success? <==> JoinFields(r1.properties, key) == JoinFields(r2.properties, key) &&
                               CombineMean(r1.mean, r2.mean).Success?)
    ensures JoinFields(r1.properties, key).Success? && JoinFields(r2.properties, key).Success? &&
            JoinFields(r1.properties, key) != JoinFields(r2.properties, key) ==>
              r == Failure(KeyMismatch(JoinFields(r1.properties, key).value, JoinFields(r2.properties, key).value))
  {
    match JoinFields(r1.properties, key)
    case Failure(e) => Failure(e)
    case Success(prop1) =>
      match JoinFields(r2.properties, key)
      case Failure(e) => Failure(e)
      case Success(prop2) =>
        if prop1 != prop2 then Failure(KeyMismatch(prop1, prop2))
        else match CombineMean(r1.mean, r2.mean)
          case Failure(e) => Failure(e)
          case Success(mean) => Success(Record(mean, prop1))
  }

  /** The record `process` yields for shape `i`, or the exception it raises there. */
  function RecordAt(u: Unpacking, key: seq<string>, stats: seq<seq<Feature>>, i: nat): (r: Result<Record, Error>)
    requires 1 <= |stats| <= 2 && i < |stats[0]|
    ensures r.Success? ==> JoinFields(stats[0][i].properties, key) == Success(r.value.prop)
    ensures |stats| == 1 ==> (r.Success? <==> JoinFields(stats[0][i].properties, key).Success?)
    ensures |stats| == 1 && r.Success? ==> r.value.mean == stats[0][i].mean
    ensures |stats| == 2 && u == AsWritten ==> r.Failure?
    ensures |stats| == 2 && i < |stats[1]| && Combine(key, stats[0][i], stats[1][i]).Success? ==>
              r == (if u == AsWritten then Failure(RecordNotIterable) else Combine(key, stats[0][i], stats[1][i]))
  {
    if |stats| == 2 then
      if i < |stats[1]| then
        match Combine(key, stats[0][i], stats[1][i])
        case Failure(e) => Failure(e)
        case Success(record) => if u == AsWritten then Failure(RecordNotIterable) else Success(record)
      else Failure(MissingFeature(i))
    else
      match JoinFields(stats[0][i].properties, key)
      case Failure(e) => Failure(e)
      case Success(prop) => Success(Record(stats[0][i].mean, prop))
  }

  function Prepend(prefix: seq<Record>, run: Run): Run {
    Run(prefix + run.records, run.failure)
  }

  lemma PrependTwice(a: seq<Record>, b: seq<Record>, run: Run)
    ensures Prepend(a + b, run) == Prepend(a, Prepend(b, run))
  {
    assert (a + b) + run.records == a + (b + run.records);
  }

  /** The loop of `process` from shape `i` on: records up to the first exception. */
  function Emit(u: Unpacking, key: seq<string>, stats: seq<seq<Feature>>, i: nat): (run: Run)
    requires 1 <= |stats| <= 2 && i <= |stats[0]|
    decreases |stats[0]| - i
    ensures i + |run.records| <= |stats[0]|
    ensures run.failure.None? ==> i + |run.records| == |stats[0]|
    ensures forall k :: 0 <= k < |run.records| ==> RecordAt(u, key, stats, i + k) == Success(run.records[k])
    ensures run.failure.Some? ==>
              i + |run.records| < |stats[0]| &&
              RecordAt(u, key, stats, i + |run.records|) == Failure(run.failure.value)
  {
    if i == |stats[0]| then Run([], None)
    else match RecordAt(u, key, stats, i)
      case Failure(e) => Run([], Some(e))
      case Success(record) => Prepend([record], Emit(u, key, stats, i + 1))
  }

  /** One step of `Emit`: the record at `i` is prepended, or its exception ends the run. */
  lemma EmitStep(u: Unpacking, key: seq<string>, stats: seq<seq<Feature>>, i: nat)
    requires 1 <= |stats| <= 2 && i < |stats[0]|
    ensures RecordAt(u, key, stats, i).Failure? ==> Emit(u, key, stats, i) == Run([], Some(RecordAt(u, key, stats, i).error))
    ensures RecordAt(u, key, stats, i).Success? ==>
              Emit(u, key, stats, i) == Prepend([RecordAt(u, key, stats, i).value], Emit(u, key, stats, i + 1))
  {
  }

  /** What `process` yields and raises, as a function of its inputs and of the reading of the combined branch. */
  function Aggregate(u: Unpacking, strategy: RasterizationStrategy, geography: Geography, zonal: bool -> seq<Feature>): (run: Run)
    ensures zonal(Passes(strategy)[0]) == [] ==> run == Run([], None)
    ensures zonal(Passes(strategy)[0]) != [] && geography == Custom ==>
              run == Run([], Some(UnsupportedGeography(Custom)))
    ensures zonal(Passes(strategy)[0]) != [] && ResolveKey(geography, zonal(Passes(strategy)[0])[0].properties).Failure? ==>
              run == Run([], Some(ResolveKey(geography, zonal(Passes(strategy)[0])[0].properties).error))
    ensures |run.records| <= |zonal(Passes(strategy)[0])|
    ensures run.failure.None? ==> |run.records| == |zonal(Passes(strategy)[0])|
  {
    var stats := PassResults(strategy, zonal);
    if |stats[0]| == 0 then Run([], None)
    else match ResolveKey(geography, stats[0][0].properties)
      case Failure(e) => Run([], Some(e))
      case Success(key) => Emit(u, key, stats, 0)
  }

  /** `StatsCounter.process`: runs the passes of the strategy, resolves the key and yields the records. */
  method Process(strategy: RasterizationStrategy, geography: Geography, zonal: bool -> seq<Feature>)
    returns (records: seq<Record>, failure: Option<Error>)
    ensures Run(records, failure) == Aggregate(AsWritten, strategy, geography, zonal)
  {
    var stats: seq<seq<Feature>> := [];
    if strategy in {Default, Combined, Downscale} {
      stats := stats + [zonal(false)];
    }
    if strategy in {AllTouched, Combined} {
      stats := stats + [zonal(true)];
    }
    assert stats == PassResults(strategy, zonal);
    if |stats[0]| == 0 {
      return [], None;
    }
    var row := stats[0][0];
    match ResolveKey(geography, row.properties) {
      case Failure(e) =>
        return [], Some(e);
      case Success(key) =>
        records, failure := YieldRecords(key, stats);
    }
  }

  /** The body of the loop of `process` for shape `i`: the record it yields or the exception it raises. */
  method NextRecord(key: seq<string>, stats: seq<seq<Feature>>, i: nat) returns (r: Result<Record, Error>)
    requires 1 <= |stats| <= 2 && i < |stats[0]|
    ensures r == RecordAt(AsWritten, key, stats, i)
  {
    if |stats| == 2 {
      if i >= |stats[1]| {
        // `stats[1][i]` raises IndexError
        return Failure(MissingFeature(i));
      }
      var combined := Combine(key, stats[0][i], stats[1][i]);
      if combined.Failure? {
        return Failure(combined.error);
      }
      // `mean, prop = <Record>`: a dataclass instance cannot be unpacked
      r := Failure(RecordNotIterable);
    } else {
      var mean := stats[0][i].mean;
      var prop := JoinFields(stats[0][i].properties, key);
      if prop.Failure? {
        return Failure(prop.error);
      }
      r := Success(Record(mean, prop.value));
    }
  }

  /** The loop of `process` over the shapes, in the primitive's order, up to the first exception. */
  method YieldRecords(key: seq<string>, stats: seq<seq<Feature>>) returns (records: seq<Record>, failure: Option<Error>)
    requires 1 <= |stats| <= 2
    ensures Run(records, failure) == Emit(AsWritten, key, stats, 0)
  {
    records, failure := [], None;
    assert [] + Emit(AsWritten, key, stats, 0).records == Emit(AsWritten, key, stats, 0).records;
    var i := 0;
    while i < |stats[0]|
      invariant 0 <= i <= |stats[0]|
      invariant Prepend(records, Emit(AsWritten, key, stats, i)) == Emit(AsWritten, key, stats, 0)
    {
      var next := NextRecord(key, stats, i);
      EmitStep(AsWritten, key, stats, i);
      if next.Failure? {
        failure := Some(next.error);
        return;
      }
      ghost var rest := Emit(AsWritten, key, stats, i + 1);
      PrependTwice(records, [next.value], rest);
      records := records + [next.value];
      i := i + 1;
    }
  }
}

/** Properties of the aggregation that relate several calls or the whole run. */
module ComputeShapeProperties {
  import opened Wrappers
  import opened ComputeShape

  /** Joining the fields of two consecutive key parts joins their texts, in key order, without separator. */
  lemma {:induction false} JoinFieldsConcat(properties: map<string, string>, a: seq<string>, b: seq<string>)
    requires JoinFields(properties, a).Success? && JoinFields(properties, b).Success?
    ensures JoinFields(properties, a + b) ==
            Success(JoinFields(properties, a).value + JoinFields(properties, b).value)
  {
    if |a| > 0 {
      assert (a + b)[1..] == a[1..] + b;
      JoinFieldsConcat(properties, a[1..], b);
      var head, tail, rest := properties[a[0]], JoinFields(properties, a[1..]).value, JoinFields(properties, b).value;
      assert JoinFields(properties, a).value == head + tail;
      assert JoinFields(properties, a + b).value == head + (tail + rest);
      assert head + (tail + rest) == (head + tail) + rest;
    } else {
      assert a + b == b;
      assert "" + JoinFields(properties, b).value == JoinFields(properties, b).value;
    }
  }

  /** A single-pass strategy yields one record per feature of its one pass: the feature's mean, unchanged, and its joined key. */
  lemma SinglePassRecords(strategy: RasterizationStrategy, geography: Geography, zonal: bool -> seq<Feature>, key: seq<string>)
    requires strategy != Combined
    requires zonal(strategy == AllTouched) != []
    requires ResolveKey(geography, zonal(strategy == AllTouched)[0].properties) == Success(key)
    ensures var run := Aggregate(AsWritten, strategy, geography, zonal);
            var features := zonal(strategy == AllTouched);
            (forall i :: 0 <= i < |run.records| ==>
               run.records[i].mean == features[i].mean &&
               JoinFields(features[i].properties, key) == Success(run.records[i].prop)) &&
            (run.failure.None? <==> forall i :: 0 <= i < |features| ==> JoinFields(features[i].properties, key).Success?) &&
            (run.failure.Some? ==> JoinFields(features[|run.records|].properties, key) == Failure(run.failure.value))
  {
    var features := zonal(strategy == AllTouched);
    var stats := PassResults(strategy, zonal);
    assert stats == [features];
    var run := Aggregate(AsWritten, strategy, geography, zonal);
    assert run == Emit(AsWritten, key, stats, 0);
    forall i | 0 <= i < |run.records|
      ensures run.records[i].mean == features[i].mean
      ensures JoinFields(features[i].properties, key) == Success(run.records[i].prop)
    {
      assert RecordAt(AsWritten, key, stats, 0 + i) == Success(run.records[i]);
    }
    if run.failure.Some? {
      assert RecordAt(AsWritten, key, stats, 0 + |run.records|) == Failure(run.failure.value);
    }
  }

  /** With one pass, the combined branch is never taken, so both readings of it run alike. */
  lemma {:induction false} SinglePassEmitReadingsAgree(key: seq<string>, features: seq<Feature>, i: nat)
    requires i <= |features|
    ensures Emit(AsWritten, key, [features], i) == Emit(Intended, key, [features], i)
    decreases |features| - i
  {
    if i < |features| {
      assert RecordAt(AsWritten, key, [features], i) == RecordAt(Intended, key, [features], i);
      SinglePassEmitReadingsAgree(key, features, i + 1);
    }
  }

  /** The strategies `default`, `all_touched` and `downscale` behave the same under both readings of the combined branch. */
  lemma SinglePassReadingsAgree(strategy: RasterizationStrategy, geography: Geography, zonal: bool -> seq<Feature>)
    requires strategy != Combined
    ensures Aggregate(AsWritten, strategy, geography, zonal) == Aggregate(Intended, strategy, geography, zonal)
  {
    var features := zonal(strategy == AllTouched);
    assert PassResults(strategy, zonal) == [features];
    if features != [] {
      match ResolveKey(geography, features[0].properties)
      case Failure(_) =>
      case Success(key) => SinglePassEmitReadingsAgree(key, features, 0);
    }
  }

  /**
   * As written, the combined strategy never yields a record. It raises at the
   * first shape: `_combine`'s exception, the IndexError of an empty all-touched
   * pass, or the TypeError of unpacking the record `_combine` returns.
   */
  lemma CombinedAsWrittenYieldsNothing(geography: Geography, zonal: bool -> seq<Feature>)
    requires zonal(false) != []
    ensures var run := Aggregate(AsWritten, Combined, geography, zonal);
            run.records == [] && run.failure.Some?
    ensures var key := ResolveKey(geography, zonal(false)[0].properties);
            key.Success? && zonal(true) != [] && Combine(key.value, zonal(false)[0], zonal(true)[0]).Success? ==>
              Aggregate(AsWritten, Combined, geography, zonal) == Run([], Some(RecordNotIterable))
  {
    var stats := PassResults(Combined, zonal);
    assert stats == [zonal(false), zonal(true)];
    match ResolveKey(geography, zonal(false)[0].properties)
    case Failure(_) =>
    case Success(key) =>
      EmitStep(AsWritten, key, stats, 0);
  }

  /** One ZIP shape with mean 1 in both passes: as written `combined` raises TypeError, as intended it yields the shape's record. */
  lemma CombinedUnpackCounterexample()
    ensures var zonal := (allTouched: bool) => [Feature(map["ZIP" := "02138"], Some(1.0))];
            Aggregate(AsWritten, Combined, Zip, zonal) == Run([], Some(RecordNotIterable)) &&
            Aggregate(Intended, Combined, Zip, zonal) == Run([Record(Some(1.0), "02138")], None) &&
            Aggregate(AsWritten, Default, Zip, zonal) == Run([Record(Some(1.0), "02138")], None)
  {
    var zonal := (allTouched: bool) => [Feature(map["ZIP" := "02138"], Some(1.0))];
    assert ZipKey(map["ZIP" := "02138"]) == Success(["ZIP"]);
    assert PassResults(Default, zonal) == [zonal(false)];
    assert PassResults(Combined, zonal) == [zonal(false), zonal(true)];
  }

  /** As intended, the combined strategy yields, shape by shape, what `_combine` makes of the two passes' features at the same index. */
  lemma CombinedRecords(geography: Geography, zonal: bool -> seq<Feature>, key: seq<string>)
    requires zonal(false) != []
    requires ResolveKey(geography, zonal(false)[0].properties) == Success(key)
    ensures var run := Aggregate(Intended, Combined, geography, zonal);
            |run.records| <= |zonal(true)| &&
            forall i :: 0 <= i < |run.records| ==>
              Combine(key, zonal(false)[i], zonal(true)[i]) == Success(run.records[i])
  {
    var stats := PassResults(Combined, zonal);
    assert stats == [zonal(false), zonal(true)];
    var run := Aggregate(Intended, Combined, geography, zonal);
    assert run == Emit(Intended, key, stats, 0);
    forall i | 0 <= i < |run.records|
      ensures i < |zonal(true)|
      ensures Combine(key, zonal(false)[i], zonal(true)[i]) == Success(run.records[i])
    {
      assert RecordAt(Intended, key, stats, 0 + i) == Success(run.records[i]);
      assert stats[0] == zonal(false) && stats[1] == zonal(true);
    }
    if |run.records| > 0 {
      var last := |run.records| - 1;
      assert RecordAt(Intended, key, stats, 0 + last) == Success(run.records[last]);
    }
  }

  /** As intended, the combined strategy stops at the first shape where `_combine` fails or the all-touched pass has no feature. */
  lemma CombinedFailure(geography: Geography, zonal: bool -> seq<Feature>, key: seq<string>)
    requires zonal(false) != []
    requires ResolveKey(geography, zonal(false)[0].properties) == Success(key)
    requires Aggregate(Intended, Combined, geography, zonal).failure.Some?
    ensures var n := |Aggregate(Intended, Combined, geography, zonal).records|;
            var e := Aggregate(Intended, Combined, geography, zonal).failure.value;
            n < |zonal(false)| &&
            (n < |zonal(true)| ==> Combine(key, zonal(false)[n], zonal(true)[n]) == Failure(e)) &&
            (n >= |zonal(true)| ==> e == MissingFeature(n))
  {
    var stats := PassResults(Combined, zonal);
    assert stats == [zonal(false), zonal(true)];
    var run := Aggregate(Intended, Combined, geography, zonal);
    assert run == Emit(Intended, key, stats, 0);
    var n := |run.records|;
    assert RecordAt(Intended, key, stats, 0 + n) == Failure(run.failure.value);
  }

  /** Averaging a mean with itself leaves it unchanged, unless it is 0, which counts as absent. */
  lemma CombineMeanSelf(m: Option<real>)
    ensures CombineMean(m, m) == if m == Some(0.0) then Success(None) else Success(m)
  {
  }

  /** Cell-center and all-touched passes that agree at every index: combining them, as intended, equals the single pass. */
  lemma {:induction false} EmitSelf(key: seq<string>, features: seq<Feature>, i: nat)
    requires i <= |features|
    requires forall j :: 0 <= j < |features| ==> features[j].mean != Some(0.0)
    ensures Emit(Intended, key, [features, features], i) == Emit(Intended, key, [features], i)
    decreases |features| - i
  {
    if i < |features| {
      CombineMeanSelf(features[i].mean);
      assert RecordAt(Intended, key, [features, features], i) == RecordAt(Intended, key, [features], i);
      EmitSelf(key, features, i + 1);
    }
  }

  /** With identical passes whose means are never 0, `combined` as intended yields exactly what `default` yields. */
  lemma CombinedMatchesSinglePass(geography: Geography, zonal: bool -> seq<Feature>)
    requires zonal(true) == zonal(false)
    requires forall j :: 0 <= j < |zonal(false)| ==> zonal(false)[j].mean != Some(0.0)
    ensures Aggregate(Intended, Combined, geography, zonal) == Aggregate(AsWritten, Default, geography, zonal)
  {
    var features := zonal(false);
    assert PassResults(Combined, zonal) == [features, features];
    assert PassResults(Default, zonal) == [features];
    if features != [] {
      match ResolveKey(geography, features[0].properties)
      case Failure(_) =>
      case Success(key) =>
        EmitSelf(key, features, 0);
        SinglePassEmitReadingsAgree(key, features, 0);
    }
  }

  /** A mean of 0 in both passes: `default` yields 0, while `combined` as intended yields `None`. */
  lemma ZeroMeanCombinedDiffers()
    ensures var zonal := (allTouched: bool) => [Feature(map["ZIP" := "02138"], Some(0.0))];
            Aggregate(AsWritten, Default, Zip, zonal) == Run([Record(Some(0.0), "02138")], None) &&
            Aggregate(Intended, Combined, Zip, zonal) == Run([Record(None, "02138")], None)
  {
    var zonal := (allTouched: bool) => [Feature(map["ZIP" := "02138"], Some(0.0))];
    assert ZipKey(map["ZIP" := "02138"]) == Success(["ZIP"]);
    assert PassResults(Default, zonal) == [zonal(false)];
    assert PassResults(Combined, zonal) == [zonal(false), zonal(true)];
  }
}
