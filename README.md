# nsaph_gis core in Dafny

This project models three parts of the `nsaph_gis` package:

- **`StatsCounter`** (`compute_shape.py`). It aggregates a raster layer over the shapes of a shapefile. It runs one or two zonal-statistics passes, depending on the rasterization strategy. The pass with `all_touched=False` comes first, the one with `all_touched=True` second. If the first pass is empty, it yields nothing. Otherwise it picks the identifying fields (the key) from the first feature: a ZIP/ZCTA field, or a state field and a county field. For each shape it then yields a `Record(mean, prop)`, where `prop` is the concatenated key values. Under the `combined` strategy the two passes are meant to be merged shape by shape by `_combine`. As written, though, the loop unpacks the `Record` that `_combine` returns into `mean, prop`. A dataclass instance is not iterable, so every successful merge raises TypeError (see "Findings"). The model keeps every exception the loop can raise:
  - an unsupported geography;
  - a shapefile with none of the expected fields;
  - a missing property;
  - a key mismatch;
  - a non-zero cell-center mean without an all-touched mean;
  - an all-touched pass shorter than the first pass;
  - the TypeError of unpacking a merged record.
- **`PointInRaster`** (`geometry.py`). It samples a raster at a point. The constructor scans the 2×2 window around the point in row-major order. It counts the corners that are masked in the windowed read or in the raster, remembers the last valid corner, and classifies the point as completely masked, partially masked or unmasked. `bilinear` returns:
  - `None` for a completely masked point;
  - the remembered corner's value for a partially masked one;
  - the bilinear blend of the four corners otherwise.
- **`GISDownloader`** (`downloader.py`). It resolves census shapefile URLs by year:
  - county and GENZ ZCTA files fall back to 2020 or 2010;
  - TIGER ZCTA files fall back to the greatest listed year not above the request, and raise `KeyError` on `-1` before 2008;
  - the `strict` flag refuses any year that is not exact.

  It names each download as the URL's last path segment, joined to the output directory (default `.`). `download_shapes` makes its three calls in a fixed order, GENZ ZCTA, TIGER ZCTA and county, stops at the first exception, and never reads `source`.

Each module follows the same pattern:
- Exceptions are values of an `Error`/`DownloadError` datatype inside a `Result`.
- A generator that may raise part-way is modelled as a `Run`: the records it yielded, then the exception it stopped with, if any.
- `process` is a method with a loop. It is proved equal to the functional specification `Aggregate` with the combined branch read `AsWritten`, and the properties are proved about `Aggregate`. The `Intended` reading, where the merged record is yielded, carries the combined strategy's intended properties.
- Small definitions are pinned down by the contracts and lemmas that use them, not by rows of their own:
  - `PassResults` is the list `stats` of compute_shape.py:82-106;
  - `Classify` is the classification of geometry.py:48-51;
  - `Blend` is the formula of geometry.py:73-78;
  - `JoinPath` is `os.path.join` at downloader.py:87;
  - `ShapeStep` is the `k`-th call of downloader.py:55-57.
- `PointInRaster` is a class whose constructor performs the masking scan as a loop. It is proved against the specification functions `MaskedCount` and `LastValid`.

## Model

| member | source | states |
|---|---|---|
| ComputeShape.Passes | nsaph_gis/compute_shape.py:56-106 | A strategy runs the all-touched pass first only for `all_touched`, two passes exactly for `combined`, and the second of two passes is always all-touched |
| ComputeShape.FirstPresent | nsaph_gis/compute_shape.py:145-147 | The index found is the first candidate present in the properties; none is found only when no candidate is present |
| ComputeShape.DetermineKey | nsaph_gis/compute_shape.py:143-148 | Succeeds exactly when some candidate is a property. It returns the first such candidate; otherwise it fails with the unknown-shape-format error naming the candidates |
| ComputeShape.ZipKey | nsaph_gis/compute_shape.py:131-134 | The key is the one-field tuple of the first of ZIP, ZCTA5, ZCTA5CE10, ZCTA5CE20 present; it fails exactly when none is present |
| ComputeShape.CountyKey | nsaph_gis/compute_shape.py:136-141 | The key is (state field, county field), each the first present of its candidates. It succeeds exactly when both are found. The county lookup runs first, so its error wins |
| ComputeShape.ResolveKey | nsaph_gis/compute_shape.py:111-117 | ZIP resolves the key with the ZIP rule and county with the county rule, including their unknown-shape-format errors. ZIP gives a one-field key and county a two-field key, every field a property of the first row. Any other geography raises the unsupported-geography error |
| ComputeShape.JoinFields | nsaph_gis/compute_shape.py:126-127 | Succeeds exactly when every key field is a property. The text is the field values concatenated in key order; otherwise it fails on the first missing field |
| ComputeShape.CombineMean | nsaph_gis/compute_shape.py:156-165 | Fails exactly when `m1` is truthy and `m2` is not. The result is present exactly when `m2` is truthy. With both truthy it is their average, lying between them; with only `m2` truthy it is `m2` |
| ComputeShape.Combine | nsaph_gis/compute_shape.py:150-166 | A combined record carries the key text both features join to and the combined mean. A missing field of the first feature raises its KeyError first, then one of the second feature. Differing key texts raise the assertion error. With equal keys, the mean rule's error is raised when it fails |
| ComputeShape.RecordAt | nsaph_gis/compute_shape.py:120-127 | A record carries the joined key of the shape's first-pass feature. A single pass yields exactly when the key fields are present, with the feature's mean unchanged. As written, two passes never yield: once `_combine` succeeds, unpacking its record raises TypeError. As intended, they yield `_combine`'s record |
| ComputeShape.Emit | nsaph_gis/compute_shape.py:119-129 | The records are the loop's records, shape by shape, in order. The run stops only at a shape whose record raises, and carries that exception |
| ComputeShape.EmitStep | nsaph_gis/compute_shape.py:119-129 | One loop iteration either raises, ending the run, or yields its record ahead of the rest |
| ComputeShape.Aggregate | nsaph_gis/compute_shape.py:108-117 | An empty first pass yields nothing and raises nothing. A non-empty one whose key cannot be resolved from its first feature raises that error (unsupported geography or unknown shape format) before yielding. At most one record per first-pass shape, exactly one each when nothing is raised |
| ComputeShape.Process | nsaph_gis/compute_shape.py:47-129 | The records yielded and the exception raised are those of `Aggregate`, with the combined branch read as written |
| ComputeShape.NextRecord | nsaph_gis/compute_shape.py:120-129 | The loop body for shape `i` produces the record, or raises the exception, that `RecordAt` assigns to that shape as written, including the TypeError after a successful `_combine` |
| ComputeShape.YieldRecords | nsaph_gis/compute_shape.py:119-129 | The loop over the shapes yields exactly the records of `Emit` (as written) from shape 0 and stops with its exception |
| ComputeShapeProperties.JoinFieldsConcat | nsaph_gis/compute_shape.py:126-127 | Joining a key split in two parts is joining each part and concatenating |
| ComputeShapeProperties.SinglePassRecords | nsaph_gis/compute_shape.py:124-129 | A single-pass strategy copies each feature's mean unchanged and its joined key. It raises nothing exactly when every feature has all key fields, and otherwise stops at the first feature that lacks one |
| ComputeShapeProperties.SinglePassEmitReadingsAgree | nsaph_gis/compute_shape.py:119-129 | With one pass, the loop runs the same under both readings of the combined branch |
| ComputeShapeProperties.SinglePassReadingsAgree | nsaph_gis/compute_shape.py:108-129 | `default`, `all_touched` and `downscale` yield and raise the same under both readings |
| ComputeShapeProperties.CombinedAsWrittenYieldsNothing | nsaph_gis/compute_shape.py:119-122 | As written, `combined` with a non-empty first pass yields no record and always raises. When the key resolves and `_combine` succeeds on the first shape, the exception is the TypeError of unpacking its record |
| ComputeShapeProperties.CombinedUnpackCounterexample | nsaph_gis/compute_shape.py:122 | One ZIP shape with mean 1 in both passes: as written `combined` raises TypeError and yields nothing, as intended it yields the shape's record, and `default` yields that record |
| ComputeShapeProperties.CombinedRecords | nsaph_gis/compute_shape.py:120-122 | Under `combined` as intended, record `i` is `_combine` of the two passes' features at index `i`, and there are no more records than all-touched features |
| ComputeShapeProperties.CombinedFailure | nsaph_gis/compute_shape.py:120-122 | Under `combined` as intended, an exception is raised at a first-pass shape. It is either `_combine`'s exception there or the lookup past the end of the all-touched pass |
| ComputeShapeProperties.CombineMeanSelf | nsaph_gis/compute_shape.py:156-165 | Combining a mean with itself gives it back, except that a mean of 0 becomes `None` |
| ComputeShapeProperties.EmitSelf | nsaph_gis/compute_shape.py:119-129 | Combining a pass with itself, as intended, yields the single-pass run when no mean is 0 |
| ComputeShapeProperties.CombinedMatchesSinglePass | nsaph_gis/compute_shape.py:158-159 | With identical passes and no zero mean, `combined` as intended yields and raises exactly what `default` does |
| ComputeShapeProperties.ZeroMeanCombinedDiffers | nsaph_gis/compute_shape.py:158-165 | A ZIP shape with mean 0 yields mean 0 under `default` but `None` under `combined` as intended |
| Geometry.MaskedCount | nsaph_gis/geometry.py:36-44 | The count of masked corners among the first `k` is at most `k`. It equals `k` exactly when all are masked and is 0 exactly when none is |
| Geometry.LastValid | nsaph_gis/geometry.py:38-46 | The corner remembered after `k` scan steps is valid, comes before `k`, and every later corner up to `k` is masked; there is none exactly when none is valid |
| Geometry.PointInRaster.constructor | nsaph_gis/geometry.py:31-51 | The new sampler's count, classification and remembered cell are those of the scan over the window's four corners |
| Geometry.PointInRaster.IsMasked | nsaph_gis/geometry.py:53-54 | True exactly when all four corners are masked |
| Geometry.PointInRaster.Bilinear | nsaph_gis/geometry.py:62-78 | `None` exactly when all corners are masked. A partially masked point gives the remembered corner's value. An unmasked point gives the weighted blend of the four window values |
| GeometryProperties.ScanOrder | nsaph_gis/geometry.py:38-40 | The scan visits (0,0), (0,1), (1,0), (1,1) in that order |
| GeometryProperties.NoValidCornerIffAllMasked | nsaph_gis/geometry.py:41-46 | No corner is remembered exactly when every scanned corner is masked |
| GeometryProperties.Classification | nsaph_gis/geometry.py:48-51 | Completely masked iff 4 masked corners, partially masked iff 1 to 3, state 0 iff none |
| GeometryProperties.RememberedCornerValid | nsaph_gis/geometry.py:39-46 | Unless all corners are masked, the remembered cell lies in the window, is valid under both masks, and every later corner in the scan is masked |
| GeometryProperties.PartialIgnoresPosition | nsaph_gis/geometry.py:66-67 | A partially masked sample does not depend on the point's position inside the cell |
| GeometryProperties.SingleValidCorner | nsaph_gis/geometry.py:66-67 | With exactly one valid corner, the sample is that corner's value |
| GeometryProperties.BlendAtCorners | nsaph_gis/geometry.py:71-78 | At the unit square's corners the blend returns the lower-left, lower-right, upper-left and upper-right value respectively |
| GeometryProperties.WeightsSumToOne | nsaph_gis/geometry.py:73-78 | The four bilinear weights sum to 1 |
| GeometryProperties.BlendConstant | nsaph_gis/geometry.py:73-78 | Four equal corner values blend to that value |
| GeometryProperties.BlendBounds | nsaph_gis/geometry.py:73-78 | For a point inside the cell, any bounds on the four corner values also bound the blend |
| GeometryProperties.BlendMidpoint | nsaph_gis/geometry.py:73-78 | At the cell's centre, upper values 10 and lower values 0 blend to 5, their average |
| Downloader.DecimalText | nsaph_gis/downloader.py:44-45 | The year is written as a non-empty run of decimal digits with no leading zero, as `str` writes it |
| Downloader.TigerYearsSorted | nsaph_gis/downloader.py:157-160 | The search list is the dictionary's keys in strictly descending order |
| Downloader.CountyUrl | nsaph_gis/downloader.py:105-123 | Exact exactly for 2010, 2013 and 2014-2020. Later years use the 2020 template, earlier years and 2011-2012 the 2010 file, 2013 its own file, 2014-2020 the template of their year |
| Downloader.GenzZctaUrl | nsaph_gis/downloader.py:125-146 | Exact exactly for 2010, 2013 and 2014-2020. 2020 and later use the 2020 ZCTA520 file, 2012 and earlier the 2010 file, 2013 its own file, 2014-2019 the template |
| Downloader.GreatestNotAbove | nsaph_gis/downloader.py:161-163 | The year found is listed, not above the request, and the greatest such; none is found only when every listed year is above the request |
| Downloader.TigerZctaUrl | nsaph_gis/downloader.py:148-165 | Succeeds exactly for years from 2008 on, and raises KeyError on `-1` before. It is exact exactly for listed years and otherwise uses the greatest listed year not above the request (2015, 2010 or 2008 by range) |
| Downloader.AfterLastSlash | nsaph_gis/downloader.py:86 | There is no result exactly when the URL has no `/`. Otherwise the result has no `/` and the URL is a prefix, `/`, then the result |
| Downloader.DownloadTarget | nsaph_gis/downloader.py:82-87 | The destination is the URL's last segment joined to the output directory, `.` when none is given. A URL without `/` raises IndexError |
| Downloader.DownloadZcta | nsaph_gis/downloader.py:59-71 | TIGER before 2008 raises KeyError. Strict mode raises ValueError for a non-exact year of either collection. Otherwise, for GENZ and for TIGER from 2008 on, the result is the download of the resolved URL |
| Downloader.DownloadCounty | nsaph_gis/downloader.py:73-79 | Strict mode raises ValueError for a non-exact year; otherwise the download of the resolved URL |
| Downloader.DownloadShapes | nsaph_gis/downloader.py:52-57 | At most three downloads, all three exactly when nothing is raised. Download `k` is the `k`-th call's, and the exception is that of the first call that raises |
| DownloaderProperties.DecimalRoundTrip | nsaph_gis/downloader.py:44-45 | Reading back the digits written for a year gives the year |
| DownloaderProperties.AppendNonSlash | nsaph_gis/downloader.py:86 | A character other than `/` appended to a path extends its last segment |
| DownloaderProperties.SplitAtLastSlash | nsaph_gis/downloader.py:86 | `rsplit('/', 1)[1]` of a prefix, `/` and a name without `/` is that name |
| DownloaderProperties.UrlFileName | nsaph_gis/downloader.py:82-87 | A URL made of a directory and a file name downloads to that file name in the output directory |
| DownloaderProperties.NoSlashInConcat | nsaph_gis/downloader.py:86 | Concatenating texts without `/` gives a text without `/` |
| DownloaderProperties.CountyFileNameHasNoSlash | nsaph_gis/downloader.py:44 | The county template's file name holds no `/` |
| DownloaderProperties.CountyTemplateDestination | nsaph_gis/downloader.py:44 | The county template of a year downloads to `./cb_<year>_us_county_500k.zip` by default |
| DownloaderProperties.StrictCountyUsesTemplate | nsaph_gis/downloader.py:73-79 | A strict county download for 2014-2020 fetches that year's template file into `.` |
| DownloaderProperties.DestinationEndsWithName | nsaph_gis/downloader.py:87 | Joining a name without `/`, even an empty one, to a non-empty directory keeps the name as the last segment |
| DownloaderProperties.CountyFallbackIsExact | nsaph_gis/downloader.py:110-114 | Every county fallback resolves to the URL of an exact year: 2020 or 2010 |
| DownloaderProperties.GenzZctaFallbackIsExact | nsaph_gis/downloader.py:130-134 | Every GENZ ZCTA fallback resolves to the URL of an exact year: 2020 or 2010 |
| DownloaderProperties.TigerZctaFallbackIsExact | nsaph_gis/downloader.py:157-163 | Every successful TIGER fallback resolves to the URL of a listed year, which is exact |
| DownloaderProperties.DownloadShapesIgnoresSource | nsaph_gis/downloader.py:52-57 | `download_shapes` gives the same downloads and exception for either `source` |
| DownloaderProperties.StrictFallbackDownloadsNothing | nsaph_gis/downloader.py:55 | In strict mode, a year without its own GENZ ZCTA file raises ValueError before any download |
| DownloaderProperties.EarlyYearStopsAtTiger | nsaph_gis/downloader.py:55-57 | Not strict and before 2008: the GENZ 2010 file is downloaded, then the TIGER lookup raises KeyError, and the county file is never fetched |

## Left out

- The zonal-statistics computation (`rasterstats.zonal_stats`) is an input. It is a function from the `all_touched` flag to the list of features. The shapefile path, the affine transform, the layer and `NO_DATA` only reach that call and are not modelled.
- Feature property values are strings. Non-string values (numbers that `"".join` would reject with TypeError) are not modelled.
- The `tqdm` progress bar is not modelled, and neither is the laziness of the generator: a `Run` is everything the generator yields before it stops.
- Floating-point arithmetic is not modelled: means, coordinates and raster values are `real`. The Python float average and the bilinear blend are exact here, with no rounding.
- `point.point_window_unitxy`, `raster.read` and the masked-array reads are inputs:
  - the window origin and the unit coordinates are constructor parameters;
  - the two masks are 2×2 grids of booleans;
  - the raster values under the window are a 2×2 grid given to `Bilinear`.
- Geometry.PointInRaster.Bilinear: the `array` method's slice of `raster.array` is the `values` grid. Windows that extend past the raster edge and numpy's wrap-around for negative indices are not modelled.
- Geometry.PointInRaster.constructor: the masks are ghost state. The attributes `r` and `c` are unset in Python when every corner is masked; here they keep their initial value, which `Bilinear` never reads in that case.
- File retrieval is I/O and is not modelled:
  - the `HTTPS_PROXY` handling;
  - the `os.path.exists` check;
  - `urlretrieve` and its progress hook;
  - zip extraction.

  A download is modelled as its URL and destination path.
- `os.path.join` is modelled for POSIX paths only: an absolute name replaces the directory. Otherwise a `/` is inserted between them, unless the directory is empty or already ends with one.
- `constants.py` contributes only the two enumerations. It is not part of this model beyond them.
- ComputeShape.Combine: the key check is an `assert` statement, which always raises on a mismatch here. Under `python -O` the assert is stripped and mismatched keys pass silently; that mode is not modelled.
- ComputeShape.CombineMean: a mean of exactly 0 is falsy in Python. The model keeps this behaviour: combining a 0 mean gives `None`, or raises when only the all-touched mean is 0. `ZeroMeanCombinedDiffers` exhibits the consequence.

## Findings

| source | as written | input that shows it | evidently intended | confidence | as-written member | corrected member |
|---|---|---|---|---|---|---|
| nsaph_gis/compute_shape.py:122 | `mean, prop = cls._combine(...)` unpacks the `Record` dataclass that `_combine` returns (lines 40-43, 166). A dataclass instance is not iterable, so every shape whose merge succeeds raises TypeError, and `combined` never yields a record | strategy `combined`, geography `zip`, both passes holding one feature with `ZIP` = "02138" and mean 1.0 | take the merged record's `mean` and `prop` and yield it, so `combined` yields the merged means | high; not executed | ComputeShapeProperties.CombinedUnpackCounterexample | ComputeShapeProperties.CombinedRecords |
