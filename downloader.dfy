/**
 * Year resolution of census shapefile URLs and the naming of downloads:
 * `GISDownloader` in downloader.py.
 *
 * Retrieval, proxies, the file-exists check and unzipping are I/O and are not
 * modelled: a download is the pair of the URL and the destination path it
 * would be written to.
 */
module Downloader {
  import opened Wrappers

  datatype CensusShapeCollection = Genz | Tiger

  /** The exceptions the download functions raise before any I/O. */
  datatype DownloadError =
    | NoCensusData(year: int)    // ValueError of the strict check
    | MissingYearKey(key: int)   // KeyError on ZCTA_TIGER_URLs
    | NoSeparator(url: string)   // IndexError of `rsplit('/', 1)[1]`

  /** A file `_download_shape` fetches: its URL and its destination path. */
  datatype Download = Download(url: string, dest: string)

  /** The downloads `download_shapes` performs, in order, then the exception it stops with, if any. */
  datatype Plan = Plan(downloads: seq<Download>, failure: Option<DownloadError>)

  // ---------------------------------------------------------------------------
  // URL text
  // ---------------------------------------------------------------------------

  /** A URL made of a directory part and a file name. */
  function Url(dir: string, file: string): string {
    dir + "/" + file
  }

  function Digit(d: nat): (ch: char)
    requires d < 10
    ensures '0' <= ch <= '9'
  {
    "0123456789"[d]
  }

  /** `str(n)` for a non-negative integer, as `format` writes a year into a template. */
  function DecimalText(n: nat): (s: string)
    ensures |s| >= 1
    ensures forall i :: 0 <= i < |s| ==> '0' <= s[i] <= '9'
    ensures |s| > 1 ==> s[0] != '0'
  {
    if n < 10 then [Digit(n)] else DecimalText(n / 10) + [Digit(n % 10)]
  }

  /** The number a text of decimal digits stands for. */
  function DecimalValue(s: string): nat
    requires forall i :: 0 <= i < |s| ==> '0' <= s[i] <= '9'
  {
    if |s| == 0 then 0
    else DecimalValue(s[..|s| - 1]) * 10 + (s[|s| - 1] as int - '0' as int)
  }

  const CensusRoot: string := "https://www2.census.gov/geo/tiger"

  /** `COUNTY_TEMPLATE.format(year=year)`. */
  function CountyTemplate(year: nat): string {
    Url(CensusRoot + "/GENZ" + DecimalText(year) + "/shp", "cb_" + DecimalText(year) + "_us_county_500k.zip")
  }

  /** `ZCTA_GENZ_TEMPLATE.format(year=year)`. */
  function ZctaGenzTemplate(year: nat): string {
    Url(CensusRoot + "/GENZ" + DecimalText(year) + "/shp", "cb_" + DecimalText(year) + "_us_zcta510_500k.zip")
  }

  const County2010Url: string := Url(CensusRoot + "/GENZ2010", "gz_2010_us_050_00_500k.zip")
  const County2013Url: string := Url(CensusRoot + "/GENZ2013", "cb_2013_us_county_500k.zip")
  const ZctaGenz2010Url: string := Url(CensusRoot + "/GENZ2010", "gz_2010_us_860_00_500k.zip")
  const ZctaGenz2013Url: string := Url(CensusRoot + "/GENZ2013", "cb_2013_us_zcta510_500k.zip")
  const ZctaGenz2020Url: string := Url(CensusRoot + "/GENZ2020/shp", "cb_2020_us_zcta520_500k.zip")

  /** `ZCTA_TIGER_URLs`. */
  const ZctaTigerUrls: map<int, string> := map[
    2008 := Url(CensusRoot + "/TIGER2008", "tl_2008_us_zcta500.zip"),
    2010 := Url(CensusRoot + "/TIGER2010/ZCTA5/2010", "tl_2010_us_zcta510.zip"),
    2015 := Url(CensusRoot + "/TIGER2015/ZCTA5", "tl_2015_us_zcta510.zip")
  ]

  /** `sorted(ZCTA_TIGER_URLs, reverse=True)`. */
  const TigerYearsDescending: seq<int> := [2015, 2010, 2008]

  /** The list above holds exactly the keys of `ZCTA_TIGER_URLs`, in strictly descending order. */
  lemma TigerYearsSorted()
    ensures forall i, j :: 0 <= i < j < |TigerYearsDescending| ==> TigerYearsDescending[i] > TigerYearsDescending[j]
    ensures forall y :: y in ZctaTigerUrls <==> y in TigerYearsDescending
  {
    assert ZctaTigerUrls.Keys == {2008, 2010, 2015};
  }

  // ---------------------------------------------------------------------------
  // Year resolution
  // ---------------------------------------------------------------------------

  /** Years that have a county shapefile of their own. */
  predicate IsCountyYear(year: int) {
    year == 2010 || year == 2013 || 2014 <= year <= 2020
  }

  /** Years that have a GENZ ZCTA shapefile of their own. */
  predicate IsGenzZctaYear(year: int) {
    year == 2010 || year == 2013 || 2014 <= year <= 2019 || year == 2020
  }

  /** `_get_county_url`: the URL for the year, or for its fallback year, and whether the year is exact. */
  function CountyUrl(year: int): (r: (string, bool))
    decreases if year > 2020 || year == 2011 || year == 2012 || year < 2010 then 1 else 0
    ensures r.1 <==> IsCountyYear(year)
    ensures year > 2020 ==> r.0 == CountyTemplate(2020)
    ensures year < 2010 || year == 2011 || year == 2012 ==> r.0 == County2010Url
    ensures year == 2010 ==> r.0 == County2010Url
    ensures year == 2013 ==> r.0 == County2013Url
    ensures 2014 <= year <= 2020 ==> r.0 == CountyTemplate(year)
  {
    if year > 2020 then (CountyUrl(2020).0, false)
    else if year in {2012, 2011} || year < 2010 then (CountyUrl(2010).0, false)
    else if year == 2010 then (County2010Url, true)
    else if year == 2013 then (County2013Url, true)
    else
      assert 2014 <= year <= 2020;
      (CountyTemplate(year), true)
  }

  /** `_get_genz_zcta_url`: the URL for the year, or for its fallback year, and whether the year is exact. */
  function GenzZctaUrl(year: int): (r: (string, bool))
    decreases if year > 2020 || year == 2011 || year == 2012 || year < 2010 then 1 else 0
    ensures r.1 <==> IsGenzZctaYear(year)
    ensures year >= 2020 ==> r.0 == ZctaGenz2020Url
    ensures year < 2010 || year == 2010 || year == 2011 || year == 2012 ==> r.0 == ZctaGenz2010Url
    ensures year == 2013 ==> r.0 == ZctaGenz2013Url
    ensures 2014 <= year <= 2019 ==> r.0 == ZctaGenzTemplate(year)
  {
    if year > 2020 then (GenzZctaUrl(2020).0, false)
    else if year in {2012, 2011} || year < 2010 then (GenzZctaUrl(2010).0, false)
    else if year == 2010 then (ZctaGenz2010Url, true)
    else if year == 2013 then (ZctaGenz2013Url, true)
    else if 2014 <= year <= 2019 then (ZctaGenzTemplate(year), true)
    else
      assert year == 2020;
      (ZctaGenz2020Url, true)
  }

  /** The descending search of `_get_tiger_zcta_url`: the first listed year not above `year`. */
  function GreatestNotAbove(years: seq<int>, year: int): (r: Option<int>)
    requires forall i, j :: 0 <= i < j < |years| ==> years[i] > years[j]
    ensures r.Some? ==> r.value in years && r.value <= year
    ensures r.Some? ==> forall k :: 0 <= k < |years| && years[k] <= year ==> years[k] <= r.value
    ensures r.None? ==> forall k :: 0 <= k < |years| ==> years[k] > year
  {
    if |years| == 0 then None
    else if years[0] <= year then Some(years[0])
    else GreatestNotAbove(years[1..], year)
  }

  /** `_get_tiger_zcta_url`: the listed year itself, else the greatest listed year below it, else KeyError on `-1`. */
  function TigerZctaUrl(year: int): (r: Result<(string, bool), DownloadError>)
    ensures r.Success? <==> year >= 2008
    ensures r.Failure? ==> r.error == MissingYearKey(-1)
    ensures r.Success? ==> (r.value.1 <==> year in ZctaTigerUrls)
    ensures r.Success? ==> exists y :: y in ZctaTigerUrls && y <= year && r.value.0 == ZctaTigerUrls[y] &&
                                     forall y' :: y' in ZctaTigerUrls && y' <= year ==> y' <= y
    ensures year >= 2015 ==> r == Success((ZctaTigerUrls[2015], year == 2015))
    ensures 2010 <= year < 2015 ==> r == Success((ZctaTigerUrls[2010], year == 2010))
    ensures 2008 <= year < 2010 ==> r == Success((ZctaTigerUrls[2008], year == 2008))
  {
    TigerYearsSorted();
    assert TigerYearsDescending[0] == 2015 && TigerYearsDescending[1] == 2010;
    if year in ZctaTigerUrls then Success((ZctaTigerUrls[year], true))
    else match GreatestNotAbove(TigerYearsDescending, year)
      case Some(y) => Success((ZctaTigerUrls[y], false))
      // `ZCTA_TIGER_URLs[-1]`: -1 is not a key
      case None =>
        assert TigerYearsDescending[2] == 2008;
        Failure(MissingYearKey(-1))
  }

  // ---------------------------------------------------------------------------
  // Downloads
  // ---------------------------------------------------------------------------

  /** The text after the last `/`, or `None` when there is no `/`. */
  function AfterLastSlash(s: string): (r: Option<string>)
    ensures r.None? <==> '/' !in s
    ensures r.Some? ==> '/' !in r.value && |r.value| < |s| &&
                        s == s[..|s| - |r.value| - 1] + "/" + r.value
  {
    if |s| == 0 then None
    else if s[|s| - 1] == '/' then
      assert s == s[..|s| - 1] + "/" + "";
      Some("")
    else match AfterLastSlash(s[..|s| - 1])
      case None => None
      case Some(t) =>
        var n := |s| - 1;
        assert s == s[..n] + [s[n]];
        assert s[..n] == s[..n][..n - |t| - 1] + "/" + t;
        assert s[..n - |t| - 1] == s[..n][..n - |t| - 1];
        Some(t + [s[n]])
  }

  /** `os.path.join(output_dir, shape_file)` for a POSIX path. */
  function JoinPath(dir: string, name: string): string {
    if |name| > 0 && name[0] == '/' then name
    else if |dir| == 0 || dir[|dir| - 1] == '/' then dir + name
    else dir + "/" + name
  }

  /** The naming part of `_download_shape`: file name `url.rsplit('/', 1)[1]`, joined to `output_dir` or `.`. */
  function DownloadTarget(url: string, outputDir: Option<string>): (r: Result<Download, DownloadError>)
    ensures r.Failure? <==> '/' !in url
    ensures r.Failure? ==> r.error == NoSeparator(url)
    ensures r.Success? ==> r.value.url == url
    ensures r.Success? ==>
              r.value.dest == JoinPath(if outputDir.Some? then outputDir.value else ".", AfterLastSlash(url).value)
  {
    var dir := if outputDir.None? then "." else outputDir.value;
    match AfterLastSlash(url)
    case None => Failure(NoSeparator(url))
    case Some(shapeFile) => Success(Download(url, JoinPath(dir, shapeFile)))
  }

  /** `download_zcta`: resolve the URL, refuse a fallback year when strict, then download. */
  function DownloadZcta(source: CensusShapeCollection, year: int, outputDir: Option<string>, strict: bool)
    : (r: Result<Download, DownloadError>)
    ensures source == Tiger && year < 2008 ==> r == Failure(MissingYearKey(-1))
    ensures source == Genz && strict && !IsGenzZctaYear(year) ==> r == Failure(NoCensusData(year))
    ensures source == Tiger && year >= 2008 && strict && year !in ZctaTigerUrls ==> r == Failure(NoCensusData(year))
    ensures source == Genz && (!strict || IsGenzZctaYear(year)) ==> r == DownloadTarget(GenzZctaUrl(year).0, outputDir)
    ensures source == Tiger && year >= 2008 && (!strict || year in ZctaTigerUrls) ==>
              r == DownloadTarget(TigerZctaUrl(year).value.0, outputDir)
  {
    var resolved: Result<(string, bool), DownloadError> := if source == Genz then Success(GenzZctaUrl(year)) else TigerZctaUrl(year);
    match resolved
    case Failure(e) => Failure(e)
    case Success((zipUrl, isExact)) =>
      if strict && !isExact then Failure(NoCensusData(year))
      else DownloadTarget(zipUrl, outputDir)
  }

  /** `download_county`: resolve the URL, refuse a fallback year when strict, then download. */
  function DownloadCounty(year: int, outputDir: Option<string>, strict: bool): (r: Result<Download, DownloadError>)
    ensures strict && !IsCountyYear(year) ==> r == Failure(NoCensusData(year))
    ensures !strict || IsCountyYear(year) ==> r == DownloadTarget(CountyUrl(year).0, outputDir)
  {
    var (countyUrl, isExact) := CountyUrl(year);
    if strict && !isExact then Failure(NoCensusData(year))
    else DownloadTarget(countyUrl, outputDir)
  }

  /** The `k`-th call of `download_shapes`: GENZ ZCTA, TIGER ZCTA, then county. */
  function ShapeStep(k: nat, year: int, outputDir: Option<string>, strict: bool): Result<Download, DownloadError>
    requires k < 3
  {
    if k == 0 then DownloadZcta(Genz, year, outputDir, strict)
    else if k == 1 then DownloadZcta(Tiger, year, outputDir, strict)
    else DownloadCounty(year, outputDir, strict)
  }

  /** `download_shapes`: the three downloads in order, stopping at the first exception; `source` is not used. */
  function DownloadShapes(source: CensusShapeCollection, year: int, outputDir: Option<string>, strict: bool): (r: Plan)
    ensures |r.downloads| <= 3
    ensures r.failure.None? <==> |r.downloads| == 3
    ensures forall k :: 0 <= k < |r.downloads| ==> ShapeStep(k, year, outputDir, strict) == Success(r.downloads[k])
    ensures r.failure.Some? ==> ShapeStep(|r.downloads|, year, outputDir, strict) == Failure(r.failure.value)
  {
    // download_zcta(genz, ...), download_zcta(tiger, ...), download_county(...)
    match ShapeStep(0, year, outputDir, strict)
    case Failure(e) => Plan([], Some(e))
    case Success(genz) =>
      match ShapeStep(1, year, outputDir, strict)
      case Failure(e) => Plan([genz], Some(e))
      case Success(tiger) =>
        match ShapeStep(2, year, outputDir, strict)
        case Failure(e) => Plan([genz, tiger], Some(e))
        case Success(county) => Plan([genz, tiger, county], None)
  }
}

/** Properties of the year resolution and of the download naming. */
module DownloaderProperties {
  import opened Wrappers
  import opened Downloader

  /** Each digit character stands for its own value. */
  lemma DigitValue(d: nat)
    requires d < 10
    ensures Digit(d) as int - '0' as int == d
  {
  }

  /** Writing a year in decimal and reading it back gives the year. */
  lemma {:induction false} DecimalRoundTrip(n: nat)
    ensures DecimalValue(DecimalText(n)) == n
  {
    var s := DecimalText(n);
    if n >= 10 {
      var t := DecimalText(n / 10);
      assert s[..|s| - 1] == t && s[|s| - 1] == Digit(n % 10) by {
        assert s == t + [Digit(n % 10)];
      }
      assert DecimalValue(s) == DecimalValue(t) * 10 + (Digit(n % 10) as int - '0' as int);
      DecimalRoundTrip(n / 10);
      DigitValue(n % 10);
    } else {
      DigitValue(n);
      assert s == [Digit(n)];
      assert s[..0] == [];
    }
  }

  /** Appending a character other than `/` extends the text after the last `/`. */
  lemma AppendNonSlash(t: string, c: char)
    requires c != '/' && AfterLastSlash(t).Some?
    ensures AfterLastSlash(t + [c]) == Some(AfterLastSlash(t).value + [c])
  {
    assert (t + [c])[..|t|] == t;
  }

  /** A file name without `/` is what `rsplit('/', 1)[1]` takes back from a path ending in `/` and that name. */
  lemma {:induction false} SplitAtLastSlash(prefix: string, name: string)
    requires '/' !in name
    ensures AfterLastSlash(prefix + "/" + name) == Some(name)
  {
    if |name| == 0 {
      var s := prefix + "/" + name;
      assert s[|s| - 1] == '/';
    } else {
      var n := |name| - 1;
      var init := name[..n];
      assert '/' !in init by {
        assert forall c :: c in init ==> c in name;
      }
      SplitAtLastSlash(prefix, init);
      assert prefix + "/" + name == (prefix + "/" + init) + [name[n]] by {
        assert init + [name[n]] == name;
      }
      AppendNonSlash(prefix + "/" + init, name[n]);
      assert init + [name[n]] == name;
    }
  }

  /** Every URL built from a directory and a file name yields that file name as the download's name. */
  lemma UrlFileName(dir: string, file: string, outputDir: Option<string>)
    requires '/' !in file
    ensures DownloadTarget(Url(dir, file), outputDir) ==
            Success(Download(Url(dir, file), JoinPath(if outputDir.Some? then outputDir.value else ".", file)))
  {
    SplitAtLastSlash(dir, file);
  }

  lemma NoSlashInConcat(a: string, b: string)
    requires '/' !in a && '/' !in b
    ensures '/' !in a + b
  {
    assert forall i :: 0 <= i < |a + b| ==> (a + b)[i] in a || (a + b)[i] in b;
  }

  /** The name `cb_<year>_us_county_500k.zip` holds no `/`. */
  lemma CountyFileNameHasNoSlash(y: string)
    requires forall i :: 0 <= i < |y| ==> '0' <= y[i] <= '9'
    ensures '/' !in "cb_" + y + "_us_county_500k.zip"
  {
    assert '/' !in y;
    assert '/' !in "cb_" && '/' !in "_us_county_500k.zip";
    NoSlashInConcat("cb_", y);
    NoSlashInConcat("cb_" + y, "_us_county_500k.zip");
  }

  /** The county template's file for a year is `cb_<year>_us_county_500k.zip`, fetched into `./` by default. */
  lemma CountyTemplateDestination(year: nat)
    ensures DownloadTarget(CountyTemplate(year), None) ==
            Success(Download(CountyTemplate(year), "./" + ("cb_" + DecimalText(year) + "_us_county_500k.zip")))
  {
    var y := DecimalText(year);
    var dir := CensusRoot + "/GENZ" + y + "/shp";
    var file := "cb_" + y + "_us_county_500k.zip";
    assert CountyTemplate(year) == Url(dir, file);
    CountyFileNameHasNoSlash(y);
    UrlFileName(dir, file, None);
    assert DownloadTarget(Url(dir, file), None) == Success(Download(Url(dir, file), JoinPath(".", file)));
    assert file[0] == 'c';
    assert JoinPath(".", file) == "./" + file;
  }

  /** A strict county download of a year in 2014 through 2020 fetches the template file of that year. */
  lemma StrictCountyUsesTemplate(year: int)
    requires 2014 <= year <= 2020
    ensures DownloadCounty(year, None, true) ==
            Success(Download(CountyTemplate(year), "./" + ("cb_" + DecimalText(year) + "_us_county_500k.zip")))
  {
    CountyTemplateDestination(year);
  }

  /** The destination keeps the file name last, after a `/`, whatever non-empty directory it is joined to. */
  lemma {:induction false} DestinationEndsWithName(dir: string, name: string)
    requires dir != [] && '/' !in name
    ensures AfterLastSlash(JoinPath(dir, name)) == Some(name)
  {
    if dir[|dir| - 1] == '/' {
      assert dir + name == dir[..|dir| - 1] + "/" + name;
      SplitAtLastSlash(dir[..|dir| - 1], name);
    } else {
      SplitAtLastSlash(dir, name);
    }
  }

  /** Every county resolution, fallback or not, yields the URL of a year that is exact. */
  lemma CountyFallbackIsExact(year: int)
    ensures var y := if year > 2020 then 2020 else if IsCountyYear(year) then year else 2010;
            CountyUrl(y) == (CountyUrl(year).0, true)
  {
  }

  /** Every GENZ ZCTA resolution, fallback or not, yields the URL of a year that is exact. */
  lemma GenzZctaFallbackIsExact(year: int)
    ensures var y := if year > 2020 then 2020 else if IsGenzZctaYear(year) then year else 2010;
            GenzZctaUrl(y) == (GenzZctaUrl(year).0, true)
  {
  }

  /** Every TIGER ZCTA resolution that succeeds yields the URL of a listed year, which resolves exactly. */
  lemma TigerZctaFallbackIsExact(year: int)
    requires year >= 2008
    ensures var y := if year >= 2015 then 2015 else if year >= 2010 then 2010 else 2008;
            TigerZctaUrl(y) == Success((TigerZctaUrl(year).value.0, true))
  {
  }

  /** `download_shapes` does the same whatever `source` it is given. */
  lemma DownloadShapesIgnoresSource(year: int, outputDir: Option<string>, strict: bool)
    ensures DownloadShapes(Genz, year, outputDir, strict) == DownloadShapes(Tiger, year, outputDir, strict)
  {
  }

  /** Strict mode with a year that has no GENZ ZCTA file of its own: the error comes before any download. */
  lemma StrictFallbackDownloadsNothing(source: CensusShapeCollection, year: int, outputDir: Option<string>)
    requires !IsGenzZctaYear(year)
    ensures DownloadShapes(source, year, outputDir, true) == Plan([], Some(NoCensusData(year)))
  {
  }

  /** Before 2008 and not strict, the GENZ 2010 file is fetched, then the TIGER lookup raises KeyError and the county file is never fetched. */
  lemma EarlyYearStopsAtTiger(source: CensusShapeCollection, year: int, outputDir: Option<string>)
    requires year < 2008
    ensures DownloadShapes(source, year, outputDir, false) ==
            Plan([Download(ZctaGenz2010Url, JoinPath(if outputDir.Some? then outputDir.value else ".", "gz_2010_us_860_00_500k.zip"))],
                 Some(MissingYearKey(-1)))
  {
    assert '/' !in "gz_2010_us_860_00_500k.zip";
    UrlFileName(CensusRoot + "/GENZ2010", "gz_2010_us_860_00_500k.zip", outputDir);
  }
}
