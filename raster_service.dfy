/**
 * The raster data service of the frontend (rasterService.js): request
 * URLs, the unit table, and the fallback values it returns when a request
 * fails.  The network itself is not modelled: each fallback is the value
 * the service resolves to after a failed request.
 */
module RasterApi {
  import opened Wrappers
  import opened Text
  import opened RasterTypes

  /** The base URL a service is constructed with by default. */
  const DefaultBaseUrl: string := "/api/visuall"

  // ---------------------------------------------------------------------
  // Request URLs
  // ---------------------------------------------------------------------

  function CategoriesUrl(baseUrl: string): string {
    baseUrl + "/categories/"
  }

  function RasterFilesUrl(baseUrl: string, category: string): string {
    baseUrl + "/raster_data/" + category + "/"
  }

  function MetadataUrl(baseUrl: string, category: string, fileId: string): string {
    baseUrl + "/metadata/" + category + "/" + fileId + "/"
  }

  function RasterDataUrl(baseUrl: string, category: string, fileId: string): string {
    baseUrl + "/raster_file/" + category + "/" + fileId + "/"
  }

  /** The `/`-separated pieces of a path; `"/a/"` has pieces `"", "a", ""`. */
  function Split(s: string): (parts: seq<string>)
    ensures |parts| >= 1
  {
    if s == [] then [""]
    else
      var rest := Split(s[1..]);
      if s[0] == '/' then [""] + rest else [[s[0]] + rest[0]] + rest[1..]
  }

  predicate NoSlash(s: string) {
    forall i :: 0 <= i < |s| ==> s[i] != '/'
  }

  lemma {:induction false} SplitNoSlash(a: string)
    requires NoSlash(a)
    ensures Split(a) == [a]
    decreases |a|
  {
    if a != [] {
      SplitNoSlash(a[1..]);
      assert [a[0]] + a[1..] == a;
    }
  }

  /** A piece without `/`, a `/`, and the rest: the piece comes first. */
  lemma {:induction false} SplitPiece(a: string, b: string)
    requires NoSlash(a)
    ensures Split(a + "/" + b) == [a] + Split(b)
    decreases |a|
  {
    if a == [] {
      assert a + "/" + b == "/" + b;
      assert ("/" + b)[1..] == b;
    } else {
      SplitPiece(a[1..], b);
      assert (a + "/" + b)[1..] == a[1..] + "/" + b;
      assert [a[0]] + a[1..] == a;
    }
  }

  /**
   * The path after the base URL of the metadata request splits into the
   * route, the category and the file id: both arguments can be read back.
   */
  lemma MetadataUrlPieces(baseUrl: string, category: string, fileId: string)
    requires NoSlash(category) && NoSlash(fileId)
    ensures |MetadataUrl(baseUrl, category, fileId)| > |baseUrl|
    ensures MetadataUrl(baseUrl, category, fileId)[..|baseUrl|] == baseUrl
    ensures Split(MetadataUrl(baseUrl, category, fileId)[|baseUrl|..])
      == ["", "metadata", category, fileId, ""]
  {
    var path := MetadataUrl(baseUrl, category, fileId)[|baseUrl|..];
    assert path == "" + "/" + ("metadata" + "/" + (category + "/" + (fileId + "/" + "")));
    SplitPiece("", "metadata" + "/" + (category + "/" + (fileId + "/" + "")));
    SplitPiece("metadata", category + "/" + (fileId + "/" + ""));
    SplitPiece(category, fileId + "/" + "");
    SplitPiece(fileId, "");
  }

  /** Likewise for the raster-file request. */
  lemma RasterDataUrlPieces(baseUrl: string, category: string, fileId: string)
    requires NoSlash(category) && NoSlash(fileId)
    ensures RasterDataUrl(baseUrl, category, fileId)[..|baseUrl|] == baseUrl
    ensures Split(RasterDataUrl(baseUrl, category, fileId)[|baseUrl|..])
      == ["", "raster_file", category, fileId, ""]
  {
    var path := RasterDataUrl(baseUrl, category, fileId)[|baseUrl|..];
    assert path == "" + "/" + ("raster_file" + "/" + (category + "/" + (fileId + "/" + "")));
    SplitPiece("", "raster_file" + "/" + (category + "/" + (fileId + "/" + "")));
    SplitPiece("raster_file", category + "/" + (fileId + "/" + ""));
    SplitPiece(category, fileId + "/" + "");
    SplitPiece(fileId, "");
  }

  /** And for the raster-files listing request. */
  lemma RasterFilesUrlPieces(baseUrl: string, category: string)
    requires NoSlash(category)
    ensures RasterFilesUrl(baseUrl, category)[..|baseUrl|] == baseUrl
    ensures Split(RasterFilesUrl(baseUrl, category)[|baseUrl|..]) == ["", "raster_data", category, ""]
  {
    var path := RasterFilesUrl(baseUrl, category)[|baseUrl|..];
    assert path == "" + "/" + ("raster_data" + "/" + (category + "/" + ""));
    SplitPiece("", "raster_data" + "/" + (category + "/" + ""));
    SplitPiece("raster_data", category + "/" + "");
    SplitPiece(category, "");
  }

  // ---------------------------------------------------------------------
  // Categories and units
  // ---------------------------------------------------------------------

  /** What `getCategories` resolves to when the request fails. */
  const FallbackCategories: seq<string> := [
    "Rainfall", "Temperature", "Population", "Vegetation",
    "Air Quality", "Water Resources", "Soil Health", "Land Use"]

  /** `getUnitsForCategory`: a unit for each of the eight names, `""` for anything else. */
  function UnitsForCategory(category: string): (units: string)
    ensures units == "" <==> category !in FallbackCategories
  {
    if category == "Rainfall" then "mm"
    else if category == "Temperature" then "°C"
    else if category == "Population" then "people/km²"
    else if category == "Vegetation" then "NDVI"
    else if category == "Air Quality" then "AQI"
    else if category == "Water Resources" then "km³"
    else if category == "Soil Health" then "index"
    else if category == "Land Use" then "category"
    else ""
  }

  // ---------------------------------------------------------------------
  // Fallback raster files
  // ---------------------------------------------------------------------

  /** Mock file `i` (1-based) of a category. */
  function MockFile(category: string, i: nat): RasterFile {
    var n := NatToString(i);
    RasterFile(ToLower(category) + "_" + n,
               category + " Data " + n,
               Some("Sample " + ToLower(category) + " data file " + n))
  }

  /** What `getRasterFiles(category)` resolves to when the request fails: five mock files. */
  function FallbackRasterFiles(category: string): (files: seq<RasterFile>)
    ensures |files| == 5
    ensures forall i :: 0 <= i < 5 ==> files[i] == MockFile(category, i + 1)
  {
    seq(5, i requires 0 <= i < 5 => MockFile(category, i + 1))
  }

  /**
   * The five mock files have five different ids, each the lower-cased
   * category, `_` and the file's number, so a lookup by id finds one file.
   */
  lemma FallbackFileIds(category: string)
    ensures forall i :: 0 <= i < 5 ==>
      FallbackRasterFiles(category)[i].id == ToLower(category) + "_" + [DecimalDigit(i + 1)]
    ensures forall i, j :: 0 <= i < j < 5 ==>
      FallbackRasterFiles(category)[i].id != FallbackRasterFiles(category)[j].id
  {
    var files := FallbackRasterFiles(category);
    forall i, j | 0 <= i < j < 5
      ensures files[i].id != files[j].id
    {
      var a, b := files[i].id, files[j].id;
      assert a[|a| - 1] == DecimalDigit(i + 1) && b[|b| - 1] == DecimalDigit(j + 1);
    }
  }

  // ---------------------------------------------------------------------
  // Fallback metadata
  // ---------------------------------------------------------------------

  /** The mock `max`: matched on the exact category name. */
  function MockMax(category: string): (m: real)
    ensures m > 0.0
    ensures m == 100.0 <==> category != "Temperature" && category != "Rainfall" && category != "Population"
  {
    if category == "Temperature" then 50.0
    else if category == "Rainfall" then 3000.0
    else if category == "Population" then 10000.0
    else 100.0
  }

  /**
   * What `getRasterMetadata(category, fileId)` resolves to when the request
   * fails.  `today` is the ISO date of the moment of the call.
   */
  function FallbackMetadata(category: string, today: string): (m: RasterMetadata)
    ensures m.min == Some(0.0) && m.noData == Some(-9999.0)
    ensures m.max == Some(MockMax(category)) && m.max.value > 0.0
    ensures m.units == Some(UnitsForCategory(category))
    ensures m.description == Some("Sample " + category + " data for demonstration purposes")
    ensures m.source == Some("Sample Data") && m.resolution == Some("1km")
    ensures m.date == Some(today)
  {
    RasterMetadata(
      min := Some(0.0),
      max := Some(MockMax(category)),
      noData := Some(-9999.0),
      description := Some("Sample " + category + " data for demonstration purposes"),
      units := Some(UnitsForCategory(category)),
      source := Some("Sample Data"),
      date := Some(today),
      resolution := Some("1km"))
  }

  /**
   * The viewer asks for metadata with the category's id ("temperature"),
   * not its name ("Temperature"): every fallback then has `max == 100`.
   */
  lemma FallbackMetadataForIds(today: string)
    ensures forall id | id in ["rainfall", "temperature", "population", "vegetation",
                               "air-quality", "water-resources", "soil-health", "land-use"] ::
      FallbackMetadata(id, today).max == Some(100.0) && FallbackMetadata(id, today).units == Some("")
  {
  }
}
