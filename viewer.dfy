/**
 * The viewer's state and its transitions (raster_display.tsx): the map
 * state and display settings the component keeps, creating the raster
 * layer for a decoded raster (`processGeoRaster`), changing one display
 * setting, and re-rendering the loaded raster when settings are applied.
 *
 * The Leaflet map is reduced to what these operations do to it: which
 * raster layer is on it and which view it shows.  Two answers of Leaflet
 * are inputs: whether the bounds are valid (`isValid()`) and whether
 * `fitBounds` returns normally.
 */
module Viewer {
  import opened Wrappers
  import opened RasterTypes
  import opened Classifier
  import RasterApi
  import Text

  const IndiaCenter: LatLng := LatLng(20.5937, 78.9629)
  const IndiaZoom: int := 5
  /** The zoom of the view used when `fitBounds` throws. */
  const FitFailureZoom: int := 6

  /** What the map shows: a centre and zoom, or bounds fitted with a maximum zoom. */
  datatype View = Centered(center: LatLng, zoom: int) | Fitted(bounds: Bounds, maxZoom: int)

  datatype NoticeKind = Success | Error | Info | Warning

  /** A toast shown to the user. */
  datatype Notice = Notice(kind: NoticeKind, message: string)

  datatype MapState = MapState(
    currentRasterLayer: Option<RasterLayer>,
    currentRasterBounds: Option<Bounds>,
    currentCategory: Option<string>,
    currentRasterFile: Option<string>,
    rasterMetadata: Option<RasterMetadata>,
    currentGeoRaster: Option<GeoRaster>,
    mapRotation: int)

  datatype DisplaySettings = DisplaySettings(
    opacity: int,
    legendCount: int,
    zoomLevel: int,
    showCompass: bool,
    showGrid: bool,
    showLegend: bool)

  const InitialMapState: MapState := MapState(None, None, None, None, None, None, 0)

  const InitialSettings: DisplaySettings := DisplaySettings(10, 5, 8, true, true, true)

  /** One display setting with its new value, as a settings control sends it. */
  datatype Setting =
    | Opacity(opacity: int)
    | LegendCount(legendCount: int)
    | ZoomLevel(zoomLevel: int)
    | ShowCompass(showCompass: bool)
    | ShowGrid(showGrid: bool)
    | ShowLegend(showLegend: bool)

  /** The ranges of the sliders: opacity 1..10, legend items 2..10, zoom 5..16. */
  predicate SettingInRange(setting: Setting) {
    match setting
    case Opacity(o) => 1 <= o <= 10
    case LegendCount(n) => 2 <= n <= 10
    case ZoomLevel(z) => 5 <= z <= 16
    case _ => true
  }

  predicate SettingsInRange(s: DisplaySettings) {
    1 <= s.opacity <= 10 && 2 <= s.legendCount <= 10 && 5 <= s.zoomLevel <= 16
  }

  /** `{ ...prev, [key]: value }`. */
  function WithSetting(s: DisplaySettings, setting: Setting): DisplaySettings {
    match setting
    case Opacity(o) => s.(opacity := o)
    case LegendCount(n) => s.(legendCount := n)
    case ZoomLevel(z) => s.(zoomLevel := z)
    case ShowCompass(c) => s.(showCompass := c)
    case ShowGrid(g) => s.(showGrid := g)
    case ShowLegend(l) => s.(showLegend := l)
  }

  /** The layer `processGeoRaster` creates with the settings of the moment. */
  function MakeLayer(georaster: GeoRaster, metadata: RasterMetadata, categoryName: string,
                     settings: DisplaySettings): RasterLayer
  {
    RasterLayer(georaster, LayerOpacity(settings.opacity), categoryName, metadata, settings.legendCount)
  }

  /**
   * The view after zooming to the layer: fitted when there are bounds and
   * Leaflet calls them valid, the fixed fallback view when fitting throws,
   * and the current view otherwise.
   */
  function FitView(current: View, bounds: Option<Bounds>, boundsValid: bool, fitSucceeds: bool,
                   maxZoom: int): (v: View)
    ensures bounds.None? || !boundsValid ==> v == current
    ensures bounds.Some? && boundsValid && fitSucceeds ==> v == Fitted(bounds.value, maxZoom)
    ensures bounds.Some? && boundsValid && !fitSucceeds ==> v == Centered(IndiaCenter, FitFailureZoom)
  {
    if bounds.Some? && boundsValid then
      if fitSucceeds then Fitted(bounds.value, maxZoom) else Centered(IndiaCenter, FitFailureZoom)
    else current
  }

  // ---------------------------------------------------------------------
  // The whole state and its transitions, as values
  // ---------------------------------------------------------------------

  /**
   * Everything the operations read or change.  `mapReady` is whether the
   * Leaflet map exists; `layerLibraryLoaded` whether GeoRasterLayer has
   * been registered; `shownLayer` the raster layer added to the map.
   */
  datatype ViewerState = ViewerState(
    mapState: MapState,
    displaySettings: DisplaySettings,
    mapReady: bool,
    layerLibraryLoaded: bool,
    shownLayer: Option<RasterLayer>,
    view: View,
    notices: seq<Notice>)

  /**
   * The invariant the transitions keep: settings within the sliders'
   * ranges; the current layer belongs to the current raster, carries its
   * bounds and a legend count the classifier accepts; the map shows no
   * layer other than the current one.
   */
  predicate Consistent(s: ViewerState) {
    && SettingsInRange(s.displaySettings)
    && (s.mapState.currentRasterLayer.Some? ==>
          var layer := s.mapState.currentRasterLayer.value;
          && s.mapState.currentGeoRaster == Some(layer.georaster)
          && s.mapState.currentRasterBounds == RasterBounds(layer.georaster)
          && 2 <= layer.legendCount <= 10
          && 0.1 <= layer.opacity <= 1.0)
    && (s.shownLayer.Some? ==> s.shownLayer == s.mapState.currentRasterLayer)
  }

  const LibraryMissing: Notice := Notice(Error, "GeoRasterLayer library not loaded")

  const LoadFirst: Notice := Notice(Warning, "Load raster data first before applying settings")

  /** `processGeoRaster(georaster, metadata, categoryName)`. */
  function Process(s: ViewerState, georaster: GeoRaster, metadata: RasterMetadata, categoryName: string,
                   boundsValid: bool, fitSucceeds: bool): ViewerState
  {
    if !s.mapReady then s
    else if !s.layerLibraryLoaded then s.(shownLayer := None, notices := s.notices + [LibraryMissing])
    else
      var layer := MakeLayer(georaster, metadata, categoryName, s.displaySettings);
      var bounds := RasterBounds(georaster);
      s.(mapState := s.mapState.(currentRasterLayer := Some(layer),
                                 currentRasterBounds := bounds,
                                 currentGeoRaster := Some(georaster)),
         shownLayer := Some(layer),
         view := FitView(s.view, bounds, boundsValid, fitSucceeds, s.displaySettings.zoomLevel))
  }

  /**
   * Re-rendering proceeds only with a map, a raster, its metadata and a
   * category name; an empty name is falsy and stops it too.
   */
  predicate CanRerender(s: ViewerState) {
    && s.mapReady
    && s.mapState.currentGeoRaster.Some?
    && s.mapState.rasterMetadata.Some?
    && s.mapState.currentCategory.Some?
    && s.mapState.currentCategory.value != ""
  }

  /** `rerenderRasterLayer()`: processes the stored raster again; nothing is fetched. */
  function Rerender(s: ViewerState, boundsValid: bool, fitSucceeds: bool): ViewerState {
    if CanRerender(s) then
      Process(s, s.mapState.currentGeoRaster.value, s.mapState.rasterMetadata.value,
              s.mapState.currentCategory.value, boundsValid, fitSucceeds)
    else s
  }

  /** `applySettings()`: re-renders when a raster is loaded, warns otherwise. */
  function ApplySettings(s: ViewerState, boundsValid: bool, fitSucceeds: bool): ViewerState {
    if s.mapState.currentGeoRaster.Some? then Rerender(s, boundsValid, fitSucceeds)
    else s.(notices := s.notices + [LoadFirst])
  }

  /** `updateDisplaySetting(key, value)`. */
  function UpdateSetting(s: ViewerState, setting: Setting): ViewerState {
    s.(displaySettings := WithSetting(s.displaySettings, setting))
  }

  /** How a raster request ended once its metadata had arrived. */
  datatype RasterOutcome =
    | Decoded(georaster: GeoRaster)   // fetched and parsed
    | ParserMissing                   // fetched, but no parser was registered
    | Failed(message: string)         // fetching or parsing rejected; `message` is the reason's
                                      // `message`, "undefined" for a non-null reason without one
    | HandlerThrew                    // the reason was `null` or `undefined`, so reading its
                                      // `message` threw inside the failure handler

  /**
   * The state changes of `fetchRasterData` after its metadata request
   * resolved: the category, file name and metadata are stored first, then
   * the raster is processed if it was decoded.  A rejection whose reason
   * is `null` or `undefined` makes the failure handler throw; it ends in
   * the outer handler, whose notice blames the metadata although the
   * metadata was stored.
   */
  function RasterLoaded(s: ViewerState, categoryName: string, fileName: string, metadata: RasterMetadata,
                        outcome: RasterOutcome, boundsValid: bool, fitSucceeds: bool): ViewerState
  {
    var s1 := s.(mapState := s.mapState.(currentCategory := Some(categoryName),
                                         currentRasterFile := Some(fileName),
                                         rasterMetadata := Some(metadata)));
    match outcome
    case Decoded(g) =>
      var s2 := Process(s1, g, metadata, categoryName, boundsValid, fitSucceeds);
      s2.(notices := s2.notices + [Notice(Success, "Raster data for " + fileName + " loaded successfully")])
    case ParserMissing =>
      s1.(notices := s1.notices + [Notice(Success, "Raster data for " + fileName + " loaded successfully")])
    case Failed(message) =>
      s1.(notices := s1.notices + [Notice(Error, "Failed to process raster data: " + message)])
    case HandlerThrew =>
      s1.(notices := s1.notices + [Notice(Error, "Failed to load metadata for " + fileName)])
  }

  /** `items.find(x => idOf(x) === id)`: the first item with that id. */
  function FindFirst<T>(items: seq<T>, idOf: T -> string, id: string): (r: Option<T>)
    ensures r.None? <==> forall i :: 0 <= i < |items| ==> idOf(items[i]) != id
    ensures r.Some? ==> exists i :: 0 <= i < |items| && items[i] == r.value
                          && idOf(r.value) == id
                          && forall j :: 0 <= j < i ==> idOf(items[j]) != id
  {
    if items == [] then None
    else if idOf(items[0]) == id then Some(items[0])
    else
      var r := FindFirst(items[1..], idOf, id);
      assert forall i :: 1 <= i < |items| ==> items[i] == items[1..][i - 1];
      r
  }

  function CategoryId(c: RasterCategory): string { c.id }

  function FileId(f: RasterFile): string { f.id }

  /** The categories the viewer lists when loading them throws: ids with display names. */
  const FallbackCategoryList: seq<RasterCategory> := [
    RasterCategory("rainfall", "Rainfall"),
    RasterCategory("temperature", "Temperature"),
    RasterCategory("population", "Population"),
    RasterCategory("vegetation", "Vegetation"),
    RasterCategory("air-quality", "Air Quality"),
    RasterCategory("water-resources", "Water Resources"),
    RasterCategory("soil-health", "Soil Health"),
    RasterCategory("land-use", "Land Use")]

  /**
   * A raster chosen from the fallback list is drawn with its category's own
   * gradient: the lookup by id yields the display name, and every display
   * name has a palette entry.
   */
  lemma FallbackCategoriesHavePalettes(c: RasterCategory)
    requires c in FallbackCategoryList
    ensures var r := FindFirst(FallbackCategoryList, CategoryId, c.id);
      r.Some? && BaseColors(r.value.name) != DefaultGradient
  {
    var j :| 0 <= j < |FallbackCategoryList| && FallbackCategoryList[j] == c;
    assert CategoryId(FallbackCategoryList[j]) == c.id;
    var found := FindFirst(FallbackCategoryList, CategoryId, c.id).value;
    var i :| 0 <= i < |FallbackCategoryList| && FallbackCategoryList[i] == found;
    FallbackNamesArePalettes(i);
  }

  lemma FallbackNamesArePalettes(i: nat)
    requires i < |FallbackCategoryList|
    ensures FallbackCategoryList[i].name == PaletteCategories[i]
  {
  }

  /**
   * `fetchRasterData(categoryId, fileId)` with the answers of its requests
   * as inputs: the metadata and the outcome of the raster request.  The
   * metadata request never rejects: when it fails, the service answers
   * `RasterApi.FallbackMetadata(categoryId, today)` instead.  The category
   * and the file are looked up by id among those the viewer has listed.
   */
  function FetchRaster(s: ViewerState, categories: seq<RasterCategory>, files: seq<RasterFile>,
                       categoryId: string, fileId: string, metadata: RasterMetadata,
                       outcome: RasterOutcome, boundsValid: bool, fitSucceeds: bool): ViewerState
  {
    var category := FindFirst(categories, CategoryId, categoryId);
    var file := FindFirst(files, FileId, fileId);
    if category.None? || file.None? then
      s.(notices := s.notices + [Notice(Error, "Category or file not found")])
    else
      RasterLoaded(s, category.value.name, file.value.name, metadata, outcome, boundsValid, fitSucceeds)
  }

  /**
   * `fetchRasterFiles(categoryId)`: the category is looked up by id and its
   * name becomes the current category at once, before the file listing
   * arrives; the loaded raster, its metadata and the layer stay as they
   * were.  `listed` is the length of the listing, `None` when the answer
   * has no length (a `null` body), which ends in the error handler.
   */
  function SelectCategory(s: ViewerState, categories: seq<RasterCategory>, categoryId: string,
                          listed: Option<nat>): ViewerState
  {
    var category := FindFirst(categories, CategoryId, categoryId);
    if category.None? then
      s.(notices := s.notices + [Notice(Error, "Category not found")])
    else
      var name := category.value.name;
      var s1 := s.(mapState := s.mapState.(currentCategory := Some(name)));
      if listed.Some? then
        s1.(notices := s1.notices + [Notice(Success, Text.NatToString(listed.value) + " raster files found for " + name)])
      else
        s1.(notices := s1.notices + [Notice(Error, "Failed to load raster files for " + name)])
  }

  // ---------------------------------------------------------------------
  // What the transitions promise
  // ---------------------------------------------------------------------

  /** Processing a raster keeps the invariant. */
  lemma ProcessKeepsConsistent(s: ViewerState, georaster: GeoRaster, metadata: RasterMetadata,
                               categoryName: string, boundsValid: bool, fitSucceeds: bool)
    requires Consistent(s)
    ensures Consistent(Process(s, georaster, metadata, categoryName, boundsValid, fitSucceeds))
  {
    if s.mapReady && s.layerLibraryLoaded {
      var layer := MakeLayer(georaster, metadata, categoryName, s.displaySettings);
      assert 0.1 <= layer.opacity <= 1.0;
    }
  }

  /** So do re-rendering and applying settings. */
  lemma RerenderKeepsConsistent(s: ViewerState, boundsValid: bool, fitSucceeds: bool)
    requires Consistent(s)
    ensures Consistent(Rerender(s, boundsValid, fitSucceeds))
    ensures Consistent(ApplySettings(s, boundsValid, fitSucceeds))
  {
    if CanRerender(s) {
      ProcessKeepsConsistent(s, s.mapState.currentGeoRaster.value, s.mapState.rasterMetadata.value,
                             s.mapState.currentCategory.value, boundsValid, fitSucceeds);
    }
  }

  /** So does loading a raster, whatever the outcome of the request. */
  lemma LoadKeepsConsistent(s: ViewerState, categoryName: string, fileName: string, metadata: RasterMetadata,
                            outcome: RasterOutcome, boundsValid: bool, fitSucceeds: bool)
    requires Consistent(s)
    ensures Consistent(RasterLoaded(s, categoryName, fileName, metadata, outcome, boundsValid, fitSucceeds))
  {
    var s1 := s.(mapState := s.mapState.(currentCategory := Some(categoryName),
                                         currentRasterFile := Some(fileName),
                                         rasterMetadata := Some(metadata)));
    assert Consistent(s1);
    if outcome.Decoded? {
      ProcessKeepsConsistent(s1, outcome.georaster, metadata, categoryName, boundsValid, fitSucceeds);
    }
  }

  /** So does a whole raster request. */
  lemma FetchKeepsConsistent(s: ViewerState, categories: seq<RasterCategory>, files: seq<RasterFile>,
                             categoryId: string, fileId: string, metadata: RasterMetadata,
                             outcome: RasterOutcome, boundsValid: bool, fitSucceeds: bool)
    requires Consistent(s)
    ensures Consistent(FetchRaster(s, categories, files, categoryId, fileId, metadata, outcome,
                                   boundsValid, fitSucceeds))
  {
    var category := FindFirst(categories, CategoryId, categoryId);
    var file := FindFirst(files, FileId, fileId);
    if category.Some? && file.Some? {
      LoadKeepsConsistent(s, category.value.name, file.value.name, metadata, outcome,
                          boundsValid, fitSucceeds);
    }
  }

  /** A setting within its slider's range keeps the invariant. */
  lemma UpdateKeepsConsistent(s: ViewerState, setting: Setting)
    requires Consistent(s) && SettingInRange(setting)
    ensures Consistent(UpdateSetting(s, setting))
  {
  }

  /** Without a loaded raster, applying settings only adds the warning. */
  lemma ApplyWithoutRasterOnlyWarns(s: ViewerState, boundsValid: bool, fitSucceeds: bool)
    requires s.mapState.currentGeoRaster.None?
    ensures ApplySettings(s, boundsValid, fitSucceeds) == s.(notices := s.notices + [LoadFirst])
  {
  }

  /** Missing metadata, category or map: re-rendering changes nothing. */
  lemma RerenderGated(s: ViewerState, boundsValid: bool, fitSucceeds: bool)
    requires !CanRerender(s)
    ensures Rerender(s, boundsValid, fitSucceeds) == s
  {
  }

  /**
   * Re-rendering reuses the stored raster and metadata: the new layer is
   * built from them, the category and the settings in force, the stored
   * metadata is untouched, and the view is fitted to the raster again.
   */
  lemma RerenderReusesRaster(s: ViewerState, boundsValid: bool, fitSucceeds: bool)
    requires CanRerender(s) && s.layerLibraryLoaded
    ensures var r := Rerender(s, boundsValid, fitSucceeds);
      var g := s.mapState.currentGeoRaster.value;
      && r.shownLayer == Some(MakeLayer(g, s.mapState.rasterMetadata.value,
                                        s.mapState.currentCategory.value, s.displaySettings))
      && r.mapState.currentGeoRaster == s.mapState.currentGeoRaster
      && r.mapState.rasterMetadata == s.mapState.rasterMetadata
      && r.mapState.currentCategory == s.mapState.currentCategory
      && r.displaySettings == s.displaySettings
      && r.view == FitView(s.view, RasterBounds(g), boundsValid, fitSucceeds, s.displaySettings.zoomLevel)
  {
  }

  /** A settings change alone does not touch the layer on the map. */
  lemma UpdateDoesNotRerender(s: ViewerState, setting: Setting)
    ensures UpdateSetting(s, setting).shownLayer == s.shownLayer
    ensures UpdateSetting(s, setting).mapState == s.mapState
    ensures UpdateSetting(s, setting).view == s.view
  {
  }

  /**
   * Changing the legend count and applying it recolours the loaded raster
   * with that many colours, without another request: the layer on the map
   * then classifies into a ramp of exactly `n` colours of the same category.
   */
  lemma {:induction false} LegendChangeReclassifies(s: ViewerState, n: int, boundsValid: bool, fitSucceeds: bool)
    requires Consistent(s) && CanRerender(s) && s.layerLibraryLoaded
    requires 2 <= n <= 10
    ensures var r := ApplySettings(UpdateSetting(s, LegendCount(n)), boundsValid, fitSucceeds);
      && r.shownLayer.Some?
      && r.shownLayer.value.legendCount == n
      && r.shownLayer.value.georaster == s.mapState.currentGeoRaster.value
      && r.shownLayer.value.metadata == s.mapState.rasterMetadata.value
      && |CategoryScale(r.shownLayer.value.categoryName, r.shownLayer.value.legendCount)| == n
  {
    var u := UpdateSetting(s, LegendCount(n));
    assert u.displaySettings.legendCount == n;
    RerenderReusesRaster(u, boundsValid, fitSucceeds);
  }

  /** Loading a decoded raster shows a layer bound to that raster, its metadata and category. */
  lemma LoadedRasterIsShown(s: ViewerState, categoryName: string, fileName: string, metadata: RasterMetadata,
                            g: GeoRaster, boundsValid: bool, fitSucceeds: bool)
    requires s.mapReady && s.layerLibraryLoaded && categoryName != ""
    ensures var r := RasterLoaded(s, categoryName, fileName, metadata, Decoded(g), boundsValid, fitSucceeds);
      && r.shownLayer == Some(MakeLayer(g, metadata, categoryName, s.displaySettings))
      && r.mapState.rasterMetadata == Some(metadata)
      && r.mapState.currentCategory == Some(categoryName)
      && CanRerender(r)
  {
  }

  /** Choosing a category keeps the invariant. */
  lemma SelectKeepsConsistent(s: ViewerState, categories: seq<RasterCategory>, categoryId: string,
                              listed: Option<nat>)
    requires Consistent(s)
    ensures Consistent(SelectCategory(s, categories, categoryId, listed))
  {
  }

  /**
   * Choosing another category changes only the current category name; an
   * Apply that follows re-classifies the raster already loaded, with its
   * old metadata, under the new category's palette.
   */
  lemma SelectThenApplyRecolours(s: ViewerState, categories: seq<RasterCategory>, categoryId: string,
                                 listed: Option<nat>, boundsValid: bool, fitSucceeds: bool)
    requires CanRerender(s) && s.layerLibraryLoaded
    requires FindFirst(categories, CategoryId, categoryId).Some?
    requires FindFirst(categories, CategoryId, categoryId).value.name != ""
    ensures var name := FindFirst(categories, CategoryId, categoryId).value.name;
      var u := SelectCategory(s, categories, categoryId, listed);
      var r := ApplySettings(u, boundsValid, fitSucceeds);
      && u.mapState == s.mapState.(currentCategory := Some(name))
      && u.shownLayer == s.shownLayer && u.view == s.view && u.displaySettings == s.displaySettings
      && r.shownLayer == Some(MakeLayer(s.mapState.currentGeoRaster.value, s.mapState.rasterMetadata.value,
                                        name, s.displaySettings))
      && r.mapState.currentGeoRaster == s.mapState.currentGeoRaster
      && r.mapState.rasterMetadata == s.mapState.rasterMetadata
  {
    var u := SelectCategory(s, categories, categoryId, listed);
    RerenderReusesRaster(u, boundsValid, fitSucceeds);
  }

  /**
   * When the metadata request fails, the service's fallback takes its place
   * and the raster is still drawn.  The viewer passes the category's id,
   * which never matches the capitalised names the fallback tests, so the
   * layer is classified against the range `[0, 100]`.
   */
  lemma FallbackFetchShowsLayer(s: ViewerState, category: RasterCategory, files: seq<RasterFile>, file: RasterFile,
                                today: string, g: GeoRaster, boundsValid: bool, fitSucceeds: bool)
    requires category in FallbackCategoryList && file in files
    requires s.mapReady && s.layerLibraryLoaded
    ensures var m := RasterApi.FallbackMetadata(category.id, today);
      var r := FetchRaster(s, FallbackCategoryList, files, category.id, file.id, m, Decoded(g),
                           boundsValid, fitSucceeds);
      && r.shownLayer.Some?
      && r.shownLayer.value.georaster == g
      && r.shownLayer.value.metadata == m
      && r.shownLayer.value.categoryName == FindFirst(FallbackCategoryList, CategoryId, category.id).value.name
      && RangeUsable(m) && RangeLow(m) == 0.0 && RangeHigh(m) == 100.0
  {
    FallbackCategoriesHavePalettes(category);
    var c := FindFirst(FallbackCategoryList, CategoryId, category.id).value;
    var j :| 0 <= j < |files| && files[j] == file;
    assert FileId(files[j]) == file.id;
    var f := FindFirst(files, FileId, file.id).value;
    var m := RasterApi.FallbackMetadata(category.id, today);
    FallbackIdsGetDefaultMax(category);
    assert m.max == Some(100.0);
    assert c.name != "";
    LoadedRasterIsShown(s, c.name, f.name, m, g, boundsValid, fitSucceeds);
  }

  /** Every fallback id is lower case, so the mock metadata's `max` is 100. */
  lemma FallbackIdsGetDefaultMax(c: RasterCategory)
    requires c in FallbackCategoryList
    ensures RasterApi.MockMax(c.id) == 100.0
  {
    var i :| 0 <= i < |FallbackCategoryList| && FallbackCategoryList[i] == c;
    FallbackIdsLowerCase(i);
    assert c.id != "Temperature" by { assert "Temperature"[0] == 'T'; }
    assert c.id != "Rainfall" by { assert "Rainfall"[0] == 'R'; }
    assert c.id != "Population" by { assert "Population"[0] == 'P'; }
  }

  lemma FallbackIdsLowerCase(i: nat)
    requires i < |FallbackCategoryList|
    ensures |FallbackCategoryList[i].id| > 0 && 'a' <= FallbackCategoryList[i].id[0] <= 'z'
  {
    var ids := ["rainfall", "temperature", "population", "vegetation",
                "air-quality", "water-resources", "soil-health", "land-use"];
    assert FallbackCategoryList[i].id == ids[i];
    assert ids[i][0] == "rtpvawsl"[i];
  }

  // ---------------------------------------------------------------------
  // The component
  // ---------------------------------------------------------------------

  class RasterViewerComponent {
    var mapState: MapState
    var displaySettings: DisplaySettings
    var mapReady: bool
    var layerLibraryLoaded: bool
    var shownLayer: Option<RasterLayer>
    var view: View
    var notices: seq<Notice>

    function State(): ViewerState
      reads this
    {
      ViewerState(mapState, displaySettings, mapReady, layerLibraryLoaded, shownLayer, view, notices)
    }

    ghost predicate Valid()
      reads this
    {
      Consistent(State())
    }

    /** The component's first render: initial state, map centred on India. */
    constructor (mapReady: bool, layerLibraryLoaded: bool)
      ensures Valid()
      ensures State() == ViewerState(InitialMapState, InitialSettings, mapReady, layerLibraryLoaded,
                                     None, Centered(IndiaCenter, IndiaZoom), [])
    {
      this.mapState := InitialMapState;
      this.displaySettings := InitialSettings;
      this.mapReady := mapReady;
      this.layerLibraryLoaded := layerLibraryLoaded;
      this.shownLayer := None;
      this.view := Centered(IndiaCenter, IndiaZoom);
      this.notices := [];
    }

    /**
     * `processGeoRaster`: removes the current layer from the map, creates
     * the new layer with the current opacity and legend count, records it
     * with the raster and its bounds, and zooms to the bounds.
     */
    method ProcessGeoRaster(georaster: GeoRaster, metadata: RasterMetadata, categoryName: string,
                            boundsValid: bool, fitSucceeds: bool)
      requires Valid()
      modifies this
      ensures Valid()
      ensures State() == Process(old(State()), georaster, metadata, categoryName, boundsValid, fitSucceeds)
    {
      if !mapReady {
        return;
      }
      if shownLayer.Some? {
        shownLayer := None;
      }
      var opacity := LayerOpacity(displaySettings.opacity);
      if !layerLibraryLoaded {
        notices := notices + [LibraryMissing];
        return;
      }
      var rasterLayer := RasterLayer(georaster, opacity, categoryName, metadata, displaySettings.legendCount);
      var rasterBounds := RasterBounds(georaster);
      shownLayer := Some(rasterLayer);
      mapState := mapState.(currentRasterLayer := Some(rasterLayer),
                            currentRasterBounds := rasterBounds,
                            currentGeoRaster := Some(georaster));
      if rasterBounds.Some? && boundsValid {
        if fitSucceeds {
          view := Fitted(rasterBounds.value, displaySettings.zoomLevel);
        } else {
          view := Centered(IndiaCenter, FitFailureZoom);
        }
      }
    }

    /** `updateDisplaySetting`: replaces one setting; nothing is re-rendered. */
    method UpdateDisplaySetting(setting: Setting)
      requires Valid() && SettingInRange(setting)
      modifies this`displaySettings
      ensures Valid()
      ensures State() == UpdateSetting(old(State()), setting)
    {
      displaySettings := WithSetting(displaySettings, setting);
    }

    /** `rerenderRasterLayer`: processes the stored raster again when map, raster, metadata and category are all there. */
    method RerenderRasterLayer(boundsValid: bool, fitSucceeds: bool)
      requires Valid()
      modifies this
      ensures Valid()
      ensures State() == Rerender(old(State()), boundsValid, fitSucceeds)
    {
      if mapState.currentGeoRaster.None? || !mapReady {
        return;
      }
      var georaster := mapState.currentGeoRaster.value;
      if mapState.rasterMetadata.None? || mapState.currentCategory.None? || mapState.currentCategory.value == "" {
        return;
      }
      var metadata := mapState.rasterMetadata.value;
      var categoryName := mapState.currentCategory.value;
      ProcessGeoRaster(georaster, metadata, categoryName, boundsValid, fitSucceeds);
    }

    /** `applySettings`: re-renders a loaded raster, or warns. */
    method ApplySettingsToRaster(boundsValid: bool, fitSucceeds: bool)
      requires Valid()
      modifies this
      ensures Valid()
      ensures State() == ApplySettings(old(State()), boundsValid, fitSucceeds)
    {
      if mapState.currentGeoRaster.Some? {
        RerenderRasterLayer(boundsValid, fitSucceeds);
      } else {
        notices := notices + [LoadFirst];
      }
    }

    /** `fetchRasterFiles`, with the length of the listing as input. */
    method FetchRasterFiles(categories: seq<RasterCategory>, categoryId: string, listed: Option<nat>)
      requires Valid()
      modifies this
      ensures Valid()
      ensures State() == SelectCategory(old(State()), categories, categoryId, listed)
    {
      var category := FindFirst(categories, CategoryId, categoryId);
      if category.None? {
        notices := notices + [Notice(Error, "Category not found")];
        return;
      }
      var name := category.value.name;
      mapState := mapState.(currentCategory := Some(name));
      if listed.Some? {
        notices := notices + [Notice(Success, Text.NatToString(listed.value) + " raster files found for " + name)];
      } else {
        notices := notices + [Notice(Error, "Failed to load raster files for " + name)];
      }
    }

    /** `fetchRasterData`, with the answers of its two requests as inputs. */
    method FetchRasterData(categories: seq<RasterCategory>, files: seq<RasterFile>,
                           categoryId: string, fileId: string, metadata: RasterMetadata,
                           outcome: RasterOutcome, boundsValid: bool, fitSucceeds: bool)
      requires Valid()
      modifies this
      ensures Valid()
      ensures State() == FetchRaster(old(State()), categories, files, categoryId, fileId, metadata, outcome,
                                     boundsValid, fitSucceeds)
    {
      var category := FindFirst(categories, CategoryId, categoryId);
      var file := FindFirst(files, FileId, fileId);
      if category.None? || file.None? {
        notices := notices + [Notice(Error, "Category or file not found")];
        return;
      }
      LoadRaster(category.value.name, file.value.name, metadata, outcome, boundsValid, fitSucceeds);
    }

    /**
     * The part of `fetchRasterData` after the metadata arrived: records the
     * category, the file and the metadata, then handles the raster request.
     */
    method LoadRaster(categoryName: string, fileName: string, metadata: RasterMetadata,
                      outcome: RasterOutcome, boundsValid: bool, fitSucceeds: bool)
      requires Valid()
      modifies this
      ensures Valid()
      ensures State() == RasterLoaded(old(State()), categoryName, fileName, metadata, outcome,
                                      boundsValid, fitSucceeds)
    {
      LoadKeepsConsistent(State(), categoryName, fileName, metadata, outcome, boundsValid, fitSucceeds);
      mapState := mapState.(currentCategory := Some(categoryName),
                            currentRasterFile := Some(fileName),
                            rasterMetadata := Some(metadata));
      match outcome {
        case Decoded(g) =>
          ProcessGeoRaster(g, metadata, categoryName, boundsValid, fitSucceeds);
          notices := notices + [Notice(Success, "Raster data for " + fileName + " loaded successfully")];
        case ParserMissing =>
          notices := notices + [Notice(Success, "Raster data for " + fileName + " loaded successfully")];
        case Failed(message) =>
          notices := notices + [Notice(Error, "Failed to process raster data: " + message)];
        case HandlerThrew =>
          notices := notices + [Notice(Error, "Failed to load metadata for " + fileName)];
      }
    }
  }
}
