# India GIS raster viewer and population projection — a Dafny model

This project models the computational core of the India GIS decision-support
application. It covers three parts.

- **The raster viewer** (`raster_display.tsx`):
  - the colour classification engine: the category palette, linear
    interpolation of `#rrggbb` colours, and the bucketing of a pixel value
    into a legend colour;
  - the viewer's state, meaning the map state and the display settings, and
    the operations that change it: processing a raster, re-rendering it,
    applying settings, updating one setting, choosing a category, and fetching a raster.
- **The raster data service** (`rasterService.js`): the request URLs, the
  unit table, and the fallback values it returns when a request fails.
- **The population back end** (`service.py`, `views.py`):
  - the decadal growth rate of a set of subdistricts;
  - single-year and year-range projections of village populations;
  - the geometry echo;
  - the time-series endpoint;
  - the four location endpoints, which sort their rows by name.

Modules:

- `Wrappers` holds `Option` and `Result`.
- `Text` holds hex and decimal digits, `str(int)` with its inverse, ASCII lower-casing, and Python's string order.
- `ColorRamp` covers `interpolateColors`.
- `RasterTypes` holds the records the viewer exchanges with the service.
- `Classifier` covers `getColorScaleForCategory`, `getColorForValue` and the layer's pixel function.
- `RasterApi` covers `rasterService.js`.
- `Viewer` covers the component state and its transitions. It has two forms:
  - pure functions over a `ViewerState` value, with lemmas;
  - the class `RasterViewerComponent`, whose methods update its fields and are proved equal to those functions.
- `Population` covers `service.py`.
- `TimeSeries` covers `Time_series_Airthemitic`.
- `Locations` covers the location endpoints.

Number types:

- JavaScript and Python floating point is modelled as exact `real`.
- `Math.round(x)` is `floor(x + 0.5)`.
- Python's `int(x)` of a float truncates toward zero.
- `math.floor(d / 10)` of the mean decadal change is the floor of an exact quotient.

Things the model takes as parameters:

- whether Leaflet finds bounds valid and whether `fitBounds` throws;
- whether the GeoRasterLayer library is loaded;
- the answers of the metadata and raster requests;
- today's date;
- the database rows.

Where the code and its documentation disagree, the model follows the code:

- `rerenderRasterLayer` re-runs `processGeoRaster` in full, so a re-render also fits the view to the raster again (`Viewer.RerenderReusesRaster`).
- `getColorForValue` has no guard for `max == min`. JavaScript then divides by zero: a value above `min` gets `+Infinity`, which clamps to 1 and picks the last colour; a value below `min` gets `-Infinity`, which clamps to 0 and picks the first colour; `value == min` gives NaN, and `colors[NaN]` is `undefined`. The model requires a non-zero range (`RangeUsable`), as listed under "Left out".
- There is no token against a stale `fetchRasterData` answer. The model handles the answers in the order they are given.
- `interpolateColors` divides by `steps - 1`, so it needs `steps >= 2`. The legend slider's values (2..10) always meet this.
- The viewer asks for metadata with the category *id* (`"temperature"`). The fallback metadata matches on the *name* (`"Temperature"`). So every fallback has `max == 100` and `units == ""` (`RasterApi.FallbackMetadataForIds`).
- `getCategories` never throws: on failure it returns eight plain names. So the viewer's own fallback list of `{id, name}` objects (`raster_display.tsx:184-193`) is reached only if the service itself throws. On the service's plain strings, `categories.find(c => c.id === id)` finds nothing. The model's lookups take `RasterCategory` records, and the fallback list is `Viewer.FallbackCategoryList`.
- The range branch of `service.py` writes the projection outside its `if` (line 78). This is reported under "Findings".
- `getRasterMetadata` never rejects: a failed request resolves to mock metadata (`RasterApi.FallbackMetadata`), and the raster is still fetched and drawn (`Viewer.FallbackFetchShowsLayer`). The viewer's "Failed to load metadata" notice is reached only when the raster request rejects with a `null` or `undefined` reason: reading its `message` then throws inside the failure handler. The model calls that outcome `HandlerThrew`; the metadata is already stored by then. A non-null reason without a `message` does not throw: its notice reads "Failed to process raster data: undefined", which the model writes as `Failed("undefined")`.

## Model

| member | source | states |
|---|---|---|
| ColorRamp.FormatColor | frontend/app/dss/raster_visual/components/raster_display.tsx:440 | formatting a colour gives a lower-case `#rrggbb` string that parses back to the same colour |
| ColorRamp.FormatParseColor | frontend/app/dss/raster_visual/components/raster_display.tsx:417-427 | parsing a `#rrggbb` string with `parseInt(…,16)` and formatting it back gives the string lower-cased |
| ColorRamp.Round | frontend/app/dss/raster_visual/components/raster_display.tsx:437-439 | `Math.round` gives the integer within half a unit of its argument, with ties going up |
| ColorRamp.ChannelAt | frontend/app/dss/raster_visual/components/raster_display.tsx:430-439 | every interpolated channel lies between the channel's start and end values |
| ColorRamp.ChannelAtFirst | frontend/app/dss/raster_visual/components/raster_display.tsx:437 | the first step of a channel is its start value |
| ColorRamp.ChannelAtLast | frontend/app/dss/raster_visual/components/raster_display.tsx:430-439 | the last step of a channel is exactly its end value, whatever the rounding |
| ColorRamp.ChannelAtMonotone | frontend/app/dss/raster_visual/components/raster_display.tsx:430-439 | a channel moves monotonically from its start value toward its end value |
| ColorRamp.Ramp | frontend/app/dss/raster_visual/components/raster_display.tsx:435-443 | the ramp has `steps` colours, each a lower-case `#rrggbb` string |
| ColorRamp.InterpolateColors | frontend/app/dss/raster_visual/components/raster_display.tsx:415-444 | the loop builds the ramp: `steps` colours, the first equal to the start colour and the last equal to the end colour |
| ColorRamp.RampEndpoints | frontend/app/dss/raster_visual/components/raster_display.tsx:435-441 | the ramp begins at the start colour and ends at the end colour |
| ColorRamp.RampOfOneColor | frontend/app/dss/raster_visual/components/raster_display.tsx:430-441 | a ramp between a colour and itself repeats that colour |
| ColorRamp.RampChannelsBetween | frontend/app/dss/raster_visual/components/raster_display.tsx:435-441 | every colour of the ramp has each channel between the endpoints' channels |
| ColorRamp.RampMonotone | frontend/app/dss/raster_visual/components/raster_display.tsx:435-441 | along the ramp each channel changes in one direction only |
| Classifier.BaseColors | frontend/app/dss/raster_visual/components/raster_display.tsx:380-408 | the eight named categories have their own gradient; any other category falls back to the default blue gradient, and only then |
| Classifier.CategoryScale | frontend/app/dss/raster_visual/components/raster_display.tsx:376-412 | a category's scale has the requested number of colours |
| Classifier.ColorScaleForCategory | frontend/app/dss/raster_visual/components/raster_display.tsx:376-412 | the scale runs from the category's start colour to its end colour in `count` steps |
| Classifier.Clamp01 | frontend/app/dss/raster_visual/components/raster_display.tsx:364 | the clamp lies in [0, 1] and is the identity there |
| Classifier.BucketOf | frontend/app/dss/raster_visual/components/raster_display.tsx:365 | the colour index is always a valid index into the scale |
| Classifier.Normalized | frontend/app/dss/raster_visual/components/raster_display.tsx:359-369 | the normalised value lies in [0, 1] |
| Classifier.ColorIndex | frontend/app/dss/raster_visual/components/raster_display.tsx:359-371 | the colour index of any value is a valid index into a scale of `n` colours |
| Classifier.NormalizedAgainstRange | frontend/app/dss/raster_visual/components/raster_display.tsx:359-372 | both branches normalise against one interval: metadata `[min, max]`, or `[0, 100]` without it |
| Classifier.ColorIndexExtremes | frontend/app/dss/raster_visual/components/raster_display.tsx:359-372 | values at or below the range's low end get the first colour; values at or above its high end get the last colour |
| Classifier.ColorIndexBucket | frontend/app/dss/raster_visual/components/raster_display.tsx:363-365 | a value inside the range gets the index `k` of the one of `n` equal sub-intervals that contains it |
| Classifier.ColorIndexMonotone | frontend/app/dss/raster_visual/components/raster_display.tsx:359-372 | a larger value never gets an earlier colour |
| Classifier.ColorForValue | frontend/app/dss/raster_visual/components/raster_display.tsx:356-373 | the colour is the scale's entry at the bucket index; it is a valid colour; the extremes get the first and last colours |
| Classifier.LayerOpacity | frontend/app/dss/raster_visual/components/raster_display.tsx:287 | the opacity is the slider value divided by ten, so 1..10 maps into 0.1..1.0 |
| Classifier.PixelValuesToColor | frontend/app/dss/raster_visual/components/raster_display.tsx:300-307 | a pixel is transparent exactly when its first band equals the no-data value; otherwise it gets the classified colour of that band |
| Classifier.RasterBounds | frontend/app/dss/raster_visual/components/raster_display.tsx:311-324 | bounds exist exactly when the raster has a projection with a bbox; the corners are (south, west) and (north, east) |
| Classifier.RasterBoundsRoundTrip | frontend/app/dss/raster_visual/components/raster_display.tsx:314-323 | the bbox can be read back from the corner pair the model builds: the first corner is `(south, west)` and the second `(north, east)`, with no coordinate lost or swapped; Leaflet's own normalisation of the corners is not modelled |
| RasterApi.MetadataUrlPieces | frontend/services/rasterService.js:69 | the metadata URL is the base URL followed by the path pieces `metadata`, category and file id, each readable back |
| RasterApi.RasterDataUrlPieces | frontend/services/rasterService.js:101 | the raster-file URL is the base URL followed by `raster_file`, category and file id |
| RasterApi.RasterFilesUrlPieces | frontend/services/rasterService.js:45 | the file-listing URL is the base URL followed by `raster_data` and the category |
| RasterApi.UnitsForCategory | frontend/services/rasterService.js:117-129 | a category has a non-empty unit exactly when it is one of the eight fallback category names |
| RasterApi.FallbackRasterFiles | frontend/services/rasterService.js:53-57 | a failed file listing yields five mock files, numbered 1 to 5 |
| RasterApi.FallbackFileIds | frontend/services/rasterService.js:54 | the mock files' ids are the lower-cased category, `_` and the number, and they are pairwise distinct |
| RasterApi.FallbackCategories | frontend/services/rasterService.js:25-34 | a failed category listing yields these eight plain names |
| RasterApi.FallbackMetadata | frontend/services/rasterService.js:78-89 | failed metadata is the whole mock record: min 0, max `MockMax(category)` (50, 3000, 10000 or 100), no-data -9999, the sample description, the category's units, source "Sample Data", today's date and resolution "1km" |
| RasterApi.MockMax | frontend/services/rasterService.js:80-82 | the mock max is positive, and it is 100 exactly for names other than `Temperature`, `Rainfall` and `Population` |
| RasterApi.FallbackMetadataForIds | frontend/services/rasterService.js:80-85 | for every category id the viewer uses, the fallback max is 100 and the units are empty |
| Viewer.FitView | frontend/app/dss/raster_visual/components/raster_display.tsx:341-352 | the view is fitted to valid bounds with the zoom setting as maximum; it is India at zoom 6 when fitting throws; otherwise it is unchanged |
| Viewer.FindFirst | frontend/app/dss/raster_visual/components/raster_display.tsx:229-230 | the lookup of a category or a file fails exactly when no item has the id; otherwise it returns the first item with that id |
| Viewer.FallbackCategoriesHavePalettes | frontend/app/dss/raster_visual/components/raster_display.tsx:184-193 | every category found in the viewer's fallback list is drawn with its own gradient, not the default one |
| Viewer.FallbackCategoryList | frontend/app/dss/raster_visual/components/raster_display.tsx:184-193 | the viewer's own fallback categories: eight ids with their display names |
| Viewer.FallbackIdsGetDefaultMax | frontend/services/rasterService.js:80-82 | every id of the viewer's fallback list is lower case, so its mock metadata has the default max 100 |
| Viewer.FallbackFetchShowsLayer | frontend/app/dss/raster_visual/components/raster_display.tsx:240-257 | when the metadata request fails, the service's fallback metadata is stored and the decoded raster is still shown, classified against `[0, 100]` |
| Viewer.ProcessKeepsConsistent | frontend/app/dss/raster_visual/components/raster_display.tsx:276-353 | processing a raster keeps the invariant: the current layer belongs to the current raster and its bounds, and is the only layer shown |
| Viewer.RerenderKeepsConsistent | frontend/app/dss/raster_visual/components/raster_display.tsx:481-501 | re-rendering and applying settings keep the invariant |
| Viewer.LoadKeepsConsistent | frontend/app/dss/raster_visual/components/raster_display.tsx:242-266 | recording the metadata and processing the decoded raster keeps the invariant |
| Viewer.FetchKeepsConsistent | frontend/app/dss/raster_visual/components/raster_display.tsx:226-273 | every outcome of fetching a raster keeps the invariant |
| Viewer.UpdateKeepsConsistent | frontend/app/dss/raster_visual/components/raster_display.tsx:476-478 | setting one in-range display setting keeps the invariant |
| Viewer.ApplyWithoutRasterOnlyWarns | frontend/app/dss/raster_visual/components/raster_display.tsx:481-487 | applying settings with no raster loaded only adds the warning notice |
| Viewer.RerenderGated | frontend/app/dss/raster_visual/components/raster_display.tsx:490-497 | without a map, a raster, metadata and a category name, a re-render changes nothing |
| Viewer.RerenderReusesRaster | frontend/app/dss/raster_visual/components/raster_display.tsx:490-501 | a re-render shows a new layer over the same raster, metadata and category with the current settings, and fits the view again |
| Viewer.UpdateDoesNotRerender | frontend/app/dss/raster_visual/components/raster_display.tsx:476-478 | updating a setting leaves the map state, the shown layer and the view as they were |
| Viewer.LegendChangeReclassifies | frontend/app/dss/raster_visual/components/raster_display.tsx:300-307 | after a legend-count change and Apply, the shown layer classifies the same raster into exactly the new number of colours |
| Viewer.LoadedRasterIsShown | frontend/app/dss/raster_visual/components/raster_display.tsx:242-259 | a decoded raster is shown with the fetched metadata and category, and a later re-render is possible |
| Viewer.SelectKeepsConsistent | frontend/app/dss/raster_visual/components/raster_display.tsx:200-223 | choosing a category keeps the invariant |
| Viewer.SelectThenApplyRecolours | frontend/app/dss/raster_visual/components/raster_display.tsx:210 | choosing another category changes only the current category name, so a following Apply re-classifies the raster already loaded, with its old metadata, under the new category's palette |
| Viewer.RasterViewerComponent.constructor | frontend/app/dss/raster_visual/components/raster_display.tsx:57-83 | the component starts with the initial map state and settings (opacity 10, legend 5, zoom 8) centred on India at zoom 5 |
| Viewer.RasterViewerComponent.ProcessGeoRaster | frontend/app/dss/raster_visual/components/raster_display.tsx:276-353 | the fields change as the processing transition says, and the invariant holds |
| Viewer.RasterViewerComponent.UpdateDisplaySetting | frontend/app/dss/raster_visual/components/raster_display.tsx:476-478 | only the display settings change, in the one named setting |
| Viewer.RasterViewerComponent.RerenderRasterLayer | frontend/app/dss/raster_visual/components/raster_display.tsx:490-501 | the fields change as the re-render transition says, and the invariant holds |
| Viewer.RasterViewerComponent.ApplySettingsToRaster | frontend/app/dss/raster_visual/components/raster_display.tsx:481-487 | the fields change as applying settings says, and the invariant holds |
| Viewer.RasterViewerComponent.FetchRasterFiles | frontend/app/dss/raster_visual/components/raster_display.tsx:200-223 | the fields change as the select transition says: a lookup failure, or the new current category with the listing's notice |
| Viewer.RasterViewerComponent.FetchRasterData | frontend/app/dss/raster_visual/components/raster_display.tsx:226-273 | the fields change as the fetch transition says: a lookup failure, a raster failure with its message, a raster failure whose handler throws, or a loaded raster |
| Viewer.RasterViewerComponent.LoadRaster | frontend/app/dss/raster_visual/components/raster_display.tsx:242-269 | once the metadata has arrived, the fields change as the load transition says: metadata, category and file are stored, then the raster is drawn or the failure is reported |
| Text.IntToStringRoundTrip | backend/Basic/service.py:62 | `str(year)` reads back as `year`, so distinct years get distinct keys |
| Population.TotalAppend | backend/Basic/service.py:27-33 | a decade's total over two groups of rows is the sum of their totals |
| Population.ChangesTelescope | backend/Basic/service.py:36-43 | the six decadal differences add up to the 2011 total minus the 1951 total |
| Population.GetTotalP7 | backend/Basic/service.py:4-48 | the rate is the floor of (2011 total − 1951 total) / 60; the second result is the 2011 total |
| Population.Trunc | backend/Basic/service.py:62 | `int()` of a float truncates toward zero |
| Population.Project | backend/Basic/service.py:62 | a projection fails exactly when the 2011 total is zero, and then with ZeroDivisionError |
| Population.ProjectBaseYear | backend/Basic/service.py:62 | projecting to the base year returns the census value |
| Population.ProjectMonotoneInYear | backend/Basic/service.py:62 | with a non-negative rate, a later year never projects a smaller population |
| Population.YearKey | backend/Basic/service.py:61-62 | the target year's key is `"2011"` exactly when the year is 2011 |
| Population.SingleYearEntry | backend/Basic/service.py:60-63 | a village's entry holds `"2011"` and the target year's key, mapped to its census value and its projection |
| Population.SingleYearOutputContents | backend/Basic/service.py:50-64 | the result fails exactly when the total is zero and there are villages; otherwise its keys are the village ids, and each id gets the entry of its last occurrence |
| Population.SingleYearAtBaseYear | backend/Basic/service.py:60-63 | asking for the base year gives every village its own census value |
| Population.FillSingleYear | backend/Basic/service.py:57-63 | the loop builds the single-year output |
| Population.PopulationSingleYear | backend/Basic/service.py:50-64 | with no year the result is empty; otherwise it is the single-year output for the subdistricts' rate and total |
| Population.RangeEntry | backend/Basic/service.py:74-78 | the intended range entry fails exactly when some non-2011 year divides by a zero total |
| Population.RangeEntryContents | backend/Basic/service.py:74-78 | the intended entry maps `"2011"` to the census value and every other year of the range to its projection, and has no other keys |
| Population.RangeOutputContents | backend/Basic/service.py:67-79 | the intended range output has the village ids as keys, each with its last occurrence's intended entry |
| Population.RangeOutputFails | backend/Basic/service.py:77 | the intended range raises, with ZeroDivisionError, exactly when there are villages and a year other than 2011 to project with a zero total |
| Population.VillageRangeEntry | backend/Basic/service.py:74-78 | the loop builds the intended entry of one village |
| Population.PopulationRange | backend/Basic/service.py:67-79 | the corrected range endpoint returns the intended range output |
| Population.VillageRowAsWritten | backend/Basic/service.py:74-78 | the loop as written builds the as-written row and carries the last projection |
| Population.PopulationRangeAsWritten | backend/Basic/service.py:67-79 | the range as written: its errors and its dictionary are those of the as-written definition |
| Population.RangeAsWrittenUnbound | backend/Basic/service.py:75-78 | as written, a range starting at 2011 with a village raises UnboundLocalError |
| Population.RowAsWrittenStaleBaseKey | backend/Basic/service.py:76-78 | as written, a range that contains 2011 but starts earlier overwrites `"2011"` with the 2010 projection |
| Population.RowAsWrittenThrough2011 | backend/Basic/service.py:74-78 | as written, a village's entry over a range through 2011 that starts earlier is its intended entry with `"2011"` replaced by the 2010 projection |
| Population.RangeAsWrittenThrough2011 | backend/Basic/service.py:67-79 | as written, such a range never raises for a non-zero total, and its dictionary is the intended one with every village's `"2011"` replaced by its 2010 projection |
| Population.RowAsWrittenBefore2011 | backend/Basic/service.py:75-78 | as written, a range ending before 2011 succeeds and carries its last year's projection |
| Population.RangeAsWrittenWithout2011 | backend/Basic/service.py:67-79 | as written, a range that does not contain 2011 agrees with the intended output |
| Population.StaleBaseKeyExample | backend/Basic/service.py:78 | for one village of 100 at rate 1 and total 100 over 2010..2011, the code gives `"2011": 99`; the intended output is 100 |
| Population.GeometryOutputKeys | backend/Basic/service.py:87-92 | the geometry output's keys are the village ids |
| Population.GeometryOutputValues | backend/Basic/service.py:87-92 | each id maps `"2011"` and the target year to the geometry of its last occurrence |
| Population.GeometrySingleYear | backend/Basic/service.py:82-93 | with no year the result is empty; otherwise it is the geometry output |
| TimeSeries.Post | backend/Basic/views.py:38-120 | the endpoint returns the response the definition gives for each shape of request |
| TimeSeries.Response | backend/Basic/views.py:97-117 | the endpoint never raises UnboundLocalError; AttributeError only for a range over a list, TypeError only for a target year over an object |
| TimeSeries.SingleYearTakesPrecedence | backend/Basic/views.py:97-107 | with a target year, the range fields do not affect the response |
| TimeSeries.NothingRequested | backend/Basic/views.py:97-117 | with no target year and an incomplete range, the response is empty |
| TimeSeries.SingleYearAgreesWithService | backend/Basic/views.py:97-107 | for a target year over a list, the endpoint answers the service's single-year projection with base year 2011 |
| TimeSeries.RangeResponseContents | backend/Basic/views.py:107-117 | for an object of village populations, the range maps every id to its census value under `"2011"` and the projection of every other year; the only error is a zero total |
| TimeSeries.RangeAgreesWithCorrectedService | backend/Basic/views.py:107-117 | the endpoint's range over an object equals the corrected range of the service over a list with the same ids and populations |
| Locations.SortByNameCorrect | backend/Basic/views.py:13 | the sort is ordered by name, is a permutation, and keeps rows of equal name in their original order |
| Locations.Within | backend/Basic/views.py:26 | the filter keeps exactly the rows whose containing unit is among the codes, with their multiplicities |
| Locations.StatesResponse | backend/Basic/views.py:9-14 | all states, sorted by name, stably |
| Locations.ChildrenResponse | backend/Basic/views.py:16-36 | the districts of a state, the subdistricts of given districts or the villages of given subdistricts: exactly the rows inside those units, all inside them, sorted by name, stably |

## Left out

- Floating point is modelled as exact reals. IEEE-754 rounding in the colour interpolation, the normalisation and the projections is not modelled.
- The network, `fetch`, `async` ordering, React re-rendering and notification timers are not modelled. The answers of requests are parameters.
- Leaflet, GeoRasterLayer and `parseGeoraster` are not modelled. The layer is modelled by what it is created with. Bounds validity, the success of `fitBounds`, the presence of the library and the decoding outcome are parameters.
- Classifier.ColorForValue: requires a non-zero `max - min`. With a zero range JavaScript colours values above `min` with the last colour and values below it with the first; `value == min` gives a NaN index and an `undefined` colour. Real division by zero is not modelled.
- Classifier.PixelValuesToColor: a `null` min or max in the JSON passes the `!== undefined` test and is used as 0 by JavaScript. The model treats a missing bound as absent.
- ColorRamp.InterpolateColors: requires `steps >= 2`. With one step JavaScript divides by zero and produces `#NaNNaNNaN`.
- `toLowerCase` is modelled for ASCII only.
- `new Date().toISOString()` is not modelled. Today's date is a parameter of `RasterApi.FallbackMetadata`.
- `updateDynamicLegend` only logs, so it is not modelled.
- The `isLoading` flag, the sidebar, basemaps, drawing tools, the compass and grid overlays, and all rendering are not modelled.
- `fetchCategories` is not modelled: it only replaces the category list, which is a parameter of the fetch and select transitions. The file list that `fetchRasterFiles` stores is likewise a parameter of the fetch transition; its effect on the map state is modelled (`Viewer.SelectCategory`).
- The metadata fields that are only passed through (description, source, date, resolution) are carried but not interpreted.
- Viewer.RasterViewerComponent.UpdateDisplaySetting: requires the new value to lie in its slider's range (opacity 1..10, legend 2..10, zoom 5..16). The component's range sliders are the only callers (`raster_display.tsx:864-903`).
- Population.GetTotalP7: the ORM query is replaced by the list of census rows for the subdistricts. Missing keys (KeyError) and non-numeric request values are not modelled.
- Python's falsy request values (`0`, `""`, `None`) are all modelled as `None`. The year values are integers, so `int()` on a string is not modelled.
- The serializers are not modelled. A location row is reduced to its code, its name and the code of the unit containing it. The ORM filter is `Locations.Within`.
- The Python-level names, `print` calls and the `totalPopulation_props` field, which is read but not used, are not modelled.

## Findings

| source | as written | input that shows it | evidently intended | confidence | as-written member | corrected member |
|---|---|---|---|---|---|---|
| backend/Basic/service.py:78 | the assignment `output_year[id][str(year)] = projected_pop` sits outside `if year != 2011`, so in year 2011 it writes the previous year's projection over `"2011"`, or raises UnboundLocalError when the range starts at 2011 | one village `{id: "v", population: 100}`, rate 1, total 100, range 2010..2011: `"2011"` becomes 99 instead of 100; range 2011..2012 raises UnboundLocalError | write the projection only for years other than 2011, as `views.py:115-117` does, so `"2011"` keeps the census value | high (not executed) | Population.PopulationRangeAsWritten, Population.StaleBaseKeyExample, Population.RangeAsWrittenThrough2011, Population.RangeAsWrittenUnbound | Population.PopulationRange, Population.RangeEntryContents, Population.RangeOutputContents |
