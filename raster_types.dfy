/**
 * The records the raster viewer and its data service exchange
 * (frontend/types/rasterType.ts), restricted to the fields the core reads.
 */
module RasterTypes {
  import opened Wrappers

  datatype RasterCategory = RasterCategory(id: string, name: string)

  datatype RasterFile = RasterFile(id: string, name: string, description: Option<string>)

  /**
   * Metadata of one raster.  `min`/`max` drive classification; the other
   * fields are passed through untouched.
   */
  datatype RasterMetadata = RasterMetadata(
    min: Option<real>,
    max: Option<real>,
    noData: Option<real>,
    description: Option<string>,
    units: Option<string>,
    source: Option<string>,
    date: Option<string>,
    resolution: Option<string>)

  /** The geographic extent `[west, south, east, north]` in degrees. */
  datatype BBox = BBox(west: real, south: real, east: real, north: real)

  /** The projection block of a decoded raster; its `bbox` may be missing. */
  datatype Projection = Projection(bbox: Option<BBox>)

  /**
   * A decoded raster as the core sees it: the no-data sentinel and the
   * spatial metadata.  Cell values reach the core one pixel at a time.
   */
  datatype GeoRaster = GeoRaster(noDataValue: Option<real>, projection: Option<Projection>)
}
