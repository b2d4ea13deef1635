/**
 * `SQLite::get_detail_zoom`: the storage zoom at which a feature class keeps
 * its most detailed geometry, for a requested zoom.
 */
module DetailZooms {
  import opened Ints
  import opened DataTypes

  /** The highest detail zoom of any table. */
  const MaxDetailZoom: nat := 14

  /** The table for every value outside the two families below. */
  const DefaultTable: seq<u8> := [0, 0, 2, 2, 4, 4, 6, 6, 8, 8, 10, 10, 12, 12, 14]
  /** The table for "terrain" and "depth". */
  const TerrainTable: seq<u8> := [0, 0, 2, 2, 4, 4, 6, 6, 8, 8, 10, 10, 12, 12, 12]
  /** The table for "bathymetry", "blue_marble" and "elevation". */
  const ImageryTable: seq<u8> := [0, 0, 2, 2, 4, 4, 6, 6, 8, 8, 10, 10, 10, 10, 10]

  predicate IsTerrainFamily(value: string)
  {
    value == "terrain" || value == "depth"
  }

  predicate IsImageryFamily(value: string)
  {
    value == "bathymetry" || value == "blue_marble" || value == "elevation"
  }

  /** The table a feature value selects. */
  function TableFor(value: string): (r: seq<u8>)
    ensures |r| == MaxDetailZoom + 1
    ensures r[MaxDetailZoom] == FamilyCap(value)
  {
    if IsTerrainFamily(value) then TerrainTable
    else if IsImageryFamily(value) then ImageryTable
    else DefaultTable
  }

  /** `get_detail_zoom(z, value, data_type)`. */
  function DetailZoom(z: u8, value: string, dataType: DataType): (r: u8)
    ensures r <= MaxDetailZoom && r % 2 == 0
    ensures dataType == Points ==> r == MaxDetailZoom
    ensures dataType != Points ==> r <= z
  {
    var table := TableFor(value);
    var clampedZ := if z > MaxDetailZoom then MaxDetailZoom else z;
    TableBounds(table, clampedZ);
    var detailZoom := table[clampedZ];
    if dataType == Points then MaxDetailZoom else detailZoom
  }

  /** Every entry of every table is even and at most its own index. */
  lemma TableBounds(table: seq<u8>, i: nat)
    requires table == DefaultTable || table == TerrainTable || table == ImageryTable
    requires i < 15
    ensures |table| == 15
    ensures table[i] % 2 == 0 && table[i] <= i && table[i] <= MaxDetailZoom
  {
    assert i == 0 || i == 1 || i == 2 || i == 3 || i == 4 || i == 5 || i == 6 || i == 7
        || i == 8 || i == 9 || i == 10 || i == 11 || i == 12 || i == 13 || i == 14;
  }

  /** Zooms rounded down to an even number, as the default table stores them. */
  function EvenFloor(n: nat): nat
  {
    n - n % 2
  }

  /** The largest detail zoom a feature value's family may use. */
  function FamilyCap(value: string): nat
  {
    if IsTerrainFamily(value) then 12
    else if IsImageryFamily(value) then 10
    else MaxDetailZoom
  }

  function Min(a: nat, b: nat): nat
  {
    if a <= b then a else b
  }

  /**
   * An independent description of the tables: the requested zoom, clamped to
   * 14 and rounded down to an even number, then capped by the value's family.
   */
  lemma DetailZoomClosedForm(z: u8, value: string, dataType: DataType)
    requires dataType != Points
    ensures DetailZoom(z, value, dataType) == Min(EvenFloor(Min(z, MaxDetailZoom)), FamilyCap(value))
  {
    var i := Min(z, MaxDetailZoom);
    assert i == 0 || i == 1 || i == 2 || i == 3 || i == 4 || i == 5 || i == 6 || i == 7
        || i == 8 || i == 9 || i == 10 || i == 11 || i == 12 || i == 13 || i == 14;
  }

  /** Point features are always read at detail zoom 14, for every zoom and value. */
  lemma PointsAlwaysFullDetail(z: u8, value: string)
    ensures DetailZoom(z, value, Points) == MaxDetailZoom
  {
  }

  /** Zooms above 14 behave like zoom 14. */
  lemma DetailZoomClamped(z: u8, value: string, dataType: DataType)
    requires z > MaxDetailZoom
    ensures DetailZoom(z, value, dataType) == DetailZoom(MaxDetailZoom, value, dataType)
  {
  }

  /** Each family reaches its cap at a fixed zoom and keeps it for every larger zoom. */
  lemma FamilyCaps(z: u8, value: string, dataType: DataType)
    requires dataType != Points
    ensures IsTerrainFamily(value) && z >= 12 ==> DetailZoom(z, value, dataType) == 12
    ensures IsImageryFamily(value) && z >= 10 ==> DetailZoom(z, value, dataType) == 10
    ensures !IsTerrainFamily(value) && !IsImageryFamily(value) && z >= 14 ==>
              DetailZoom(z, value, dataType) == 14
  {
    DetailZoomClosedForm(z, value, dataType);
  }

  /** Asking for a deeper zoom never gives a coarser detail zoom. */
  lemma DetailZoomMonotone(z1: u8, z2: u8, value: string, dataType: DataType)
    requires z1 <= z2
    ensures DetailZoom(z1, value, dataType) <= DetailZoom(z2, value, dataType)
  {
    if dataType != Points {
      DetailZoomClosedForm(z1, value, dataType);
      DetailZoomClosedForm(z2, value, dataType);
    }
  }

  /** Terrain asked for at zoom 14 is read at detail zoom 12. */
  lemma TerrainAtFourteen()
    ensures DetailZoom(14, "terrain", Polygons) == 12
  {
  }
}
