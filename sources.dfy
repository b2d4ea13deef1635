/**
 * `Source for SQLite::get_raw_data`: the pyramid scan. For every storage zoom
 * from 0 to 16 it queries the single ancestor tile of the requested tile, or
 * the range of its descendants, appends every returned row as a frame, and
 * stops once the returned levels cover the requested tile's area.
 */
module Sources {
  import opened Wrappers
  import opened Ints
  import opened DataTypes
  import opened TileStore
  import opened DetailZooms
  import opened FrameCodec
  import opened LittleEndian

  /** The finest storage zoom, `max_tile_zoom`. */
  const MaxTileZoom: nat := 16

  /** The key that alias keys are rewritten to. */
  const LandKey: string := "locr"

  /** Keys that name a layer of the `locr` key rather than a key of their own. */
  const AliasKeys: set<string> := {"land", "terrain", "blue_marble", "elevation", "bathymetry", "depth"}

  /** The feature selector once aliases are rewritten and defaults applied. */
  datatype Selector = Selector(key: string, value: string, dataType: DataType)

  /** The requested tile. */
  datatype Target = Target(x: u32, y: u32, z: u8)

  /** A tile that exists: its zoom at most 16 and both coordinates below 2^z. */
  predicate ValidTarget(t: Target)
  {
    t.z <= MaxTileZoom && t.x < Pow2(t.z) && t.y < Pow2(t.z)
  }

  /** Key aliasing, then `unwrap_or(Polygons)` and `unwrap_or("")`. */
  function Normalize(key: string, value: Option<string>, dataType: Option<DataType>): (r: Selector)
    ensures r.key !in AliasKeys
    ensures key in AliasKeys ==> r.key == LandKey && r.value == key && r.dataType == Polygons
    ensures key !in AliasKeys ==> r.key == key
  {
    assert LandKey !in AliasKeys;
    var (key', value', dataType') :=
      if key in AliasKeys then (LandKey, Some(key), Some(Polygons)) else (key, value, dataType);
    Selector(key', value'.UnwrapOr(""), dataType'.UnwrapOr(Polygons))
  }

  /**
   * An alias key becomes `locr` with the alias as value and polygons as type,
   * whatever value and type were passed; any other key keeps its value and
   * type, which default to "" and polygons.
   */
  lemma NormalizeAliasesAndDefaults(key: string, value: Option<string>, dataType: Option<DataType>)
    ensures key in AliasKeys ==> Normalize(key, value, dataType) == Selector(LandKey, key, Polygons)
    ensures key !in AliasKeys ==>
              Normalize(key, value, dataType) == Selector(key, value.UnwrapOr(""), dataType.UnwrapOr(Polygons))
  {
  }

  /** A normalized selector passed in again, value and type given, comes out unchanged. */
  lemma NormalizeIdempotent(key: string, value: Option<string>, dataType: Option<DataType>)
    ensures var s := Normalize(key, value, dataType);
            s.key !in AliasKeys && Normalize(s.key, Some(s.value), Some(s.dataType)) == s
  {
    assert LandKey !in AliasKeys;
  }

  // ---------------------------------------------------------------------------
  // The tiles one storage zoom asks for
  // ---------------------------------------------------------------------------

  /**
   * The tile filter for storage zoom queryZ: the ancestor `(x >> d, y >> d)`
   * with d = z - queryZ when queryZ <= z, otherwise the descendants
   * `[x << d, (x << d) + (1 << d))` by `[y << d, (y << d) + (1 << d))` with
   * d = queryZ - z, in u32 arithmetic as a release build does it.
   */
  function PlanLevel(t: Target, queryZ: nat): (a: Area)
    requires t.z <= MaxTileZoom && queryZ <= MaxTileZoom
    ensures a.Tile? <==> queryZ <= t.z
    ensures queryZ == t.z ==> a == Tile(t.x, t.y)
  {
    if queryZ <= t.z then
      var d := t.z - queryZ;
      Tile(Shr(t.x, d), Shr(t.y, d))
    else
      var d := queryZ - t.z;
      var left := Shl(t.x, d);
      var top := Shl(t.y, d);
      Range(left, WrappingAdd(left, Shl(1, d)), top, WrappingAdd(top, Shl(1, d)))
  }

  /**
   * For a tile inside its zoom nothing wraps: the ancestor is a tile of the
   * coarser zoom, and the descendant ranges are `2^d` wide, start at
   * `x * 2^d` and `y * 2^d`, and stay inside the finer zoom.
   */
  lemma PlanLevelInRange(t: Target, queryZ: nat)
    requires ValidTarget(t) && queryZ <= MaxTileZoom
    ensures var a := PlanLevel(t, queryZ);
            && (queryZ <= t.z ==> a.x < Pow2(queryZ) && a.y < Pow2(queryZ))
            && (queryZ > t.z ==>
                  var p := Pow2(queryZ - t.z);
                  && a.left == t.x * p && a.right == a.left + p <= Pow2(queryZ)
                  && a.top == t.y * p && a.bottom == a.top + p <= Pow2(queryZ))
  {
    if queryZ <= t.z {
      AncestorInRange(t.x, t.z, queryZ);
      AncestorInRange(t.y, t.z, queryZ);
    } else {
      DescendantsInRange(t.x, t.z, queryZ);
      DescendantsInRange(t.y, t.z, queryZ);
    }
  }

  /** The ancestor of a coordinate is a coordinate of the coarser zoom. */
  lemma AncestorInRange(c: nat, z: nat, queryZ: nat)
    requires queryZ <= z && c < Pow2(z)
    ensures Shr(c, z - queryZ) < Pow2(queryZ)
  {
    Pow2Add(z - queryZ, queryZ);
    DivBelow(c, Pow2(z - queryZ), Pow2(queryZ));
  }

  /** The descendants of a coordinate stay inside the finer zoom, and shifting does not wrap. */
  lemma DescendantsInRange(c: u32, z: nat, queryZ: nat)
    requires z < queryZ <= MaxTileZoom && c < Pow2(z)
    ensures Shl(c, queryZ - z) == c * Pow2(queryZ - z)
    ensures Shl(1, queryZ - z) == Pow2(queryZ - z)
    ensures c * Pow2(queryZ - z) + Pow2(queryZ - z) <= Pow2(queryZ)
    ensures WrappingAdd(Shl(c, queryZ - z), Shl(1, queryZ - z)) == c * Pow2(queryZ - z) + Pow2(queryZ - z)
  {
    var p := Pow2(queryZ - z);
    Pow2Add(z, queryZ - z);
    MulMonotone(c + 1, Pow2(z), p);
    Pow2Monotone(queryZ, MaxTileZoom);
    Pow2At16();
  }

  /**
   * The requested tile lies inside its ancestor at storage zoom queryZ: the
   * ancestor's descendant range at zoom z holds x, and likewise y.
   */
  lemma AncestorContainsTarget(t: Target, queryZ: nat)
    requires queryZ <= t.z <= MaxTileZoom
    ensures var a := PlanLevel(t, queryZ); var p := Pow2(t.z - queryZ);
            && a.x * p <= t.x < a.x * p + p
            && a.y * p <= t.y < a.y * p + p
  {
    DivBlock(t.x, Pow2(t.z - queryZ));
    DivBlock(t.y, Pow2(t.z - queryZ));
  }

  /**
   * The descendant range at storage zoom queryZ is exactly the set of
   * coordinates whose ancestor at zoom z is the requested one.
   */
  lemma DescendantRangeExact(t: Target, queryZ: nat, a: nat, b: nat)
    requires ValidTarget(t) && t.z < queryZ <= MaxTileZoom
    ensures var r := PlanLevel(t, queryZ);
            && (r.left <= a < r.right <==> Shr(a, queryZ - t.z) == t.x)
            && (r.top <= b < r.bottom <==> Shr(b, queryZ - t.z) == t.y)
  {
    var p := Pow2(queryZ - t.z);
    var r := PlanLevel(t, queryZ);
    PlanLevelInRange(t, queryZ);
    if r.left <= a < r.right {
      DivUnique(a, p, t.x);
    }
    if r.top <= b < r.bottom {
      DivUnique(b, p, t.y);
    }
    DivBlock(a, p);
    DivBlock(b, p);
  }

  /**
   * A stored tile at zoom z' that the scan may return: the requested tile
   * itself, one of its ancestors, or one of its descendants.
   */
  predicate Covers(t: Target, x: nat, y: nat, z': nat)
  {
    if z' <= t.z then x == Shr(t.x, t.z - z') && y == Shr(t.y, t.z - z')
    else Shr(x, z' - t.z) == t.x && Shr(y, z' - t.z) == t.y
  }

  /** The parameters of the query for storage zoom queryZ. */
  function LevelQuery(t: Target, sel: Selector, detailZoom: u8, queryZ: nat): (q: Query)
    requires t.z <= MaxTileZoom && queryZ <= MaxTileZoom
    ensures q.z == queryZ && q.objectType == Code(sel.dataType) < 3
    ensures q.area.Tile? <==> queryZ <= t.z
  {
    Query(detailZoom, Code(sel.dataType), sel.key, sel.value, PlanLevel(t, queryZ), queryZ)
  }

  /** A row of the store that the request selects, at any storage zoom. */
  predicate Selected(row: Row, t: Target, sel: Selector, detailZoom: u8)
  {
    && row.detailZoom == detailZoom
    && row.objectType == Code(sel.dataType)
    && row.osmKey == sel.key
    && row.osmValue == sel.value
    && row.z <= MaxTileZoom
    && Covers(t, row.x, row.y, row.z)
  }

  /** A row matches the query of storage zoom queryZ exactly when it is selected and lies at that zoom. */
  lemma LevelQueryMatches(row: Row, t: Target, sel: Selector, detailZoom: u8, queryZ: nat)
    requires ValidTarget(t) && queryZ <= MaxTileZoom
    ensures Matches(row, LevelQuery(t, sel, detailZoom, queryZ))
            <==> Selected(row, t, sel, detailZoom) && row.z == queryZ
  {
    if queryZ > t.z {
      DescendantRangeExact(t, queryZ, row.x, row.y);
    }
  }

  // ---------------------------------------------------------------------------
  // The scan, as a specification
  // ---------------------------------------------------------------------------

  /** The frame of one returned row. */
  function FrameOf(f: Fragment, detailZoom: u8): Frame
  {
    Frame(f.x, f.y, f.z, detailZoom, f.data)
  }

  /** The frames of the rows one level returned, in the order returned. */
  function Framed(rows: seq<Fragment>, detailZoom: u8): seq<Frame>
  {
    seq(|rows|, i requires 0 <= i < |rows| => FrameOf(rows[i], detailZoom))
  }

  /** What the store answers to one level's query. */
  type Answer = Result<seq<Fragment>, StorageError>

  /**
   * The store's answers to the queries of storage zooms 0 to 16. The store
   * is read-only, so a query gives the same answer whether or not the scan
   * reaches its level.
   */
  function Answers(store: Store, t: Target, sel: Selector, detailZoom: u8): (r: seq<Answer>)
    requires t.z <= MaxTileZoom
    ensures |r| == MaxTileZoom + 1
  {
    seq(MaxTileZoom + 1, j requires 0 <= j <= MaxTileZoom => Run(store, LevelQuery(t, sel, detailZoom, j)))
  }

  /** What a scan gathered: its frames in order, and how many levels it queried. */
  datatype Scan = Scan(frames: seq<Frame>, levels: nat)

  /** Frames gathered before some levels, put in front of what those levels give. */
  function Prefix(frames: seq<Frame>, levels: nat, r: Result<Scan, StorageError>): Result<Scan, StorageError>
  {
    match r
    case Err(e) => Err(e)
    case Ok(s) => Ok(Scan(frames + s.frames, levels + s.levels))
  }

  /** The quadtree area of one tile at storage zoom level, counted in tiles of zoom 16. */
  function LevelWeight(level: nat): (r: nat)
    requires level <= MaxTileZoom
    ensures r >= 1
  {
    Pow4(MaxTileZoom - level)
  }

  /**
   * The scan from storage zoom queryZ on, for a requested tile at zoom z and
   * with weight already gathered: a failing query fails the scan; a level
   * that returned rows adds its weight; the scan stops after the first level
   * at which the weight covers the requested tile's area, and otherwise
   * after zoom 16.
   */
  function ScanFrom(answers: seq<Answer>, z: nat, detailZoom: u8, queryZ: nat, weight: nat)
    : (r: Result<Scan, StorageError>)
    requires |answers| == MaxTileZoom + 1 && z <= MaxTileZoom && queryZ <= MaxTileZoom + 1
    ensures r.Ok? ==> r.value.levels <= MaxTileZoom + 1 - queryZ
    ensures r.Ok? && queryZ <= MaxTileZoom ==> r.value.levels >= 1
    decreases MaxTileZoom + 1 - queryZ
  {
    if queryZ > MaxTileZoom then Ok(Scan([], 0))
    else
      match answers[queryZ]
      case Err(e) => Err(e)
      case Ok(rows) =>
        var weight' := if |rows| > 0 then weight + LevelWeight(queryZ) else weight;
        var here := Framed(rows, detailZoom);
        if weight' >= LevelWeight(z) then Ok(Scan(here, 1))
        else Prefix(here, 1, ScanFrom(answers, z, detailZoom, queryZ + 1, weight'))
  }

  /** One level of the scan: its frames, then the end or the levels after it. */
  lemma ScanFromStep(answers: seq<Answer>, z: nat, detailZoom: u8, queryZ: nat, weight: nat, weight': nat,
                     rows: seq<Fragment>)
    requires |answers| == MaxTileZoom + 1 && z <= MaxTileZoom && queryZ <= MaxTileZoom
    requires answers[queryZ] == Ok(rows)
    requires weight' == if |rows| > 0 then weight + LevelWeight(queryZ) else weight
    ensures ScanFrom(answers, z, detailZoom, queryZ, weight)
            == if weight' >= LevelWeight(z) then Ok(Scan(Framed(rows, detailZoom), 1))
               else Prefix(Framed(rows, detailZoom), 1, ScanFrom(answers, z, detailZoom, queryZ + 1, weight'))
  {
  }

  /** A level whose query fails ends the scan with that failure. */
  lemma ScanFromFailure(answers: seq<Answer>, z: nat, detailZoom: u8, queryZ: nat, weight: nat)
    requires |answers| == MaxTileZoom + 1 && z <= MaxTileZoom && queryZ <= MaxTileZoom
    ensures answers[queryZ].Err? ==> ScanFrom(answers, z, detailZoom, queryZ, weight) == Err(answers[queryZ].error)
  {
  }

  /** The scan of a request from storage zoom queryZ on. */
  function ScanAt(store: Store, t: Target, sel: Selector, detailZoom: u8, queryZ: nat, weight: nat)
    : Result<Scan, StorageError>
    requires t.z <= MaxTileZoom && queryZ <= MaxTileZoom + 1
  {
    ScanFrom(Answers(store, t, sel, detailZoom), t.z, detailZoom, queryZ, weight)
  }

  /** A frame that comes from a row of the store that the request selects. */
  predicate FromStore(store: Store, t: Target, sel: Selector, detailZoom: u8, f: Frame)
  {
    exists row :: row in store.rows && Selected(row, t, sel, detailZoom) && f == FrameOf(FragmentOf(row), detailZoom)
  }

  /**
   * The frames one storage zoom gives are exactly the selected rows at that
   * zoom: each comes from such a row, and each such row is there.
   */
  lemma LevelFramesExact(store: Store, t: Target, sel: Selector, detailZoom: u8, queryZ: nat)
    requires ValidTarget(t) && queryZ <= MaxTileZoom
    ensures var here := Framed(Select(store.rows, LevelQuery(t, sel, detailZoom, queryZ)), detailZoom);
            && (forall f :: f in here ==> FromStore(store, t, sel, detailZoom, f) && f.z == queryZ)
            && (forall row :: row in store.rows && Selected(row, t, sel, detailZoom) && row.z == queryZ ==>
                  FrameOf(FragmentOf(row), detailZoom) in here)
  {
    var q := LevelQuery(t, sel, detailZoom, queryZ);
    var rows := Select(store.rows, q);
    var here := Framed(rows, detailZoom);
    SelectExact(store.rows, q);
    forall f | f in here
      ensures FromStore(store, t, sel, detailZoom, f) && f.z == queryZ
    {
      var i :| 0 <= i < |here| && here[i] == f;
      assert rows[i] in rows;
      var row :| row in store.rows && Matches(row, q) && rows[i] == FragmentOf(row);
      LevelQueryMatches(row, t, sel, detailZoom, queryZ);
    }
    forall row | row in store.rows && Selected(row, t, sel, detailZoom) && row.z == queryZ
      ensures FrameOf(FragmentOf(row), detailZoom) in here
    {
      LevelQueryMatches(row, t, sel, detailZoom, queryZ);
      var i :| 0 <= i < |rows| && rows[i] == FragmentOf(row);
      assert here[i] == FrameOf(FragmentOf(row), detailZoom);
    }
  }

  /** A level's answer is the store's failure for that query, or the rows that match it. */
  lemma AnswerRows(store: Store, t: Target, sel: Selector, detailZoom: u8, queryZ: nat)
    requires t.z <= MaxTileZoom && queryZ <= MaxTileZoom
    ensures var answer := Answers(store, t, sel, detailZoom)[queryZ];
            var q := LevelQuery(t, sel, detailZoom, queryZ);
            && (answer.Ok? <==> q !in store.failures)
            && (answer.Ok? ==> answer.value == Select(store.rows, q))
            && (answer.Err? ==> answer.error == store.failures[q])
  {
  }

  /**
   * Every frame of a scan comes from a row of the store that the request
   * selects, at one of the storage zooms the scan queried.
   */
  lemma {:induction false} ScanFromSound(store: Store, t: Target, sel: Selector, detailZoom: u8, queryZ: nat, weight: nat)
    requires ValidTarget(t) && queryZ <= MaxTileZoom + 1
    ensures var r := ScanAt(store, t, sel, detailZoom, queryZ, weight);
            r.Ok? ==> forall f :: f in r.value.frames ==>
                        FromStore(store, t, sel, detailZoom, f) && queryZ <= f.z < queryZ + r.value.levels
    decreases MaxTileZoom + 1 - queryZ
  {
    var answers := Answers(store, t, sel, detailZoom);
    var r := ScanFrom(answers, t.z, detailZoom, queryZ, weight);
    if queryZ <= MaxTileZoom && r.Ok? {
      ScanFromFailure(answers, t.z, detailZoom, queryZ, weight);
      AnswerRows(store, t, sel, detailZoom, queryZ);
      LevelFramesExact(store, t, sel, detailZoom, queryZ);
      var rows := answers[queryZ].value;
      var weight' := if |rows| > 0 then weight + LevelWeight(queryZ) else weight;
      ScanFromStep(answers, t.z, detailZoom, queryZ, weight, weight', rows);
      if weight' < LevelWeight(t.z) {
        ScanFromSound(store, t, sel, detailZoom, queryZ + 1, weight');
      }
    }
  }

  /**
   * Every row of the store that the request selects, at a storage zoom the
   * scan queried, is among the scan's frames.
   */
  lemma {:induction false} ScanFromComplete(store: Store, t: Target, sel: Selector, detailZoom: u8, queryZ: nat, weight: nat)
    requires ValidTarget(t) && queryZ <= MaxTileZoom + 1
    ensures var r := ScanAt(store, t, sel, detailZoom, queryZ, weight);
            r.Ok? ==> forall row :: row in store.rows && Selected(row, t, sel, detailZoom) &&
                                    queryZ <= row.z < queryZ + r.value.levels ==>
                        FrameOf(FragmentOf(row), detailZoom) in r.value.frames
    decreases MaxTileZoom + 1 - queryZ
  {
    var answers := Answers(store, t, sel, detailZoom);
    var r := ScanFrom(answers, t.z, detailZoom, queryZ, weight);
    if queryZ <= MaxTileZoom && r.Ok? {
      ScanFromFailure(answers, t.z, detailZoom, queryZ, weight);
      AnswerRows(store, t, sel, detailZoom, queryZ);
      LevelFramesExact(store, t, sel, detailZoom, queryZ);
      var rows := answers[queryZ].value;
      var weight' := if |rows| > 0 then weight + LevelWeight(queryZ) else weight;
      ScanFromStep(answers, t.z, detailZoom, queryZ, weight, weight', rows);
      if weight' < LevelWeight(t.z) {
        ScanFromComplete(store, t, sel, detailZoom, queryZ + 1, weight');
      }
    }
  }

  /** Frames in ascending storage zoom. */
  predicate Ascending(frames: seq<Frame>)
  {
    forall i, j :: 0 <= i < j < |frames| ==> frames[i].z <= frames[j].z
  }

  /** Frames of one zoom followed by ascending frames of finer zooms are ascending. */
  lemma AscendingPrepend(here: seq<Frame>, rest: seq<Frame>, z: nat)
    requires forall f :: f in here ==> f.z == z
    requires forall f :: f in rest ==> f.z > z
    requires Ascending(rest)
    ensures Ascending(here + rest)
  {
    var all := here + rest;
    forall i, j | 0 <= i < j < |all| ensures all[i].z <= all[j].z {
      if j < |here| {
        assert all[i] in here && all[j] in here;
      } else if i < |here| {
        assert all[i] in here && all[j] in rest;
      } else {
        assert all[i] == rest[i - |here|] && all[j] == rest[j - |here|];
      }
    }
  }

  /** The frames one storage zoom gives all lie at that zoom. */
  lemma LevelFramesAtZoom(store: Store, t: Target, sel: Selector, detailZoom: u8, queryZ: nat)
    requires t.z <= MaxTileZoom && queryZ <= MaxTileZoom
    ensures forall f :: f in Framed(Select(store.rows, LevelQuery(t, sel, detailZoom, queryZ)), detailZoom) ==>
              f.z == queryZ
  {
    var q := LevelQuery(t, sel, detailZoom, queryZ);
    var rows := Select(store.rows, q);
    SelectExact(store.rows, q);
    forall f | f in Framed(rows, detailZoom) ensures f.z == queryZ {
      var i :| 0 <= i < |rows| && Framed(rows, detailZoom)[i] == f;
      assert rows[i] in rows;
    }
  }

  /** The frames of a scan come in ascending storage zoom, none coarser than where it started. */
  lemma {:induction false} ScanFromOrdered(store: Store, t: Target, sel: Selector, detailZoom: u8, queryZ: nat, weight: nat)
    requires t.z <= MaxTileZoom && queryZ <= MaxTileZoom + 1
    ensures var r := ScanAt(store, t, sel, detailZoom, queryZ, weight);
            r.Ok? ==> Ascending(r.value.frames) && forall f :: f in r.value.frames ==> queryZ <= f.z
    decreases MaxTileZoom + 1 - queryZ
  {
    var answers := Answers(store, t, sel, detailZoom);
    var r := ScanFrom(answers, t.z, detailZoom, queryZ, weight);
    if queryZ <= MaxTileZoom && r.Ok? {
      ScanFromFailure(answers, t.z, detailZoom, queryZ, weight);
      AnswerRows(store, t, sel, detailZoom, queryZ);
      LevelFramesAtZoom(store, t, sel, detailZoom, queryZ);
      var rows := answers[queryZ].value;
      var here := Framed(rows, detailZoom);
      var weight' := if |rows| > 0 then weight + LevelWeight(queryZ) else weight;
      ScanFromStep(answers, t.z, detailZoom, queryZ, weight, weight', rows);
      if weight' < LevelWeight(t.z) {
        ScanFromOrdered(store, t, sel, detailZoom, queryZ + 1, weight');
        var rest := ScanFrom(answers, t.z, detailZoom, queryZ + 1, weight').value.frames;
        AscendingPrepend(here, rest, queryZ);
      } else {
        assert forall i :: 0 <= i < |here| ==> here[i] in here;
      }
    }
  }

  /**
   * With no rows at the storage zooms before `level`, rows at a storage zoom
   * `level` <= z end the scan right there: one ancestor tile's area covers
   * the requested tile. So the first ancestor level with data is the last
   * level queried.
   */
  lemma {:induction false} ScanStopsAtFirstAncestorHit(
    answers: seq<Answer>, z: nat, detailZoom: u8, queryZ: nat, level: nat, rows: seq<Fragment>)
    requires |answers| == MaxTileZoom + 1 && queryZ <= level <= z <= MaxTileZoom
    requires forall j :: queryZ <= j < level ==> answers[j] == Ok([])
    requires answers[level] == Ok(rows) && |rows| > 0
    ensures ScanFrom(answers, z, detailZoom, queryZ, 0) == Ok(Scan(Framed(rows, detailZoom), level + 1 - queryZ))
    decreases level - queryZ
  {
    if queryZ == level {
      ScanFromHit(answers, z, detailZoom, level, rows);
    } else {
      ScanStopsAtFirstAncestorHit(answers, z, detailZoom, queryZ + 1, level, rows);
      ScanSkipsEmptyLevel(answers, z, detailZoom, queryZ, 0, Scan(Framed(rows, detailZoom), level - queryZ));
    }
  }

  /** An empty level, while the weight is short of the area, only adds one to the level count of the scan after it. */
  lemma ScanSkipsEmptyLevel(answers: seq<Answer>, z: nat, detailZoom: u8, queryZ: nat, weight: nat, rest: Scan)
    requires |answers| == MaxTileZoom + 1 && z <= MaxTileZoom && queryZ <= MaxTileZoom
    requires answers[queryZ] == Ok([]) && weight < LevelWeight(z)
    requires ScanFrom(answers, z, detailZoom, queryZ + 1, weight) == Ok(rest)
    ensures ScanFrom(answers, z, detailZoom, queryZ, weight) == Ok(Scan(rest.frames, rest.levels + 1))
  {
    ScanFromEmptyLevel(answers, z, detailZoom, queryZ, weight);
    assert [] + rest.frames == rest.frames;
  }

  /** A level with rows at or above the requested zoom ends a scan that had gathered nothing. */
  lemma ScanFromHit(answers: seq<Answer>, z: nat, detailZoom: u8, level: nat, rows: seq<Fragment>)
    requires |answers| == MaxTileZoom + 1 && level <= z <= MaxTileZoom
    requires answers[level] == Ok(rows) && |rows| > 0
    ensures ScanFrom(answers, z, detailZoom, level, 0) == Ok(Scan(Framed(rows, detailZoom), 1))
  {
    Pow4Monotone(MaxTileZoom - z, MaxTileZoom - level);
    ScanFromStep(answers, z, detailZoom, level, 0, LevelWeight(level), rows);
  }

  /** A level without rows, while the weight is short of the area, adds one level and nothing else. */
  lemma ScanFromEmptyLevel(answers: seq<Answer>, z: nat, detailZoom: u8, queryZ: nat, weight: nat)
    requires |answers| == MaxTileZoom + 1 && z <= MaxTileZoom && queryZ <= MaxTileZoom
    requires answers[queryZ] == Ok([]) && weight < LevelWeight(z)
    ensures ScanFrom(answers, z, detailZoom, queryZ, weight)
            == Prefix([], 1, ScanFrom(answers, z, detailZoom, queryZ + 1, weight))
  {
    ScanFromStep(answers, z, detailZoom, queryZ, weight, weight, []);
    assert Framed([], detailZoom) == [];
  }

  /**
   * When every level answers with no rows, the scan is empty and queries all
   * remaining levels: the weight never reaches the requested tile's area, and
   * the scan still ends after storage zoom 16.
   */
  lemma {:induction false} ScanAllEmpty(answers: seq<Answer>, z: nat, detailZoom: u8, queryZ: nat, weight: nat)
    requires |answers| == MaxTileZoom + 1 && z <= MaxTileZoom && queryZ <= MaxTileZoom + 1
    requires forall j :: queryZ <= j <= MaxTileZoom ==> answers[j] == Ok([])
    requires weight < LevelWeight(z)
    ensures ScanFrom(answers, z, detailZoom, queryZ, weight) == Ok(Scan([], MaxTileZoom + 1 - queryZ))
    decreases MaxTileZoom + 1 - queryZ
  {
    if queryZ <= MaxTileZoom {
      ScanAllEmpty(answers, z, detailZoom, queryZ + 1, weight);
      ScanSkipsEmptyLevel(answers, z, detailZoom, queryZ, weight, Scan([], MaxTileZoom - queryZ));
    }
  }

  /** A scan fails only with the error of one of its level queries that failed. */
  lemma {:induction false} ScanFailsOnlyOnFailedQuery(
    store: Store, t: Target, sel: Selector, detailZoom: u8, queryZ: nat, weight: nat)
    requires t.z <= MaxTileZoom && queryZ <= MaxTileZoom + 1
    ensures var r := ScanAt(store, t, sel, detailZoom, queryZ, weight);
            r.Err? ==> exists j :: queryZ <= j <= MaxTileZoom
                         && LevelQuery(t, sel, detailZoom, j) in store.failures
                         && r.error == store.failures[LevelQuery(t, sel, detailZoom, j)]
    decreases MaxTileZoom + 1 - queryZ
  {
    var answers := Answers(store, t, sel, detailZoom);
    var r := ScanFrom(answers, t.z, detailZoom, queryZ, weight);
    if queryZ <= MaxTileZoom && r.Err? {
      var q := LevelQuery(t, sel, detailZoom, queryZ);
      if q !in store.failures {
        AnswerRows(store, t, sel, detailZoom, queryZ);
        var rows := answers[queryZ].value;
        var weight' := if |rows| > 0 then weight + LevelWeight(queryZ) else weight;
        ScanFromStep(answers, t.z, detailZoom, queryZ, weight, weight', rows);
        ScanFailsOnlyOnFailedQuery(store, t, sel, detailZoom, queryZ + 1, weight');
      }
    }
  }

  /** A scan that succeeds asked only queries that did not fail: a failure at a queried level fails the scan. */
  lemma ScanSucceedsOnlyWithoutFailures(
    store: Store, t: Target, sel: Selector, detailZoom: u8, queryZ: nat, weight: nat)
    requires t.z <= MaxTileZoom && queryZ <= MaxTileZoom + 1
    ensures var r := ScanAt(store, t, sel, detailZoom, queryZ, weight);
            r.Ok? ==> forall j :: queryZ <= j < queryZ + r.value.levels ==> LevelQuery(t, sel, detailZoom, j) !in store.failures
  {
    var answers := Answers(store, t, sel, detailZoom);
    var r := ScanFrom(answers, t.z, detailZoom, queryZ, weight);
    if r.Ok? {
      ScanFromOkAnswers(answers, t.z, detailZoom, queryZ, weight);
      forall j | queryZ <= j < queryZ + r.value.levels
        ensures LevelQuery(t, sel, detailZoom, j) !in store.failures
      {
        AnswerRows(store, t, sel, detailZoom, j);
      }
    }
  }

  /** Every level a successful scan queried answered without an error. */
  lemma {:induction false} ScanFromOkAnswers(answers: seq<Answer>, z: nat, detailZoom: u8, queryZ: nat, weight: nat)
    requires |answers| == MaxTileZoom + 1 && z <= MaxTileZoom && queryZ <= MaxTileZoom + 1
    ensures var r := ScanFrom(answers, z, detailZoom, queryZ, weight);
            r.Ok? ==> queryZ + r.value.levels <= MaxTileZoom + 1
                      && forall j :: queryZ <= j < queryZ + r.value.levels ==> answers[j].Ok?
    decreases MaxTileZoom + 1 - queryZ
  {
    var r := ScanFrom(answers, z, detailZoom, queryZ, weight);
    if queryZ <= MaxTileZoom && r.Ok? {
      ScanFromFailure(answers, z, detailZoom, queryZ, weight);
      var rows := answers[queryZ].value;
      var weight' := if |rows| > 0 then weight + LevelWeight(queryZ) else weight;
      ScanFromStep(answers, z, detailZoom, queryZ, weight, weight', rows);
      if weight' < LevelWeight(z) {
        var rest := ScanFrom(answers, z, detailZoom, queryZ + 1, weight');
        ScanFromOkAnswers(answers, z, detailZoom, queryZ + 1, weight');
        assert r.value.levels == 1 + rest.value.levels;
      }
    }
  }

  // ---------------------------------------------------------------------------
  // get_raw_data
  // ---------------------------------------------------------------------------

  /** The scan `get_raw_data` runs for a request. */
  function ScanOf(store: Store, x: u32, y: u32, z: u8, key: string, value: Option<string>, dataType: Option<DataType>)
    : Result<Scan, StorageError>
    requires z <= MaxTileZoom
  {
    var sel := Normalize(key, value, dataType);
    ScanAt(store, Target(x, y, z), sel, DetailZoom(z, sel.value, sel.dataType), 0, 0)
  }

  /** What `get_raw_data` returns: the store's error, or the encoded frames of the scan. */
  function RawData(store: Store, x: u32, y: u32, z: u8, key: string, value: Option<string>, dataType: Option<DataType>)
    : (r: Result<seq<u8>, StorageError>)
    requires z <= MaxTileZoom
    ensures r.Ok? ==> |r.value| >= 4
  {
    match ScanOf(store, x, y, z, key, value, dataType)
    case Err(e) => Err(e)
    case Ok(s) => Ok(Encode(s.frames))
  }

  /**
   * `get_raw_data`. The store stands for the read-only connection; each
   * query either fails, which aborts the call with no buffer, or returns its
   * rows in store order.
   */
  method GetRawData(store: Store, x: u32, y: u32, z: u8, key: string, value: Option<string>, dataType: Option<DataType>)
    returns (r: Result<seq<u8>, StorageError>)
    requires z <= MaxTileZoom
    ensures r == RawData(store, x, y, z, key, value, dataType)
  {
    var sel := Normalize(key, value, dataType);
    var detailZoom := DetailZoom(z, sel.value, sel.dataType);
    RawDataOfAnswers(store, x, y, z, key, value, dataType);
    r := CollectLevels(store, Target(x, y, z), sel, detailZoom);
  }

  /**
   * The level loop of `get_raw_data`: one query per level from 0 up, stopping
   * at the first failing query or once the weight of the levels that
   * returned rows reaches the weight of the requested level.
   */
  method CollectLevels(store: Store, t: Target, sel: Selector, detailZoom: u8)
    returns (r: Result<seq<u8>, StorageError>)
    requires t.z <= MaxTileZoom
    ensures var scan := ScanFrom(Answers(store, t, sel, detailZoom), t.z, detailZoom, 0, 0);
            && (scan.Err? ==> r == Err(scan.error))
            && (scan.Ok? ==> r == Ok(Encode(scan.value.frames)))
  {
    ghost var answers := Answers(store, t, sel, detailZoom);
    var dataBuffer: seq<u8> := [];
    var numberOfTiles: u32 := 0;
    var tileWeight: u64 := 0;
    ghost var frames: seq<Frame> := [];
    ScanStart(answers, t.z, detailZoom);

    for queryZ := 0 to MaxTileZoom + 1
      invariant Scanning(answers, t.z, detailZoom, queryZ, tileWeight, frames, dataBuffer, numberOfTiles)
    {
      var query := LevelQuery(t, sel, detailZoom, queryZ);
      var queried := Run(store, query);
      assert queried == answers[queryZ];
      if queried.Err? {
        ScanAbort(answers, t.z, detailZoom, queryZ, tileWeight, frames);
        return Err(queried.error);
      }
      var rows := queried.value;
      var tileWeight', numberOfTiles', dataBuffer' := AddLevel(queryZ, rows, detailZoom, tileWeight, numberOfTiles, dataBuffer);
      LevelStep(answers, t.z, detailZoom, queryZ, rows, tileWeight, frames, dataBuffer, numberOfTiles,
                tileWeight', dataBuffer', numberOfTiles');
      tileWeight, numberOfTiles, dataBuffer := tileWeight', numberOfTiles', dataBuffer';
      frames := frames + Framed(rows, detailZoom);
      if tileWeight >= LevelWeight(t.z) {
        break;
      }
    }
    ScanEnd(answers, t.z, detailZoom, tileWeight, frames, dataBuffer, numberOfTiles);
    r := Ok(U32Le(numberOfTiles) + dataBuffer);
  }

  /** What `get_raw_data` returns, in terms of the store's answers to the 17 level queries. */
  lemma RawDataOfAnswers(store: Store, x: u32, y: u32, z: u8, key: string, value: Option<string>, dataType: Option<DataType>)
    requires z <= MaxTileZoom
    ensures var sel := Normalize(key, value, dataType);
            var detailZoom := DetailZoom(z, sel.value, sel.dataType);
            var scan := ScanFrom(Answers(store, Target(x, y, z), sel, detailZoom), z, detailZoom, 0, 0);
            && (scan.Err? ==> RawData(store, x, y, z, key, value, dataType) == Err(scan.error))
            && (scan.Ok? ==> RawData(store, x, y, z, key, value, dataType) == Ok(Encode(scan.value.frames)))
  {
  }

  /** The buffer and the count hold the frames written so far (the count modulo 2^32). */
  ghost predicate Written(dataBuffer: seq<u8>, numberOfTiles: u32, frames: seq<Frame>)
  {
    dataBuffer == EncodeFrames(frames) && numberOfTiles == TruncU32(|frames|)
  }

  /** Writing one level's rows keeps the buffer and the count in step with the frames; no rows write nothing. */
  lemma WrittenStep(dataBuffer: seq<u8>, numberOfTiles: u32, frames: seq<Frame>, rows: seq<Fragment>, detailZoom: u8)
    requires Written(dataBuffer, numberOfTiles, frames)
    ensures Written(dataBuffer + EncodeFrames(Framed(rows, detailZoom)), WrappingAdd(numberOfTiles, TruncU32(|rows|)),
                    frames + Framed(rows, detailZoom))
    ensures rows == [] ==> Written(dataBuffer, numberOfTiles, frames + Framed(rows, detailZoom))
  {
    var here := Framed(rows, detailZoom);
    WrappingAddTrunc(|frames|, |rows|);
    EncodeFramesAppend(frames, here);
    if rows == [] {
      assert frames + here == frames;
    }
  }

  /**
   * The bookkeeping after one level's query in `get_raw_data`: a level that
   * returned rows adds its weight, its row count (wrapping at 2^32, as a
   * release build does) and its frames; an empty level changes nothing.
   */
  method AddLevel(queryZ: nat, rows: seq<Fragment>, detailZoom: u8, tileWeight: u64, numberOfTiles: u32, dataBuffer: seq<u8>)
    returns (tileWeight': u64, numberOfTiles': u32, dataBuffer': seq<u8>)
    requires queryZ <= MaxTileZoom && tileWeight <= WeightCeiling(queryZ)
    ensures |rows| > 0 ==> && tileWeight' == tileWeight + LevelWeight(queryZ)
                           && numberOfTiles' == WrappingAdd(numberOfTiles, TruncU32(|rows|))
                           && dataBuffer' == dataBuffer + EncodeFrames(Framed(rows, detailZoom))
    ensures |rows| == 0 ==> tileWeight' == tileWeight && numberOfTiles' == numberOfTiles && dataBuffer' == dataBuffer
    ensures tileWeight' <= WeightCeiling(queryZ + 1)
  {
    WeightStep(tileWeight, queryZ);
    tileWeight', numberOfTiles', dataBuffer' := tileWeight, numberOfTiles, dataBuffer;
    if |rows| > 0 {
      numberOfTiles' := WrappingAdd(numberOfTiles, TruncU32(|rows|));
      tileWeight' := tileWeight + LevelWeight(queryZ);
      dataBuffer' := WriteFrames(dataBuffer, rows, detailZoom);
    }
  }

  /** The inner loop of `get_raw_data`: a frame per returned row, appended to the buffer. */
  method WriteFrames(dataBuffer: seq<u8>, rows: seq<Fragment>, detailZoom: u8) returns (out: seq<u8>)
    ensures out == dataBuffer + EncodeFrames(Framed(rows, detailZoom))
  {
    out := dataBuffer;
    for i := 0 to |rows|
      invariant out == dataBuffer + EncodeFrames(Framed(rows[..i], detailZoom))
    {
      var row := rows[i];
      ghost var written := out;
      var header := U32Le(row.x) + U32Le(row.y) + U32Le(row.z) + U32Le(detailZoom) + U32Le(TruncU32(|row.data|));
      out := out + header;
      if |row.data| > 0 {
        out := out + row.data;
      }
      assert out == written + EncodeFrame(FrameOf(row, detailZoom));
      WriteFrameStep(dataBuffer, rows, i, detailZoom, written);
    }
    assert rows[..|rows|] == rows;
  }

  /**
   * The loop invariant of `get_raw_data`: the frames gathered before storage
   * zoom queryZ, followed by what the scan from queryZ gives, are the whole scan.
   */
  ghost predicate ScannedSoFar(answers: seq<Answer>, z: nat, detailZoom: u8, queryZ: nat, weight: nat, frames: seq<Frame>)
    requires |answers| == MaxTileZoom + 1 && z <= MaxTileZoom && queryZ <= MaxTileZoom + 1
  {
    ScanFrom(answers, z, detailZoom, 0, 0) == Prefix(frames, queryZ, ScanFrom(answers, z, detailZoom, queryZ, weight))
  }

  /** A level whose query fails makes the whole scan fail with the store's error. */
  lemma ScanAbort(answers: seq<Answer>, z: nat, detailZoom: u8, queryZ: nat, weight: nat, frames: seq<Frame>)
    requires |answers| == MaxTileZoom + 1 && z <= MaxTileZoom && queryZ <= MaxTileZoom
    requires answers[queryZ].Err?
    requires ScannedSoFar(answers, z, detailZoom, queryZ, weight, frames)
    ensures ScanFrom(answers, z, detailZoom, 0, 0) == Err(answers[queryZ].error)
  {
  }

  /**
   * After a level that returned rows, either the scan ends there with the
   * frames gathered so far, or it goes on from the next level with the new weight.
   */
  lemma ScanAdvance(answers: seq<Answer>, z: nat, detailZoom: u8, queryZ: nat, weight: nat, weight': nat,
                    frames: seq<Frame>, rows: seq<Fragment>)
    requires |answers| == MaxTileZoom + 1 && z <= MaxTileZoom && queryZ <= MaxTileZoom
    requires answers[queryZ] == Ok(rows)
    requires weight' == if |rows| > 0 then weight + LevelWeight(queryZ) else weight
    requires ScannedSoFar(answers, z, detailZoom, queryZ, weight, frames)
    ensures weight' >= LevelWeight(z) ==>
              ScanFrom(answers, z, detailZoom, 0, 0) == Ok(Scan(frames + Framed(rows, detailZoom), queryZ + 1))
    ensures weight' < LevelWeight(z) ==>
              ScannedSoFar(answers, z, detailZoom, queryZ + 1, weight', frames + Framed(rows, detailZoom))
  {
    var here := Framed(rows, detailZoom);
    ScanFromStep(answers, z, detailZoom, queryZ, weight, weight', rows);
    if weight' < LevelWeight(z) {
      PrefixPrefix(frames, queryZ, here, 1, ScanFrom(answers, z, detailZoom, queryZ + 1, weight'));
    }
  }

  /**
   * The whole loop invariant of `get_raw_data`: the scan so far, the buffer
   * and count written for it, and the weight within its ceiling.
   */
  ghost predicate Scanning(answers: seq<Answer>, z: nat, detailZoom: u8, queryZ: nat, weight: nat, frames: seq<Frame>,
                           dataBuffer: seq<u8>, numberOfTiles: u32)
    requires |answers| == MaxTileZoom + 1 && z <= MaxTileZoom && queryZ <= MaxTileZoom + 1
  {
    && ScannedSoFar(answers, z, detailZoom, queryZ, weight, frames)
    && Written(dataBuffer, numberOfTiles, frames)
    && weight <= WeightCeiling(queryZ)
  }

  /** The scan is over: its frames are the ones gathered, and the count and buffer encode them. */
  ghost predicate Finished(answers: seq<Answer>, z: nat, detailZoom: u8, frames: seq<Frame>,
                           dataBuffer: seq<u8>, numberOfTiles: u32)
    requires |answers| == MaxTileZoom + 1 && z <= MaxTileZoom
  {
    var scan := ScanFrom(answers, z, detailZoom, 0, 0);
    scan.Ok? && scan.value.frames == frames && U32Le(numberOfTiles) + dataBuffer == Encode(frames)
  }

  /** Before the first level nothing is gathered, written or weighed. */
  lemma ScanStart(answers: seq<Answer>, z: nat, detailZoom: u8)
    requires |answers| == MaxTileZoom + 1 && z <= MaxTileZoom
    ensures Scanning(answers, z, detailZoom, 0, 0, [], [], 0)
  {
    PrefixEmpty(ScanFrom(answers, z, detailZoom, 0, 0));
  }

  /**
   * One level of `get_raw_data`: with the weight, count and buffer it
   * leaves, either the scan is finished with this level's frames, or the
   * loop invariant holds for the next level.
   */
  lemma LevelStep(answers: seq<Answer>, z: nat, detailZoom: u8, queryZ: nat, rows: seq<Fragment>,
                  weight: nat, frames: seq<Frame>, dataBuffer: seq<u8>, numberOfTiles: u32,
                  weight': nat, dataBuffer': seq<u8>, numberOfTiles': u32)
    requires |answers| == MaxTileZoom + 1 && z <= MaxTileZoom && queryZ <= MaxTileZoom
    requires answers[queryZ] == Ok(rows)
    requires Scanning(answers, z, detailZoom, queryZ, weight, frames, dataBuffer, numberOfTiles)
    requires |rows| > 0 ==> && weight' == weight + LevelWeight(queryZ)
                            && numberOfTiles' == WrappingAdd(numberOfTiles, TruncU32(|rows|))
                            && dataBuffer' == dataBuffer + EncodeFrames(Framed(rows, detailZoom))
    requires |rows| == 0 ==> weight' == weight && numberOfTiles' == numberOfTiles && dataBuffer' == dataBuffer
    ensures weight' >= LevelWeight(z) ==>
              Finished(answers, z, detailZoom, frames + Framed(rows, detailZoom), dataBuffer', numberOfTiles')
    ensures weight' < LevelWeight(z) ==>
              Scanning(answers, z, detailZoom, queryZ + 1, weight', frames + Framed(rows, detailZoom), dataBuffer', numberOfTiles')
  {
    var here := Framed(rows, detailZoom);
    WrittenStep(dataBuffer, numberOfTiles, frames, rows, detailZoom);
    assert Written(dataBuffer', numberOfTiles', frames + here) by {
      if |rows| == 0 {
        assert rows == [];
      }
    }
    WeightStep(weight, queryZ);
    ScanAdvance(answers, z, detailZoom, queryZ, weight, weight', frames, rows);
    if weight' >= LevelWeight(z) {
      assert ScanFrom(answers, z, detailZoom, 0, 0) == Ok(Scan(frames + here, queryZ + 1));
    } else {
      assert ScannedSoFar(answers, z, detailZoom, queryZ + 1, weight', frames + here);
    }
  }

  /** The loop ends finished: by the break, or past storage zoom 16 with nothing left to scan. */
  lemma ScanEnd(answers: seq<Answer>, z: nat, detailZoom: u8, weight: nat, frames: seq<Frame>,
                dataBuffer: seq<u8>, numberOfTiles: u32)
    requires |answers| == MaxTileZoom + 1 && z <= MaxTileZoom
    ensures Scanning(answers, z, detailZoom, MaxTileZoom + 1, weight, frames, dataBuffer, numberOfTiles) ==>
              Finished(answers, z, detailZoom, frames, dataBuffer, numberOfTiles)
  {
    assert frames + [] == frames;
  }

  /** The weight the levels below queryZ add when every one of them returns rows. */
  function WeightCeiling(queryZ: nat): nat
    requires queryZ <= MaxTileZoom + 1
  {
    if queryZ == 0 then 0 else WeightCeiling(queryZ - 1) + LevelWeight(queryZ - 1)
  }

  /** A level adds at most its own weight to the ceiling, and the sum still fits a u64. */
  lemma WeightStep(weight: nat, queryZ: nat)
    requires queryZ <= MaxTileZoom && weight <= WeightCeiling(queryZ)
    ensures weight <= WeightCeiling(queryZ + 1)
    ensures weight + LevelWeight(queryZ) <= WeightCeiling(queryZ + 1)
    ensures weight + LevelWeight(queryZ) < U64_LIMIT
  {
    WeightCeilingMonotone(queryZ + 1, MaxTileZoom + 1);
    TileWeightFitsU64();
  }

  /** The ceiling grows with the number of levels counted. */
  lemma {:induction false} WeightCeilingMonotone(a: nat, b: nat)
    requires a <= b <= MaxTileZoom + 1
    ensures WeightCeiling(a) <= WeightCeiling(b)
    decreases b
  {
    if a < b {
      WeightCeilingMonotone(a, b - 1);
    }
  }

  /**
   * The weights of the levels sum to a third of the weight one level above
   * zoom 0 would have, less the weight of the first level not yet counted.
   */
  lemma {:induction false} WeightCeilingClosedForm(queryZ: nat)
    requires queryZ <= MaxTileZoom + 1
    ensures 3 * WeightCeiling(queryZ) + Pow4(MaxTileZoom + 1 - queryZ) == Pow4(MaxTileZoom + 1)
  {
    if queryZ > 0 {
      var below, level := WeightCeiling(queryZ - 1), Pow4(MaxTileZoom + 1 - queryZ);
      WeightCeilingClosedForm(queryZ - 1);
      assert WeightCeiling(queryZ) == below + level;
      assert Pow4(MaxTileZoom + 1 - (queryZ - 1)) == 4 * level;
    } else {
      assert WeightCeiling(queryZ) == 0;
    }
  }

  /** `tile_weight` is a u64 and never overflows: the weight of all 17 levels is below 2^64. */
  lemma TileWeightFitsU64()
    ensures WeightCeiling(MaxTileZoom + 1) < U64_LIMIT
  {
    WeightCeilingClosedForm(MaxTileZoom + 1);
    assert Pow4(MaxTileZoom + 1) == 0x4_0000_0000;
  }

  /** Writing the frame of row i after the frames of the rows before it writes the frames of rows up to i. */
  lemma WriteFrameStep(dataBuffer: seq<u8>, rows: seq<Fragment>, i: nat, detailZoom: u8, written: seq<u8>)
    requires i < |rows|
    requires written == dataBuffer + EncodeFrames(Framed(rows[..i], detailZoom))
    ensures written + EncodeFrame(FrameOf(rows[i], detailZoom)) == dataBuffer + EncodeFrames(Framed(rows[..i + 1], detailZoom))
  {
    var f := FrameOf(rows[i], detailZoom);
    FramedPush(rows, i, detailZoom);
    EncodeFramesPush(Framed(rows[..i], detailZoom), f);
    assert written + EncodeFrame(f) == dataBuffer + (EncodeFrames(Framed(rows[..i], detailZoom)) + EncodeFrame(f));
  }

  lemma FramedPush(rows: seq<Fragment>, i: nat, detailZoom: u8)
    requires i < |rows|
    ensures Framed(rows[..i + 1], detailZoom) == Framed(rows[..i], detailZoom) + [FrameOf(rows[i], detailZoom)]
  {
  }

  lemma PrefixEmpty(r: Result<Scan, StorageError>)
    ensures Prefix([], 0, r) == r
  {
    if r.Ok? {
      assert [] + r.value.frames == r.value.frames;
    }
  }

  lemma PrefixPrefix(a: seq<Frame>, n: nat, b: seq<Frame>, m: nat, r: Result<Scan, StorageError>)
    ensures Prefix(a, n, Prefix(b, m, r)) == Prefix(a + b, n + m, r)
  {
    if r.Ok? {
      assert a + (b + r.value.frames) == (a + b) + r.value.frames;
    }
  }

  /**
   * A successful call decodes, by the documented frame layout, to exactly the
   * scan's frames in scan order, when their count and data lengths fit a u32.
   */
  lemma RawDataDecodes(store: Store, x: u32, y: u32, z: u8, key: string, value: Option<string>, dataType: Option<DataType>)
    requires z <= MaxTileZoom
    requires ScanOf(store, x, y, z, key, value, dataType).Ok?
    requires |ScanOf(store, x, y, z, key, value, dataType).value.frames| < U32_LIMIT
    requires Encodable(ScanOf(store, x, y, z, key, value, dataType).value.frames)
    ensures RawData(store, x, y, z, key, value, dataType).Ok?
    ensures Decode(RawData(store, x, y, z, key, value, dataType).value)
            == Some(ScanOf(store, x, y, z, key, value, dataType).value.frames)
  {
    DecodeEncode(ScanOf(store, x, y, z, key, value, dataType).value.frames);
  }

  /**
   * The layout of a successful call: the u32 count of the scan's frames,
   * then a 20-byte header and the data for each frame, 4 + sum of
   * (20 + data length) bytes in all.
   */
  lemma RawDataLayout(store: Store, x: u32, y: u32, z: u8, key: string, value: Option<string>, dataType: Option<DataType>)
    requires z <= MaxTileZoom
    requires ScanOf(store, x, y, z, key, value, dataType).Ok?
    ensures var frames := ScanOf(store, x, y, z, key, value, dataType).value.frames;
            var r := RawData(store, x, y, z, key, value, dataType);
            && r.Ok?
            && |r.value| == 4 + FramesSize(frames)
            && r.value[..4] == U32Le(TruncU32(|frames|))
            && r.value[4..] == EncodeFrames(frames)
  {
  }

  /** Storage zoom 0 is always queried, so its failure is the failure of the call. */
  lemma RawDataFailsWithFirstLevel(store: Store, x: u32, y: u32, z: u8, key: string, value: Option<string>, dataType: Option<DataType>)
    requires z <= MaxTileZoom
    ensures var sel := Normalize(key, value, dataType);
            var q := LevelQuery(Target(x, y, z), sel, DetailZoom(z, sel.value, sel.dataType), 0);
            q in store.failures ==> RawData(store, x, y, z, key, value, dataType) == Err(store.failures[q])
  {
  }

  /** Asking for an alias key is asking for `locr` with the alias as value and polygons as type. */
  lemma RawDataAliasing(store: Store, x: u32, y: u32, z: u8, key: string, value: Option<string>, dataType: Option<DataType>)
    requires z <= MaxTileZoom && key in AliasKeys
    ensures RawData(store, x, y, z, key, value, dataType)
            == RawData(store, x, y, z, LandKey, Some(key), Some(Polygons))
  {
    assert LandKey !in AliasKeys;
  }

  /** A tile without data is no error: an empty store gives the buffer holding only a zero count. */
  lemma RawDataEmptyStore(x: u32, y: u32, z: u8, key: string, value: Option<string>, dataType: Option<DataType>)
    requires z <= MaxTileZoom
    ensures RawData(Store([], map[]), x, y, z, key, value, dataType) == Ok([0, 0, 0, 0])
  {
    var sel := Normalize(key, value, dataType);
    var answers := Answers(Store([], map[]), Target(x, y, z), sel, DetailZoom(z, sel.value, sel.dataType));
    assert forall j :: 0 <= j <= MaxTileZoom ==> answers[j] == Ok([]);
    ScanAllEmpty(answers, z, DetailZoom(z, sel.value, sel.dataType), 0, 0);
    var none: seq<Frame> := [];
    assert U32Le(TruncU32(0)) == [0, 0, 0, 0];
    assert Encode(none) == [0, 0, 0, 0];
  }
}
