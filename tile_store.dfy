/**
 * The `tiles` table the reader queries, as an abstract read-only store: its
 * rows in the store's own order (the queries have no ORDER BY) and the
 * queries that fail. The two SQL statements of the reader become filters
 * over the rows.
 */
module TileStore {
  import opened Wrappers
  import opened Ints

  /** The `data` column as the SQLite driver reports it. */
  datatype Column = Null | Integer(i: int) | Real | Text(text: seq<u8>) | Blob(blob: seq<u8>)

  /** One row of the `tiles` table. */
  datatype Row = Row(
    detailZoom: int,
    objectType: int,
    osmKey: string,
    osmValue: string,
    x: u32,
    y: u32,
    z: u8,
    data: Column)

  /** The tile filter of a query: one exact tile, or half-open x and y ranges. */
  datatype Area =
    | Tile(x: nat, y: nat)
    | Range(left: nat, right: nat, top: nat, bottom: nat)

  /** The parameters bound to one of the two SQL statements. */
  datatype Query = Query(
    detailZoom: int,
    objectType: int,
    key: string,
    value: string,
    area: Area,
    z: nat)

  /** A returned row: the selected columns x, y, z and the data bytes. */
  datatype Fragment = Fragment(x: u32, y: u32, z: u8, data: seq<u8>)

  /** A failure reported by the store, with its message. */
  datatype StorageError = StorageError(message: string)

  /** The store: its rows in store order, and the queries that fail with their messages. */
  datatype Store = Store(rows: seq<Row>, failures: map<Query, StorageError>)

  /** Text and blob columns give their bytes; any other column type gives no bytes. */
  function ColumnBytes(c: Column): (r: seq<u8>)
    ensures !(c.Text? || c.Blob?) ==> r == []
  {
    match c
    case Text(t) => t
    case Blob(b) => b
    case _ => []
  }

  predicate InArea(r: Row, a: Area)
  {
    match a
    case Tile(x, y) => r.x == x && r.y == y
    case Range(left, right, top, bottom) => left <= r.x < right && top <= r.y < bottom
  }

  /** The WHERE clause of both statements. */
  predicate Matches(r: Row, q: Query)
  {
    && r.detailZoom == q.detailZoom
    && r.objectType == q.objectType
    && r.osmKey == q.key
    && r.osmValue == q.value
    && InArea(r, q.area)
    && r.z == q.z
  }

  function FragmentOf(r: Row): Fragment
  {
    Fragment(r.x, r.y, r.z, ColumnBytes(r.data))
  }

  /** The rows a query returns, in store order. */
  function Select(rows: seq<Row>, q: Query): (r: seq<Fragment>)
    ensures |r| <= |rows|
    ensures forall f :: f in r ==> f.z == q.z
  {
    if rows == [] then []
    else
      var rest := Select(rows[1..], q);
      if Matches(rows[0], q) then [FragmentOf(rows[0])] + rest else rest
  }

  /**
   * A query returns exactly the matching rows: each returned fragment comes
   * from a matching row, and each matching row is returned.
   */
  lemma {:induction false} SelectExact(rows: seq<Row>, q: Query)
    ensures |Select(rows, q)| <= |rows|
    ensures forall f :: f in Select(rows, q) ==> exists row :: row in rows && Matches(row, q) && f == FragmentOf(row)
    ensures forall row :: row in rows && Matches(row, q) ==> FragmentOf(row) in Select(rows, q)
  {
    if rows != [] {
      SelectExact(rows[1..], q);
      assert forall row :: row in rows[1..] ==> row in rows;
      assert forall row :: row in rows ==> row == rows[0] || row in rows[1..];
    }
  }

  /** A single row is returned once when it matches, and not at all otherwise. */
  lemma SelectOne(row: Row, q: Query)
    ensures Select([row], q) == if Matches(row, q) then [FragmentOf(row)] else []
  {
    assert [row][1..] == [];
  }

  /**
   * Splitting the store's rows anywhere splits the result there: the rows of
   * the first part come first, in store order, and every matching row is
   * returned once for each time it is stored. With `SelectOne` this fixes
   * both the order and the multiplicity of the result.
   */
  lemma {:induction false} SelectAppend(a: seq<Row>, b: seq<Row>, q: Query)
    ensures Select(a + b, q) == Select(a, q) + Select(b, q)
  {
    if a == [] {
      assert a + b == b;
    } else {
      assert (a + b)[0] == a[0];
      assert (a + b)[1..] == a[1..] + b;
      SelectAppend(a[1..], b, q);
    }
  }

  /** Runs one query: the store's error if it fails, its matching rows otherwise. */
  function Run(store: Store, q: Query): (r: Result<seq<Fragment>, StorageError>)
    ensures r.Err? <==> q in store.failures
    ensures r.Ok? ==> forall f :: f in r.value ==> f.z == q.z
  {
    if q in store.failures then Err(store.failures[q]) else Ok(Select(store.rows, q))
  }
}
