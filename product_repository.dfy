/** The product repository over a SQL database. The database is a bundle of
    oracles: the single-row lookup by id, the listing query, and the two
    statements that delete and update a row. Go's `int` is 64 bits wide
    here, and its arithmetic wraps around. Prices are not modelled. */
module ProductRepository {
  import opened Common

  /** A product row. Times are nanoseconds since the Unix epoch. */
  datatype Product = Product(
    id: Uuid, name: string, description: string, stock: int,
    createdAt: int, updatedAt: int, isActive: bool, userId: Uuid)

  const Int64Min := -0x8000_0000_0000_0000
  const Int64Max := 0x7fff_ffff_ffff_ffff
  const TwoTo64 := 0x1_0000_0000_0000_0000

  predicate IsInt64(x: int)
  {
    Int64Min <= x <= Int64Max
  }

  /** The 64-bit two's complement value of `x`: the value in range that
      differs from `x` by a multiple of 2^64. */
  function Wrap64(x: int): (r: int)
    ensures IsInt64(r)
    ensures (r - x) % TwoTo64 == 0
    ensures IsInt64(x) ==> r == x
  {
    (x - Int64Min) % TwoTo64 + Int64Min
  }

  /** The sort direction of the listing: "desc" stays, anything else is
      "asc". */
  function NormalizeSort(sort: string): (s: string)
    ensures s == "desc" <==> sort == "desc"
    ensures s == "desc" || s == "asc"
  {
    if sort != "desc" then "asc" else sort
  }

  /** The listing query that is sent: all rows, or one page of them. */
  datatype Plan = Unpaged(sort: string) | Paged(sort: string, limit: int, offset: int)

  /** The query `FindAll` sends. A page is asked for only when both `page`
      and `limit` are non-zero; its offset is `(page - 1) * limit` computed
      in 64-bit arithmetic. */
  function QueryPlan(page: int, limit: int, sort: string): (q: Plan)
    requires IsInt64(page) && IsInt64(limit)
    ensures q.sort == NormalizeSort(sort)
    ensures q.Paged? <==> page != 0 && limit != 0
    ensures q.Paged? ==> q.limit == limit && IsInt64(q.offset)
    ensures q.Paged? ==> (q.offset - (page - 1) * limit) % TwoTo64 == 0
  {
    var s := NormalizeSort(sort);
    if page != 0 && limit != 0 then
      var offset := Wrap64(Wrap64(page - 1) * limit);
      assert (offset - (page - 1) * limit) % TwoTo64 == 0 by {
        WrapProduct(page - 1, limit);
      }
      Paged(s, limit, offset)
    else Unpaged(s)
  }

  /** Wrapping the first factor before multiplying and wrapping again gives
      the wrapped product. */
  lemma WrapProduct(a: int, b: int)
    ensures Wrap64(Wrap64(a) * b) == Wrap64(a * b)
  {
    var k := (Wrap64(a) - a) / TwoTo64;
    assert Wrap64(a) == a + k * TwoTo64;
    assert Wrap64(a) * b == a * b + (k * b) * TwoTo64;
    WrapShift(a * b, k * b);
  }

  /** Adding a multiple of 2^64 does not change the wrapped value. */
  lemma WrapShift(x: int, m: int)
    ensures Wrap64(x + m * TwoTo64) == Wrap64(x)
  {
    var r1, r2 := Wrap64(x + m * TwoTo64), Wrap64(x);
    var d1 := (x + m * TwoTo64 - Int64Min) / TwoTo64;
    var d2 := (x - Int64Min) / TwoTo64;
    assert r1 - Int64Min == x + m * TwoTo64 - Int64Min - d1 * TwoTo64;
    assert r2 - Int64Min == x - Int64Min - d2 * TwoTo64;
    assert r1 - r2 == (m + d2 - d1) * TwoTo64;
  }

  /** When no step overflows, the offset is exactly `(page - 1) * limit`. */
  lemma OffsetWithoutOverflow(page: int, limit: int, sort: string)
    requires IsInt64(page) && IsInt64(limit) && page != 0 && limit != 0
    requires IsInt64((page - 1) * limit)
    ensures QueryPlan(page, limit, sort).offset == (page - 1) * limit
  {
    WrapProduct(page - 1, limit);
  }

  /** The first page starts at the first row, whatever the limit. */
  lemma FirstPageStartsAtZero(limit: int, sort: string)
    requires IsInt64(limit) && limit != 0
    ensures QueryPlan(1, limit, sort) == Paged(NormalizeSort(sort), limit, 0)
  {
  }

  /** Pages are not bounds-checked: a page before the first, with a
      positive limit that does not overflow, asks for a negative offset. */
  lemma PageBeforeFirstHasNegativeOffset(page: int, limit: int, sort: string)
    requires IsInt64(page) && IsInt64(limit) && page < 0 && 0 < limit
    requires IsInt64((page - 1) * limit)
    ensures QueryPlan(page, limit, sort).offset < 0
  {
    OffsetWithoutOverflow(page, limit, sort);
    assert (page - 1) * limit <= -limit by {
      assert (page - 1) * limit == -((1 - page) * limit);
      assert (1 - page) * limit >= limit;
    }
  }

  /** A large page wraps around: page 2^32 + 1 with limit 2^32 asks for
      offset 0, the same rows as the first page. */
  lemma LargePageWrapsToStart(sort: string)
    ensures QueryPlan(0x1_0000_0001, 0x1_0000_0000, sort).offset == 0
  {
    assert Wrap64(0x1_0000_0000) == 0x1_0000_0000;
    assert 0x1_0000_0000 * 0x1_0000_0000 == TwoTo64;
  }

  /** A result set: the outcome of scanning each row `rows.Next()` yields,
      in order, and the error `rows.Err()` reports once the rows run out. */
  datatype Rows = Rows(scans: seq<Result<Product>>, err: Option<Error>)

  /** Row `i` is the first whose scan fails. */
  predicate FirstScanError(scans: seq<Result<Product>>, i: int)
  {
    0 <= i < |scans| && scans[i].Err? && forall j :: 0 <= j < i ==> scans[j].Ok?
  }

  /** The products of the scanned rows, in row order, or the error of the
      first row that fails to scan. */
  function Collect(scans: seq<Result<Product>>): (r: Result<seq<Product>>)
    ensures r.Ok? <==> forall i :: 0 <= i < |scans| ==> scans[i].Ok?
    ensures r.Ok? ==> |r.value| == |scans| && forall i :: 0 <= i < |scans| ==> r.value[i] == scans[i].value
    ensures r.Err? ==> exists i :: FirstScanError(scans, i) && r.error == scans[i].error
  {
    if scans == [] then Ok([])
    else
      var init := scans[..|scans| - 1];
      match Collect(init)
      case Err(e) =>
        assert forall i :: FirstScanError(init, i) ==> FirstScanError(scans, i);
        Err(e)
      case Ok(ps) =>
        match scans[|scans| - 1]
        case Err(e) =>
          assert FirstScanError(scans, |scans| - 1);
          Err(e)
        case Ok(p) => Ok(ps + [p])
  }

  /** What `scanProducts` returns: a failed scan's error first; then the
      result set's error; otherwise the products in row order. */
  function ScanResult(rows: Rows): Result<seq<Product>>
  {
    match Collect(rows.scans)
    case Err(e) => Err(e)
    case Ok(ps) => if rows.err.Some? then Err(rows.err.value) else Ok(ps)
  }

  /** `scanProducts`: the loop over the rows. */
  method ScanProducts(rows: Rows) returns (r: Result<seq<Product>>)
    ensures r == ScanResult(rows)
  {
    var products: seq<Product> := [];
    var i := 0;
    while i < |rows.scans|
      invariant 0 <= i <= |rows.scans|
      invariant forall j :: 0 <= j < i ==> rows.scans[j].Ok?
      invariant |products| == i && forall j :: 0 <= j < i ==> products[j] == rows.scans[j].value
    {
      match rows.scans[i]
      case Err(e) =>
        assert FirstScanError(rows.scans, i);
        return Err(e);
      case Ok(p) =>
        products := products + [p];
        i := i + 1;
    }
    assert products == Collect(rows.scans).value;
    if rows.err.Some? {
      return Err(rows.err.value);
    }
    return Ok(products);
  }

  /** Only the first failing row matters: a later failure, or an error of
      the result set, does not change what is reported. */
  lemma FirstScanErrorWins(ok: seq<Product>, e: Error, rest: seq<Result<Product>>, rowsErr: Option<Error>)
    ensures var scans := seq(|ok|, i requires 0 <= i < |ok| => Ok(ok[i])) + [Err(e)] + rest;
      ScanResult(Rows(scans, rowsErr)) == Err(e)
  {
    var scans := seq(|ok|, i requires 0 <= i < |ok| => Ok(ok[i])) + [Err(e)] + rest;
    assert FirstScanError(scans, |ok|);
  }

  /** The database behind the repository. */
  datatype ProductDb = ProductDb(
    queryRow: Uuid -> Result<Product>,
    query: Plan -> Result<Rows>,
    execDelete: Uuid -> Option<Error>,
    execUpdate: Product -> Option<Error>)

  /** A statement sent to the database. */
  datatype DbCall = QueryRow(id: Uuid) | Query(plan: Plan) | Delete(id: Uuid) | Update(product: Product)

  /** `FindByID`: "no rows" becomes "product not found"; other errors and
      the row found are returned unchanged. */
  function FindByID(db: ProductDb, id: Uuid): (r: Result<Product>)
    ensures r.Ok? <==> db.queryRow(id).Ok?
    ensures r.Ok? ==> r.value == db.queryRow(id).value
    ensures db.queryRow(id) == Err(NoRows) ==> r == Err(ProductNotFound)
    ensures db.queryRow(id).Err? && db.queryRow(id).error != NoRows ==> r == db.queryRow(id)
  {
    match db.queryRow(id)
    case Err(NoRows) => Err(ProductNotFound)
    case other => other
  }

  /** `FindAll`: one listing query, with the plan above, whose rows are
      scanned; a query error is returned unchanged. */
  method FindAll(db: ProductDb, page: int, limit: int, sort: string)
    returns (r: Result<seq<Product>>, calls: seq<DbCall>)
    requires IsInt64(page) && IsInt64(limit)
    ensures calls == [Query(QueryPlan(page, limit, sort))]
    ensures db.query(QueryPlan(page, limit, sort)).Err? ==>
      r == Err(db.query(QueryPlan(page, limit, sort)).error)
    ensures db.query(QueryPlan(page, limit, sort)).Ok? ==>
      r == ScanResult(db.query(QueryPlan(page, limit, sort)).value)
  {
    var plan := QueryPlan(page, limit, sort);
    calls := [Query(plan)];
    match db.query(plan)
    case Err(e) =>
      r := Err(e);
    case Ok(rows) =>
      r := ScanProducts(rows);
  }

  /** `DeleteProduct`: look the product up, then delete the row found by
      its id; a lookup error is returned and nothing is deleted. */
  function DeleteProduct(db: ProductDb, id: Uuid): (r: Run<Option<Error>, DbCall>)
    ensures 1 <= |r.calls| <= 2 && r.calls[0] == QueryRow(id)
    ensures |r.calls| == 2 <==> FindByID(db, id).Ok?
    ensures FindByID(db, id).Err? ==> r.result == Some(FindByID(db, id).error)
    ensures FindByID(db, id).Ok? ==>
      r.calls[1] == Delete(FindByID(db, id).value.id) && r.result == db.execDelete(FindByID(db, id).value.id)
  {
    match FindByID(db, id)
    case Err(e) => Run(Some(e), [QueryRow(id)])
    case Ok(product) => Run(db.execDelete(product.id), [QueryRow(id), Delete(product.id)])
  }

  /** Deleting a product that is not there reports "product not found"
      and sends no delete. */
  lemma DeleteMissingProduct(db: ProductDb, id: Uuid)
    requires db.queryRow(id) == Err(NoRows)
    ensures DeleteProduct(db, id) == Run(Some(ProductNotFound), [QueryRow(id)])
  {
  }

  /** A `*Product`: the caller's product, which `UpdateProduct` changes in
      place. */
  class ProductRef {
    var value: Product

    constructor(p: Product)
      ensures value == p
    {
      value := p;
    }
  }

  /** `UpdateProduct`: look the product up by its id; on a lookup error
      return it and leave the product alone. Otherwise stamp the product's
      update time with the clock reading `now`, in place, and send the
      update; on success return the same product, on failure the error —
      the product keeps its new update time either way. */
  method UpdateProduct(db: ProductDb, product: ProductRef, now: int)
    returns (result: ProductRef?, err: Option<Error>, calls: seq<DbCall>)
    modifies product
    ensures FindByID(db, old(product.value.id)).Err? ==>
      && product.value == old(product.value)
      && result == null
      && err == Some(FindByID(db, old(product.value.id)).error)
      && calls == [QueryRow(old(product.value.id))]
    ensures FindByID(db, old(product.value.id)).Ok? ==>
      && product.value == old(product.value).(updatedAt := now)
      && calls == [QueryRow(product.value.id), Update(product.value)]
      && err == db.execUpdate(product.value)
      && (err.None? ==> result == product)
      && (err.Some? ==> result == null)
  {
    var id := product.value.id;
    calls := [QueryRow(id)];
    var found := FindByID(db, id);
    if found.Err? {
      return null, Some(found.error), calls;
    }
    product.value := product.value.(updatedAt := now);
    calls := calls + [Update(product.value)];
    err := db.execUpdate(product.value);
    if err.Some? {
      return null, err, calls;
    }
    result := product;
  }
}
