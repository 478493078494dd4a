/** The input helpers of internal/utils/utils.go: turning a sheet's rows
    into products, selecting previously failed products, and splitting a
    product list into chunks. Opening the workbook and reading its first
    sheet are I/O: the model starts from the rows `GetRows` returns. */
module Utils {
  import opened Common
  import opened Models
  import opened Text

  const NoDataRows := "Excel file has no data rows"
  const MissingColumns := "required columns (ID and Link) not found in Excel file"
  const NoValidProducts := "no valid products found in Excel file"

  datatype Column = IdColumn | LinkColumn

  /** The header switch: a header names a column after trimming and
      lower-casing, through one of four synonyms per column. */
  function ColumnOf(header: string): Option<Column>
  {
    var h := ToLower(TrimSpace(header));
    if h == "id" || h == "product_id" || h == "productid" || h == "sku" then Some(IdColumn)
    else if h == "link" || h == "url" || h == "product_link" || h == "pdp_url" then Some(LinkColumn)
    else None
  }

  /** A header names the same column whatever its surrounding white space
      and the case of its ASCII letters: matching is on the trimmed,
      lower-cased text. */
  lemma ColumnOfNormalizes(header: string)
    ensures ColumnOf(TrimSpace(header)) == ColumnOf(header)
    ensures ColumnOf(ToLower(header)) == ColumnOf(header)
  {
    TrimSpaceIdempotent(header);
    TrimSpaceLower(header);
    ToLowerIdempotent(TrimSpace(header));
  }

  /** The column each header names, header by header. */
  function HeaderColumns(headers: seq<string>): seq<Option<Column>>
  {
    seq(|headers|, i requires 0 <= i < |headers| => ColumnOf(headers[i]))
  }

  /** The index the header loop leaves for column `c`: the rightmost header
      naming `c`, or -1 when none does. */
  function LastColumn(cols: seq<Option<Column>>, c: Column): (r: int)
    ensures -1 <= r < |cols|
    ensures r >= 0 ==> cols[r] == Some(c)
    ensures r >= 0 ==> forall j :: r < j < |cols| ==> cols[j] != Some(c)
    ensures r == -1 <==> forall j :: 0 <= j < |cols| ==> cols[j] != Some(c)
  {
    if cols == [] then -1
    else if cols[|cols| - 1] == Some(c) then |cols| - 1
    else LastColumn(cols[..|cols| - 1], c)
  }

  /** The product a data row yields: its trimmed id and link cells. */
  function RowProduct(row: seq<string>, idCol: nat, linkCol: nat): (p: Option<Product>)
    ensures p.Some? ==> idCol < |row| && linkCol < |row|
    ensures p.Some? ==> p.value == Product(TrimSpace(row[idCol]), TrimSpace(row[linkCol]))
  {
    if |row| <= idCol || |row| <= linkCol then None
    else
      var id := TrimSpace(row[idCol]);
      var link := TrimSpace(row[linkCol]);
      if id == "" || link == "" then None else Some(Product(id, link))
  }

  /** A data row is skipped exactly when it is too short to hold both cells
      or one of the two cells is blank; a kept row's fields are non-empty. */
  lemma RowProductSkips(row: seq<string>, idCol: nat, linkCol: nat)
    ensures var p := RowProduct(row, idCol, linkCol);
      && (p.None? <==> |row| <= idCol || |row| <= linkCol || Blank(row[idCol]) || Blank(row[linkCol]))
      && (p.Some? ==> p.value.id != "" && p.value.link != "")
  {
    if idCol < |row| && linkCol < |row| {
      TrimSpaceSpec(row[idCol]);
      TrimSpaceSpec(row[linkCol]);
    }
  }

  /** What each data row yields, row by row. */
  function RowProducts(rows: seq<seq<string>>, idCol: nat, linkCol: nat): seq<Option<Product>>
  {
    seq(|rows|, i requires 0 <= i < |rows| => RowProduct(rows[i], idCol, linkCol))
  }

  /** The products of the kept rows, in row order. */
  function Kept(outcomes: seq<Option<Product>>): (ps: seq<Product>)
    ensures |ps| <= |outcomes|
  {
    if outcomes == [] then []
    else
      var prefix := Kept(outcomes[..|outcomes| - 1]);
      match outcomes[|outcomes| - 1]
      case Some(p) => prefix + [p]
      case None => prefix
  }

  /** Row order is kept: collecting two blocks of rows one after the other
      gives the concatenation of their products. */
  lemma {:induction false} KeptAppend(a: seq<Option<Product>>, b: seq<Option<Product>>)
    ensures Kept(a + b) == Kept(a) + Kept(b)
    decreases |b|
  {
    if b == [] {
      assert a + b == a;
    } else {
      var b' := b[..|b| - 1];
      assert (a + b)[..|a + b| - 1] == a + b';
      assert (a + b)[|a + b| - 1] == b[|b| - 1];
      KeptAppend(a, b');
    }
  }

  /** A product is collected exactly when some row yields it. */
  lemma {:induction false} KeptMembers(outcomes: seq<Option<Product>>, p: Product)
    ensures p in Kept(outcomes) <==> Some(p) in outcomes
  {
    if outcomes != [] {
      var prefix := outcomes[..|outcomes| - 1];
      KeptMembers(prefix, p);
      assert outcomes == prefix + [outcomes[|outcomes| - 1]];
    }
  }

  /** Every loaded product has a non-empty id and link with no surrounding
      white space. */
  lemma {:induction false} KeptProductsTrimmed(rows: seq<seq<string>>, idCol: nat, linkCol: nat)
    ensures forall p :: p in Kept(RowProducts(rows, idCol, linkCol)) ==>
      p.id != "" && p.link != "" && TrimSpace(p.id) == p.id && TrimSpace(p.link) == p.link
  {
    var outcomes := RowProducts(rows, idCol, linkCol);
    forall p | p in Kept(outcomes)
      ensures p.id != "" && p.link != "" && TrimSpace(p.id) == p.id && TrimSpace(p.link) == p.link
    {
      KeptMembers(outcomes, p);
      var i :| 0 <= i < |outcomes| && outcomes[i] == Some(p);
      RowProductSkips(rows[i], idCol, linkCol);
      TrimSpaceIdempotent(rows[i][idCol]);
      TrimSpaceIdempotent(rows[i][linkCol]);
    }
  }

  /** The data rows yield some product exactly when some data row is kept. */
  lemma KeptSomeRow(rows: seq<seq<string>>, idCol: nat, linkCol: nat)
    requires |rows| >= 1
    ensures Kept(RowProducts(rows[1..], idCol, linkCol)) != [] <==>
      exists i :: 1 <= i < |rows| && RowProduct(rows[i], idCol, linkCol).Some?
  {
    var outcomes := RowProducts(rows[1..], idCol, linkCol);
    var products := Kept(outcomes);
    if products != [] {
      KeptMembers(outcomes, products[0]);
      var j :| 0 <= j < |outcomes| && outcomes[j] == Some(products[0]);
      assert RowProduct(rows[j + 1], idCol, linkCol).Some?;
    }
    if exists i :: 1 <= i < |rows| && RowProduct(rows[i], idCol, linkCol).Some? {
      var i :| 1 <= i < |rows| && RowProduct(rows[i], idCol, linkCol).Some?;
      assert outcomes[i - 1] == RowProduct(rows[i], idCol, linkCol);
      KeptMembers(outcomes, outcomes[i - 1].value);
    }
  }

  /** The load of a sheet's rows: the first row is the header, the rest are
      data rows. It succeeds exactly when there is a data row, both columns
      are named by some header, and some data row is kept; a successful load
      is never empty. */
  function Load(rows: seq<seq<string>>): (r: Result<seq<Product>>)
    ensures r.Ok? <==>
      && |rows| >= 2
      && LastColumn(HeaderColumns(rows[0]), IdColumn) >= 0 && LastColumn(HeaderColumns(rows[0]), LinkColumn) >= 0
      && exists i :: 1 <= i < |rows|
           && RowProduct(rows[i], LastColumn(HeaderColumns(rows[0]), IdColumn), LastColumn(HeaderColumns(rows[0]), LinkColumn)).Some?
    ensures r.Ok? ==> |r.value| > 0
  {
    if |rows| < 2 then Err(NoDataRows)
    else
      var idCol := LastColumn(HeaderColumns(rows[0]), IdColumn);
      var linkCol := LastColumn(HeaderColumns(rows[0]), LinkColumn);
      if idCol == -1 || linkCol == -1 then Err(MissingColumns)
      else
        var outcomes := RowProducts(rows[1..], idCol, linkCol);
        var products := Kept(outcomes);
        KeptSomeRow(rows, idCol, linkCol);
        if products == [] then Err(NoValidProducts) else Ok(products)
  }

  /** The header loop of LoadProductsFromExcel: every header naming a
      column reassigns that column's index, so the rightmost one stays. */
  method FindColumns(headers: seq<string>) returns (idCol: int, linkCol: int)
    ensures idCol == LastColumn(HeaderColumns(headers), IdColumn)
    ensures linkCol == LastColumn(HeaderColumns(headers), LinkColumn)
  {
    ghost var cols := HeaderColumns(headers);
    idCol, linkCol := -1, -1;
    for i := 0 to |headers|
      invariant idCol == LastColumn(cols[..i], IdColumn)
      invariant linkCol == LastColumn(cols[..i], LinkColumn)
    {
      assert cols[..i + 1][..i] == cols[..i];
      match ColumnOf(headers[i])
      case Some(IdColumn) => idCol := i;
      case Some(LinkColumn) => linkCol := i;
      case None =>
    }
    assert cols[..|headers|] == cols;
  }

  /** The row loop of LoadProductsFromExcel: skip the short and the blank
      rows, append the trimmed (id, link) of every other row. */
  method CollectProducts(rows: seq<seq<string>>, idCol: nat, linkCol: nat) returns (products: seq<Product>)
    requires |rows| >= 1
    ensures products == Kept(RowProducts(rows[1..], idCol, linkCol))
  {
    ghost var outcomes := RowProducts(rows[1..], idCol, linkCol);
    products := [];
    for i := 1 to |rows|
      invariant products == Kept(outcomes[..i - 1])
    {
      assert outcomes[..i][..i - 1] == outcomes[..i - 1];
      assert outcomes[i - 1] == RowProduct(rows[i], idCol, linkCol);
      var row := rows[i];
      if |row| <= idCol || |row| <= linkCol {
        continue;
      }
      var id := TrimSpace(row[idCol]);
      var link := TrimSpace(row[linkCol]);
      if id == "" || link == "" {
        continue;
      }
      products := products + [Product(id, link)];
    }
    assert outcomes[..|rows| - 1] == outcomes;
  }

  /** The row-processing part of LoadProductsFromExcel, from the rows of
      the first sheet on. */
  method LoadProductsFromRows(rows: seq<seq<string>>) returns (r: Result<seq<Product>>)
    ensures r == Load(rows)
  {
    if |rows| < 2 {
      return Err(NoDataRows);
    }
    var idCol, linkCol := FindColumns(rows[0]);
    if idCol == -1 || linkCol == -1 {
      return Err(MissingColumns);
    }
    var products := CollectProducts(rows, idCol, linkCol);
    if |products| == 0 {
      return Err(NoValidProducts);
    }
    r := Ok(products);
  }

  /** The ids of a list of failure records. */
  function FailedIds(failed: seq<FailedUrl>): set<string>
  {
    set f | f in failed :: f.id
  }

  /** The products whose id is in `ids`, in their original order. */
  function FilterByIds(products: seq<Product>, ids: set<string>): (r: seq<Product>)
    ensures |r| <= |products|
  {
    if products == [] then []
    else
      var prefix := FilterByIds(products[..|products| - 1], ids);
      var p := products[|products| - 1];
      if p.id in ids then prefix + [p] else prefix
  }

  /** The filter keeps every copy of a product with a selected id and no
      copy of any other product: it selects exactly, keeping duplicates. */
  lemma {:induction false} FilterByIdsCounts(products: seq<Product>, ids: set<string>, p: Product)
    ensures multiset(FilterByIds(products, ids))[p] == if p.id in ids then multiset(products)[p] else 0
  {
    if products != [] {
      var prefix := products[..|products| - 1];
      FilterByIdsCounts(prefix, ids, p);
      assert products == prefix + [products[|products| - 1]];
    }
  }

  /** The filter keeps order: filtering two lists one after the other gives
      the concatenation of their filtered lists. */
  lemma {:induction false} FilterByIdsAppend(a: seq<Product>, b: seq<Product>, ids: set<string>)
    ensures FilterByIds(a + b, ids) == FilterByIds(a, ids) + FilterByIds(b, ids)
    decreases |b|
  {
    if b == [] {
      assert a + b == a;
    } else {
      var b' := b[..|b| - 1];
      assert (a + b)[..|a + b| - 1] == a + b';
      assert (a + b)[|a + b| - 1] == b[|b| - 1];
      FilterByIdsAppend(a, b', ids);
    }
  }

  /** FilterFailedURLs: build the set of failed ids as a map, then keep the
      products whose id is in it. A product is kept, with all its copies,
      exactly when some failure record has its id. */
  method FilterFailedUrls(products: seq<Product>, failed: seq<FailedUrl>) returns (filtered: seq<Product>)
    ensures filtered == FilterByIds(products, FailedIds(failed))
    ensures forall p :: multiset(filtered)[p] ==
                        if exists f :: f in failed && f.id == p.id then multiset(products)[p] else 0
  {
    var failedMap: map<string, bool> := map[];
    for i := 0 to |failed|
      invariant forall x :: x in failedMap ==> failedMap[x]
      invariant forall x :: x in failedMap <==> exists j :: 0 <= j < i && failed[j].id == x
    {
      failedMap := failedMap[failed[i].id := true];
    }
    assert forall x :: x in failedMap <==> x in FailedIds(failed) by {
      forall x ensures x in failedMap <==> x in FailedIds(failed) {
        if x in FailedIds(failed) {
          var f :| f in failed && f.id == x;
          var j :| 0 <= j < |failed| && failed[j] == f;
        }
      }
    }
    filtered := [];
    for i := 0 to |products|
      invariant filtered == FilterByIds(products[..i], FailedIds(failed))
    {
      assert products[..i + 1][..i] == products[..i];
      var product := products[i];
      if product.id in failedMap && failedMap[product.id] {
        filtered := filtered + [product];
      }
    }
    assert products[..|products|] == products;
    forall p ensures multiset(filtered)[p] ==
      if exists f :: f in failed && f.id == p.id then multiset(products)[p] else 0
    {
      FilterByIdsCounts(products, FailedIds(failed), p);
    }
  }

  /** The concatenation of a list of chunks. */
  function Flatten(chunks: seq<seq<Product>>): seq<Product>
  {
    if chunks == [] then [] else Flatten(chunks[..|chunks| - 1]) + chunks[|chunks| - 1]
  }

  /** Appending a chunk appends its products. */
  lemma {:induction false} FlattenAppend(chunks: seq<seq<Product>>, c: seq<Product>)
    ensures Flatten(chunks + [c]) == Flatten(chunks) + c
  {
  }

  /** An integer lies in at most one interval [q * s, (q + 1) * s). */
  lemma UniqueQuotient(a: int, b: int, s: int, x: int)
    requires s > 0
    requires a * s <= x < (a + 1) * s && b * s <= x < (b + 1) * s
    ensures a == b
  {
  }

  /** The number of chunks for `n` items and a full length of `size`:
      `(n + size - 1) / size`, that is n/size rounded up. */
  lemma ChunkCount(n: nat, size: nat, count: nat)
    requires size > 0
    requires (count - 1) * size < n <= count * size
    ensures (n + size - 1) / size == count
  {
    var q := (n + size - 1) / size;
    assert q * size <= n + size - 1 < (q + 1) * size;
    assert count * size <= n + size - 1 < (count + 1) * size;
    UniqueQuotient(q, count, size, n + size - 1);
  }

  /** ChunkProducts: with a non-positive size the whole list is the single
      chunk; otherwise the chunks rebuild the list, all but the last are
      full, none is empty, and there are n/size rounded up of them. */
  method ChunkProducts(products: seq<Product>, chunkSize: int) returns (chunks: seq<seq<Product>>)
    ensures chunkSize <= 0 ==> chunks == [products]
    ensures chunkSize > 0 ==> Flatten(chunks) == products
    ensures chunkSize > 0 ==> |chunks| == (|products| + chunkSize - 1) / chunkSize
    ensures chunkSize > 0 ==> forall k :: 0 <= k < |chunks| ==> 0 < |chunks[k]| <= chunkSize
    ensures chunkSize > 0 ==> forall k :: 0 <= k < |chunks| - 1 ==> |chunks[k]| == chunkSize
  {
    if chunkSize <= 0 {
      return [products];
    }
    var n := |products|;
    chunks := [];
    var i := 0;
    while i < n
      invariant i == |chunks| * chunkSize
      invariant i <= n ==> Flatten(chunks) == products[..i]
      invariant i > n ==> Flatten(chunks) == products && i - chunkSize < n
      invariant forall k :: 0 <= k < |chunks| ==> 0 < |chunks[k]| <= chunkSize
      invariant forall k :: 0 <= k < |chunks| - 1 ==> |chunks[k]| == chunkSize
      invariant i <= n ==> forall k :: 0 <= k < |chunks| ==> |chunks[k]| == chunkSize
    {
      var end := i + chunkSize;
      if end > n {
        end := n;
      }
      FlattenAppend(chunks, products[i..end]);
      assert products[..end] == products[..i] + products[i..end];
      assert (|chunks| + 1) * chunkSize == |chunks| * chunkSize + chunkSize;
      chunks := chunks + [products[i..end]];
      i := i + chunkSize;
    }
    if i == n {
      assert products[..n] == products;
    }
    ChunkCount(n, chunkSize, |chunks|);
  }
}
