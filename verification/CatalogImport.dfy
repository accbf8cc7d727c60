/** Applying a previewed file: the preview is computed again, must be the same,
    and is then replayed write by write in one transaction. */
module CatalogImport {
  import opened Wrappers
  import opened CatalogPreview
  import Amounts = ImportCents

  // The catalogue so far and the categories this import created, by lower-case name.
  datatype Progress = Progress(catalog: Catalog, created: map<string, nat>)

  // A plan with the identities its new rows would receive.
  datatype Batch = Batch(catalog: Catalog, rows: seq<Row>, newCategories: seq<nat>, newProducts: seq<nat>)

  ghost predicate Fresh(c: Catalog, n: nat, newCategories: seq<nat>, newProducts: seq<nat>) {
    && |newCategories| == |newProducts| == n
    && (forall k | 0 <= k < n :: newProducts[k] !in c.products && newCategories[k] !in c.categories)
    && (forall j, k | 0 <= j < k < n :: newProducts[j] != newProducts[k] && newCategories[j] != newCategories[k])
  }

  predicate Sized(b: Batch) { |b.newCategories| == |b.newProducts| == |b.rows| }

  ghost predicate ValidBatch(b: Batch) {
    Sized(b) && WellFormed(b.catalog) && Plan(b.catalog, b.rows)
      && Fresh(b.catalog, |b.rows|, b.newCategories, b.newProducts)
  }

  predicate NeedsCategory(row: Row) {
    Writes(row) && row.input.Some? && row.categoryName.Some? && row.input.value.category.None?
  }

  function CategoryKey(row: Row): string
    requires row.categoryName.Some?
  {
    Lower(row.categoryName.value)
  }

  function Target(row: Row, newProduct: nat): nat {
    if row.productId.Some? then row.productId.value else newProduct
  }

  function CategoryFor(created: map<string, nat>, row: Row): Option<nat>
    requires row.input.Some?
  {
    if NeedsCategory(row) && CategoryKey(row) in created then Some(created[CategoryKey(row)])
        else row.input.value.category
  }

  function Saved(before: Option<Product>, i: Input, category: Option<nat>): Product {
    match before
    case None => Product(i.sku, i.barcode, i.name, i.description, category, i.price, i.cost, i.active, 1, 0, 0, 1)
    case Some(p) => p.(sku := i.sku, barcode := i.barcode, name := i.name, description := i.description,
        category := category,
                       price := i.price, cost := i.cost, active := i.active, version := p.version + 1)
  }

  function Adjusted(p: Product, stock: Option<int>): Product {
    if stock.None? || stock.value == p.onHand then p else p.(onHand := stock.value, stockVersion := p.stockVersion + 1)
  }

  /// The writes of one row

  function WithCategory(p: Progress, row: Row, newCategory: nat): Progress {
    if !NeedsCategory(row) || CategoryKey(row) in p.created then p
    else Progress(p.catalog.(categories :=
                    p.catalog.categories[newCategory := Category(row.categoryName.value, true, 1)]),
                  p.created[CategoryKey(row) := newCategory])
  }

  function Before(c: Catalog, row: Row): Option<Product> {
    if row.productId.Some? && row.productId.value in c.products then Some(c.products[row.productId.value]) else None
  }

  function WithProduct(p: Progress, row: Row, newProduct: nat): Progress
    requires row.input.Some?
  {
    p.(catalog := p.catalog.(products := p.catalog.products[
      Target(row, newProduct) := Saved(Before(p.catalog, row), row.input.value, CategoryFor(p.created, row))]))
  }

  function WithStock(p: Progress, row: Row, newProduct: nat): Progress
    requires Target(row, newProduct) in p.catalog.products
  {
    var id := Target(row, newProduct);
    p.(catalog := p.catalog.(products := p.catalog.products[id := Adjusted(p.catalog.products[id], row.stock)]))
  }

  function AppliedRow(p: Progress, row: Row, newCategory: nat, newProduct: nat): Progress {
    if !Writes(row) || row.input.None? then p
    else WithStock(WithProduct(WithCategory(p, row, newCategory), row, newProduct), row, newProduct)
  }

  // The progress after the first n rows.
  function Applied(b: Batch, n: nat): Progress
    requires Sized(b) && n <= |b.rows|
  {
    if n == 0 then Progress(b.catalog, map[])
    else AppliedRow(Applied(b, n - 1), b.rows[n - 1], b.newCategories[n - 1], b.newProducts[n - 1])
  }

  /// What the catalogue looks like after n rows

  // The product row k was meant to leave behind.
  function Intended(b: Batch, created: map<string, nat>, k: nat): Product
    requires k < |b.rows| && b.rows[k].input.Some?
  {
    Adjusted(Saved(Before(b.catalog, b.rows[k]), b.rows[k].input.value, CategoryFor(created, b.rows[k])),
      b.rows[k].stock)
  }

  ghost predicate Wrote(b: Batch, k: nat, id: nat)
    requires Sized(b)
  {
    k < |b.rows| && Writes(b.rows[k]) && Target(b.rows[k], b.newProducts[k]) == id
  }

  ghost predicate WroteBefore(b: Batch, n: nat, id: nat)
    requires Sized(b)
  {
    exists k: nat :: k < n && Wrote(b, k, id)
  }

  ghost predicate RowDone(b: Batch, k: nat, products: map<nat, Product>, created: map<string, nat>)
    requires Sized(b) && k < |b.rows|
  {
    Writes(b.rows[k]) ==>
      && b.rows[k].input.Some? && Target(b.rows[k], b.newProducts[k]) in products
      && products[Target(b.rows[k], b.newProducts[k])] == Intended(b, created, k)
  }

  ghost predicate Original(b: Batch, products: map<nat, Product>, id: nat) {
    id in b.catalog.products && id in products && products[id] == b.catalog.products[id]
  }

  ghost predicate RowsDone(b: Batch, n: nat, products: map<nat, Product>, created: map<string, nat>)
    requires Sized(b) && n <= |b.rows|
  {
    forall k: nat | k < n :: RowDone(b, k, products, created)
  }

  ghost predicate OthersOriginal(b: Batch, n: nat, products: map<nat, Product>)
    requires Sized(b) && n <= |b.rows|
  {
    && (forall id: nat | id in products :: Original(b, products, id) || WroteBefore(b, n, id))
    && (forall id: nat | id in b.catalog.products :: Original(b, products, id) || WroteBefore(b, n, id))
  }

  ghost predicate ProductsInv(b: Batch, n: nat, p: Progress)
    requires Sized(b) && n <= |b.rows|
  {
    && p.catalog.variantSkus == b.catalog.variantSkus
    && RowsDone(b, n, p.catalog.products, p.created)
    && OthersOriginal(b, n, p.catalog.products)
  }

  // Row k created the category of this key.
  ghost predicate Creates(b: Batch, k: nat, key: string, id: nat)
    requires ValidBatch(b)
  {
    k < |b.rows| && NeedsCategory(b.rows[k]) && CategoryKey(b.rows[k]) == key && b.newCategories[k] == id
  }

  ghost predicate CreatedInv(b: Batch, n: nat, created: map<string, nat>)
    requires ValidBatch(b) && n <= |b.rows|
  {
    && (forall k: nat | k < n && NeedsCategory(b.rows[k]) :: CategoryKey(b.rows[k]) in created)
    && (forall key | key in created :: exists k: nat :: k < n && Creates(b, k, key, created[key]))
    && (forall id | id in b.catalog.categories :: Lower(b.catalog.categories[id].name) !in created)
  }

  ghost predicate CategoriesInv(before: map<nat, Category>, categories: map<nat, Category>, created: map<string, nat>) {
    && (forall key | key in created :: created[key] in categories && Lower(categories[created[key]].name) == key)
    && (forall id | id in before :: id in categories && categories[id] == before[id])
    && (forall id | id in categories && id !in before ::
          && Lower(categories[id].name) in created && created[Lower(categories[id].name)] == id
          && categories[id].active && categories[id].version == 1)
  }

  lemma CategoriesStayDistinct(b: Batch, n: nat, p: Progress)
    requires ValidBatch(b) && n <= |b.rows| && CreatedInv(b, n, p.created)
    requires CategoriesInv(b.catalog.categories, p.catalog.categories, p.created)
    ensures DistinctNames(p.catalog.categories)
  {}

  lemma CreatedStep(b: Batch, n: nat, p: Progress)
    requires ValidBatch(b) && n < |b.rows| && CreatedInv(b, n, p.created)
    ensures CreatedInv(b, n + 1, WithCategory(p, b.rows[n], b.newCategories[n]).created)
  {
    var row, id := b.rows[n], b.newCategories[n];
    var after := WithCategory(p, row, id).created;
    assert RowFits(b.catalog, row);
    forall key | key in after ensures exists k: nat :: k < n + 1 && Creates(b, k, key, after[key]) {
      if key in p.created {
        var k: nat :| k < n && Creates(b, k, key, p.created[key]);
      } else {
        assert Creates(b, n, key, id);
      }
    }
  }

  lemma CategoriesStep(b: Batch, n: nat, p: Progress)
    requires ValidBatch(b) && n < |b.rows| && CreatedInv(b, n, p.created)
    requires CategoriesInv(b.catalog.categories, p.catalog.categories, p.created)
    ensures var p' := WithCategory(p, b.rows[n], b.newCategories[n]);
            CategoriesInv(b.catalog.categories, p'.catalog.categories, p'.created)
  {
    var row, id := b.rows[n], b.newCategories[n];
    if NeedsCategory(row) && CategoryKey(row) !in p.created {
      NewCategoryIsNew(b, n, p);
      CategoryAdded(b.catalog.categories, p.catalog.categories, p.created, id, row.categoryName.value);
    }
  }

  lemma CategoryAdded(before: map<nat, Category>, categories: map<nat, Category>, created: map<string, nat>, id: nat,
      name: string)
    requires CategoriesInv(before, categories, created) && id !in categories && Lower(name) !in created
    ensures CategoriesInv(before, categories[id := Category(name, true, 1)], created[Lower(name) := id])
  {}

  lemma NewCategoryIsNew(b: Batch, n: nat, p: Progress)
    requires ValidBatch(b) && n < |b.rows| && CreatedInv(b, n, p.created)
    requires CategoriesInv(b.catalog.categories, p.catalog.categories, p.created)
    ensures b.newCategories[n] !in p.catalog.categories
  {
    var id := b.newCategories[n];
    forall key | key in p.created ensures p.created[key] != id {
      var k: nat :| k < n && Creates(b, k, key, p.created[key]);
    }
  }

  // The codes of row n clash with no product present when it is written.
  lemma NoClash(b: Batch, n: nat, p: Progress, id: nat)
    requires ValidBatch(b) && n < |b.rows| && ProductsInv(b, n, p) && Writes(b.rows[n])
    requires id in p.catalog.products && id != Target(b.rows[n], b.newProducts[n])
    ensures var i := b.rows[n].input.value;
            && Lower(p.catalog.products[id].sku) != Lower(i.sku)
            && (i.barcode.Some? ==> p.catalog.products[id].barcode != i.barcode)
  {
    var row := b.rows[n];
    assert RowFits(b.catalog, row);
    if k: nat :| k < n && Wrote(b, k, id) {
      assert Apart(b.rows[k], row);
      assert RowDone(b, k, p.catalog.products, p.created);
    } else {
      assert Original(b, p.catalog.products, id);
    }
  }

  lemma TargetsDiffer(b: Batch, j: nat, k: nat)
    requires ValidBatch(b) && j < k < |b.rows| && Writes(b.rows[j]) && Writes(b.rows[k])
    ensures Target(b.rows[j], b.newProducts[j]) != Target(b.rows[k], b.newProducts[k])
  {
    assert Apart(b.rows[j], b.rows[k]);
    assert RowFits(b.catalog, b.rows[j]) && RowFits(b.catalog, b.rows[k]);
  }

  lemma ProductsAfterCategory(b: Batch, n: nat, p: Progress)
    requires Sized(b) && n < |b.rows| && ProductsInv(b, n, p)
    requires forall k: nat | k < n && NeedsCategory(b.rows[k]) :: CategoryKey(b.rows[k]) in p.created
    ensures ProductsInv(b, n, WithCategory(p, b.rows[n], b.newCategories[n]))
  {
    var p' := WithCategory(p, b.rows[n], b.newCategories[n]);
    forall k: nat | k < n ensures RowDone(b, k, p'.catalog.products, p'.created) {
      assert RowDone(b, k, p.catalog.products, p.created);
      if Writes(b.rows[k]) {
        CategoryIsKept(b.rows[k], p, b.rows[n], b.newCategories[n]);
      }
    }
  }

  lemma CategoryIsKept(row: Row, p: Progress, next: Row, newCategory: nat)
    requires row.input.Some? && (NeedsCategory(row) ==> CategoryKey(row) in p.created)
    ensures CategoryFor(WithCategory(p, next, newCategory).created, row) == CategoryFor(p.created, row)
  {}

  // The product row n updates has not been touched by the rows before it.
  lemma UntouchedBefore(b: Batch, n: nat, p: Progress)
    requires ValidBatch(b) && n < |b.rows| && ProductsInv(b, n, p) && Writes(b.rows[n])
    ensures Before(p.catalog, b.rows[n]) == Before(b.catalog, b.rows[n])
  {
    var row := b.rows[n];
    assert RowFits(b.catalog, row);
    if row.productId.Some? {
      NotWrittenBefore(b, n);
      assert Original(b, p.catalog.products, row.productId.value);
    }
  }

  lemma NotWrittenBefore(b: Batch, n: nat)
    requires ValidBatch(b) && n < |b.rows| && Writes(b.rows[n])
    ensures !WroteBefore(b, n, Target(b.rows[n], b.newProducts[n]))
  {
    forall k: nat | k < n ensures !Wrote(b, k, Target(b.rows[n], b.newProducts[n])) {
      if Writes(b.rows[k]) {
        TargetsDiffer(b, k, n);
      }
    }
  }

  lemma WroteBeforeNext(b: Batch, n: nat, id: nat)
    requires Sized(b)
    ensures WroteBefore(b, n + 1, id) <==> WroteBefore(b, n, id) || Wrote(b, n, id)
  {
    if k: nat :| k < n + 1 && Wrote(b, k, id) {
      assert k == n || (k < n && Wrote(b, k, id));
    }
    if k: nat :| k < n && Wrote(b, k, id) {
      assert k < n + 1 && Wrote(b, k, id);
    }
  }

  lemma OthersAfterWrite(b: Batch, n: nat, products: map<nat, Product>, product: Product)
    requires Sized(b) && n < |b.rows| && OthersOriginal(b, n, products) && Writes(b.rows[n])
    ensures OthersOriginal(b, n + 1, products[Target(b.rows[n], b.newProducts[n]) := product])
  {
    var target := Target(b.rows[n], b.newProducts[n]);
    var after := products[target := product];
    forall id: nat ensures Original(b, products, id) && id != target ==> Original(b, after, id) {}
    forall id: nat | id in after || id in b.catalog.products
      ensures Original(b, after, id) || WroteBefore(b, n + 1, id)
    {
      WroteBeforeNext(b, n, id);
      if id == target {
        assert Wrote(b, n, id);
      } else {
        assert Original(b, products, id) || WroteBefore(b, n, id);
      }
    }
  }

  lemma RowsAfterWrite(b: Batch, n: nat, products: map<nat, Product>, created: map<string, nat>)
    requires ValidBatch(b) && n < |b.rows| && RowsDone(b, n, products, created) && Writes(b.rows[n])
        && b.rows[n].input.Some?
    ensures RowsDone(b, n + 1, products[Target(b.rows[n], b.newProducts[n]) := Intended(b, created, n)], created)
  {
    var target := Target(b.rows[n], b.newProducts[n]);
    var after := products[target := Intended(b, created, n)];
    forall k: nat | k < n + 1 ensures RowDone(b, k, after, created) {
      if k < n && Writes(b.rows[k]) {
        assert RowDone(b, k, products, created);
        TargetsDiffer(b, k, n);
      }
    }
  }

  lemma RowSkipped(b: Batch, n: nat, p: Progress)
    requires Sized(b) && n < |b.rows| && ProductsInv(b, n, p) && !Writes(b.rows[n])
    ensures ProductsInv(b, n + 1, p)
  {
    forall id: nat | id in p.catalog.products || id in b.catalog.products
      ensures Original(b, p.catalog.products, id) || WroteBefore(b, n + 1, id)
    {
      WroteBeforeNext(b, n, id);
      assert Original(b, p.catalog.products, id) || WroteBefore(b, n, id);
    }
  }

  ghost predicate Layout(b: Batch, n: nat, p: Progress)
    requires ValidBatch(b) && n <= |b.rows|
  {
    && ProductsInv(b, n, p) && CreatedInv(b, n, p.created)
    && CategoriesInv(b.catalog.categories, p.catalog.categories, p.created)
  }

  lemma RowKeepsProducts(b: Batch, n: nat, p: Progress)
    requires ValidBatch(b) && n < |b.rows| && ProductsInv(b, n, p) && CreatedInv(b, n, p.created)
    ensures ProductsInv(b, n + 1, AppliedRow(p, b.rows[n], b.newCategories[n], b.newProducts[n]))
  {
    var row := b.rows[n];
    assert RowFits(b.catalog, row);
    if Writes(row) {
      var c := WithCategory(p, row, b.newCategories[n]);
      ProductsAfterCategory(b, n, p);
      UntouchedBefore(b, n, c);
      OthersAfterWrite(b, n, c.catalog.products, Intended(b, c.created, n));
      RowsAfterWrite(b, n, c.catalog.products, c.created);
      StockedTogether(c, row, b.newProducts[n]);
    } else {
      RowSkipped(b, n, p);
    }
  }

  // Writing the product and its stock does not touch the categories.
  lemma OnlyTheFirstWriteAddsCategories(b: Batch, n: nat, p: Progress)
    requires Sized(b) && n < |b.rows|
    ensures var p' := AppliedRow(p, b.rows[n], b.newCategories[n], b.newProducts[n]);
            var c := WithCategory(p, b.rows[n], b.newCategories[n]);
            p'.created == c.created && p'.catalog.categories == c.catalog.categories
  {}

  lemma StockedTogether(p: Progress, row: Row, newProduct: nat)
    requires row.input.Some?
    ensures var id := Target(row, newProduct);
            var saved := Saved(Before(p.catalog, row), row.input.value, CategoryFor(p.created, row));
            WithStock(WithProduct(p, row, newProduct), row, newProduct)
            == p.(catalog := p.catalog.(products := p.catalog.products[id := Adjusted(saved, row.stock)]))
  {}

  lemma RowKeepsLayout(b: Batch, n: nat, p: Progress)
    requires ValidBatch(b) && n < |b.rows| && Layout(b, n, p)
    ensures Layout(b, n + 1, AppliedRow(p, b.rows[n], b.newCategories[n], b.newProducts[n]))
  {
    RowKeepsProducts(b, n, p);
    CreatedStep(b, n, p);
    CategoriesStep(b, n, p);
    OnlyTheFirstWriteAddsCategories(b, n, p);
  }

  lemma AppliedNext(b: Batch, n: nat)
    requires Sized(b) && n < |b.rows|
    ensures Applied(b, n + 1) == AppliedRow(Applied(b, n), b.rows[n], b.newCategories[n], b.newProducts[n])
  {}

  lemma {:induction false} AppliedLayout(b: Batch, n: nat)
    requires ValidBatch(b) && n <= |b.rows|
    ensures Layout(b, n, Applied(b, n))
  {
    if n == 0 {
      NothingApplied(b);
    } else {
      AppliedLayout(b, n - 1);
      RowKeepsLayout(b, n - 1, Applied(b, n - 1));
      AppliedNext(b, n - 1);
    }
  }

  lemma NothingApplied(b: Batch)
    requires ValidBatch(b)
    ensures Layout(b, 0, Progress(b.catalog, map[]))
  {
    assert forall id: nat | id in b.catalog.products :: Original(b, b.catalog.products, id);
  }

  /// Main results: every intermediate catalogue

  lemma WrittenCodesStayDistinct(products: map<nat, Product>, id: nat, product: Product)
    requires DistinctCodes(products)
    requires forall other | other in products && other != id ::
               && Lower(products[other].sku) != Lower(product.sku)
               && (product.barcode.Some? ==> products[other].barcode != product.barcode)
    ensures DistinctCodes(products[id := product])
  {}

  lemma CategoryWriteIsSafe(b: Batch, n: nat, p: Progress)
    requires ValidBatch(b) && n < |b.rows| && Layout(b, n, p) && WellFormed(p.catalog)
    ensures WellFormed(WithCategory(p, b.rows[n], b.newCategories[n]).catalog)
  {
    CreatedStep(b, n, p);
    CategoriesStep(b, n, p);
    CategoriesStayDistinct(b, n + 1, WithCategory(p, b.rows[n], b.newCategories[n]));
  }

  lemma ProductWriteIsSafe(b: Batch, n: nat, p: Progress)
    requires ValidBatch(b) && n < |b.rows| && ProductsInv(b, n, p) && WellFormed(p.catalog) && Writes(b.rows[n])
    requires b.rows[n].input.Some?
    ensures WellFormed(WithProduct(p, b.rows[n], b.newProducts[n]).catalog)
  {
    var row := b.rows[n];
    var id := Target(row, b.newProducts[n]);
    assert RowFits(b.catalog, row);
    forall other | other in p.catalog.products && other != id
      ensures Lower(p.catalog.products[other].sku) != Lower(row.input.value.sku)
      ensures row.input.value.barcode.Some? ==> p.catalog.products[other].barcode != row.input.value.barcode
    {
      NoClash(b, n, p, other);
    }
    WrittenCodesStayDistinct(p.catalog.products, id,
      Saved(Before(p.catalog, row), row.input.value, CategoryFor(p.created, row)));
  }

  lemma StockWriteIsSafe(p: Progress, row: Row, newProduct: nat)
    requires Target(row, newProduct) in p.catalog.products && WellFormed(p.catalog)
    ensures WellFormed(WithStock(p, row, newProduct).catalog)
  {}

  // The catalogue before row n and after each of its writes.
  ghost predicate SafeRow(b: Batch, n: nat)
    requires Sized(b) && n < |b.rows|
  {
    var p, row := Applied(b, n), b.rows[n];
    var c := WithCategory(p, row, b.newCategories[n]);
    && WellFormed(p.catalog)
    && (Writes(row) && row.input.Some? ==>
          && WellFormed(c.catalog) && WellFormed(WithProduct(c, row, b.newProducts[n]).catalog)
          && WellFormed(AppliedRow(p, row, b.newCategories[n], b.newProducts[n]).catalog))
  }

  lemma RowIsSafe(b: Batch, n: nat)
    requires ValidBatch(b) && n < |b.rows| && WellFormed(Applied(b, n).catalog)
    ensures SafeRow(b, n)
    ensures WellFormed(AppliedRow(Applied(b, n), b.rows[n], b.newCategories[n], b.newProducts[n]).catalog)
  {
    AppliedLayout(b, n);
    RowWritesAreSafe(b, n, Applied(b, n));
  }

  lemma {:induction false} AppliedIsWellFormed(b: Batch, n: nat)
    requires ValidBatch(b) && n <= |b.rows|
    ensures WellFormed(Applied(b, n).catalog)
  {
    if n > 0 {
      AppliedIsWellFormed(b, n - 1);
      RowIsSafe(b, n - 1);
      AppliedNext(b, n - 1);
    }
  }

  // At every intermediate write the SKUs, whatever their case, the barcodes and
  // the category names are pairwise distinct.
  lemma EveryWriteIsSafe(b: Batch, n: nat)
    requires ValidBatch(b) && n < |b.rows|
    ensures SafeRow(b, n)
  {
    AppliedIsWellFormed(b, n);
    RowIsSafe(b, n);
  }

  lemma AllWritesAreSafe(b: Batch)
    requires ValidBatch(b)
    ensures WellFormed(Applied(b, |b.rows|).catalog) && forall n: nat | n < |b.rows| :: SafeRow(b, n)
  {
    AppliedIsWellFormed(b, |b.rows|);
    forall n: nat | n < |b.rows| ensures SafeRow(b, n) {
      EveryWriteIsSafe(b, n);
    }
  }

  lemma RowWritesAreSafe(b: Batch, n: nat, p: Progress)
    requires ValidBatch(b) && n < |b.rows| && Layout(b, n, p) && WellFormed(p.catalog)
    ensures var row := b.rows[n];
            var c := WithCategory(p, row, b.newCategories[n]);
            Writes(row) && row.input.Some? ==>
              && WellFormed(c.catalog) && WellFormed(WithProduct(c, row, b.newProducts[n]).catalog)
              && WellFormed(AppliedRow(p, row, b.newCategories[n], b.newProducts[n]).catalog)
  {
    var row := b.rows[n];
    if Writes(row) && row.input.Some? {
      var c := WithCategory(p, row, b.newCategories[n]);
      CategoryWriteIsSafe(b, n, p);
      ProductsAfterCategory(b, n, p);
      ProductWriteIsSafe(b, n, c);
      StockWriteIsSafe(WithProduct(c, row, b.newProducts[n]), row, b.newProducts[n]);
    }
  }

  /// Main results: what is committed

  // The product is one version on, and its balance too if the row moves it; what
  // is reserved stays.
  predicate KeepsCount(row: Row, before: Option<Product>, after: Product) {
    var onHand := if before.Some? then before.value.onHand else 0;
    var moved := if row.stock.Some? && row.stock.value != onHand then 1 else 0;
    match before
    case Some(p) => after.version == p.version + 1 && after.reserved == p.reserved
                    && after.stockVersion == p.stockVersion + moved
    case None => after.version == 1 && after.reserved == 0 && after.stockVersion == 1 + moved
  }

  // Every INSERT and UPDATE row is committed, each to its own product, and a
  // mapped stock ends as the quantity on hand.
  lemma CommitsEveryRow(b: Batch, k: nat)
    requires ValidBatch(b) && k < |b.rows| && Writes(b.rows[k])
    ensures var id, after, row := Target(b.rows[k], b.newProducts[k]), Applied(b, |b.rows|).catalog.products, b.rows[k];
            && id in after && row.input.Some?
            && after[id].sku == row.input.value.sku && after[id].barcode == row.input.value.barcode
            && after[id].name == row.input.value.name && after[id].price == row.input.value.price
            && after[id].cost == row.input.value.cost && after[id].active == row.input.value.active
            && after[id].description == row.input.value.description
            && after[id].category == CategoryFor(Applied(b, |b.rows|).created, row)
            && after[id].onHand == (if row.stock.Some? then row.stock.value
                                    else if id in b.catalog.products then b.catalog.products[id].onHand else 0)
            && (row.action == INSERT <==> id !in b.catalog.products)
            && KeepsCount(row, if id in b.catalog.products then Some(b.catalog.products[id]) else None, after[id])
  {
    AppliedLayout(b, |b.rows|);
    var p := Applied(b, |b.rows|);
    assert RowFits(b.catalog, b.rows[k]) && RowDone(b, k, p.catalog.products, p.created);
  }

  // A mapped cell is what its product ends with, and a field that is not mapped
  // stays as it was.
  lemma ImportsExactlyTheMappedFields(b: Batch, o: Options, source: seq<seq<string>>, k: nat)
    requires ValidBatch(b) && b.rows == Previewed(b.catalog, o, source).0
    requires k < |b.rows| && k < |source| && b.rows[k].action == UPDATE
    ensures b.rows[k].productId.Some? && b.rows[k].productId.value in b.catalog.products
    ensures b.rows[k].productId.value in Applied(b, |b.rows|).catalog.products
    ensures var id := b.rows[k].productId.value;
            var before, after := b.catalog.products[id], Applied(b, |b.rows|).catalog.products[id];
            && after.sku == Text(Cell(o, source[k], SKU)) && after.name == Text(Cell(o, source[k], NAME))
            && Some(after.price) == Amounts.Cents(Text(Cell(o, source[k], PRICE)))
            && (if COST in o.mapping then Some(after.cost) == Amounts.Cents(Text(Cell(o, source[k], COST)))
                else after.cost == before.cost)
            && (if STOCK in o.mapping then Some(after.onHand) == Stock(Text(Cell(o, source[k], STOCK)))
                else after.onHand == before.onHand)
            && after.description == (if DESCRIPTION in o.mapping then Text(Cell(o, source[k], DESCRIPTION))
                else before.description)
            && after.barcode == (if BARCODE in o.mapping then NonEmpty(Cell(o, source[k], BARCODE)) else before.barcode)
            && after.active == (if ACTIVE in o.mapping then Lower(Text(Cell(o, source[k], ACTIVE))) in YES
                else before.active)
            && (CATEGORY !in o.mapping ==> after.category == before.category)
  {
    CommitsEveryRow(b, k);
    RowReadsItsCells(b.catalog, o, source, k);
    assert RowFits(b.catalog, b.rows[k]);
  }

  // A new product ends with the cells of its row, and a field that is not mapped
  // is empty, or zero, or active.
  lemma ImportsNewProducts(b: Batch, o: Options, source: seq<seq<string>>, k: nat)
    requires ValidBatch(b) && b.rows == Previewed(b.catalog, o, source).0
    requires k < |b.rows| && k < |source| && b.rows[k].action == INSERT
    ensures b.newProducts[k] !in b.catalog.products && b.newProducts[k] in Applied(b, |b.rows|).catalog.products
    ensures var after := Applied(b, |b.rows|).catalog.products[b.newProducts[k]];
            && after.sku == Text(Cell(o, source[k], SKU)) && after.name == Text(Cell(o, source[k], NAME))
            && Some(after.price) == Amounts.Cents(Text(Cell(o, source[k], PRICE)))
            && (if COST in o.mapping then Some(after.cost) == Amounts.Cents(Text(Cell(o, source[k], COST)))
                else after.cost == 0)
            && (if STOCK in o.mapping then Some(after.onHand) == Stock(Text(Cell(o, source[k], STOCK)))
                else after.onHand == 0)
            && after.description == (if DESCRIPTION in o.mapping then Text(Cell(o, source[k], DESCRIPTION)) else "")
            && after.barcode == (if BARCODE in o.mapping then NonEmpty(Cell(o, source[k], BARCODE)) else None)
            && after.active == (if ACTIVE in o.mapping then Lower(Text(Cell(o, source[k], ACTIVE))) in YES else true)
            && (CATEGORY !in o.mapping ==> after.category.None?)
  {
    CommitsEveryRow(b, k);
    RowReadsItsCells(b.catalog, o, source, k);
    assert RowFits(b.catalog, b.rows[k]);
  }

  // A mapped category is the one of that name, whatever its case, old or new.
  lemma ImportsTheNamedCategory(b: Batch, o: Options, source: seq<seq<string>>, k: nat)
    requires ValidBatch(b) && b.rows == Previewed(b.catalog, o, source).0
    requires k < |b.rows| && k < |source| && Writes(b.rows[k]) && CATEGORY in o.mapping
    ensures var id, c := Target(b.rows[k], b.newProducts[k]), Applied(b, |b.rows|).catalog;
            var cell := NonEmpty(Cell(o, source[k], CATEGORY));
            && id in c.products && (c.products[id].category.Some? <==> cell.Some?)
            && (cell.Some? ==>
                  && c.products[id].category.value in c.categories
                  && Lower(c.categories[c.products[id].category.value].name) == Lower(cell.value))
  {
    CommitsEveryRow(b, k);
    RowReadsItsCells(b.catalog, o, source, k);
    AppliedLayout(b, |b.rows|);
  }

  // And nothing else is: any other product is as it was, and none is added.
  lemma CommitsNothingElse(b: Batch, id: nat)
    requires ValidBatch(b) && !WroteBefore(b, |b.rows|, id)
    ensures var after := Applied(b, |b.rows|).catalog.products;
            && (id in after <==> id in b.catalog.products)
            && (id in after ==> after[id] == b.catalog.products[id])
  {
    AppliedLayout(b, |b.rows|);
    var p := Applied(b, |b.rows|);
    assert id in b.catalog.products || id in p.catalog.products ==> Original(b, p.catalog.products, id);
  }

  // Each new category name, whatever its case, is created once, and only if a
  // committed row needs it; every row that needs it gets that one.
  lemma NewCategoriesAreCreatedOnce(b: Batch, name: string)
    requires ValidBatch(b)
    ensures var p := Applied(b, |b.rows|);
            var made := set id | id in p.catalog.categories && id !in b.catalog.categories
                                 && Lower(p.catalog.categories[id].name) == Lower(name);
            if exists k: nat :: k < |b.rows| && NeedsCategory(b.rows[k]) && CategoryKey(b.rows[k]) == Lower(name)
            then Lower(name) in p.created && made == {p.created[Lower(name)]} else made == {}
    ensures var after := Applied(b, |b.rows|).catalog.categories;
            && (forall id | id in b.catalog.categories :: id in after && after[id] == b.catalog.categories[id])
            && (forall id | id in after && id !in b.catalog.categories :: after[id].active && after[id].version == 1)
  {
    var n := |b.rows|;
    AppliedLayout(b, n);
    var p := Applied(b, n);
    if Lower(name) in p.created {
      var k: nat :| k < n && Creates(b, k, Lower(name), p.created[Lower(name)]);
    }
  }

  /// The import as it runs

  // Inserts a product, or updates the one named if it is still at the version read.
  method SaveProduct(c: Catalog, i: Input, id: Option<nat>, version: Option<nat>, newProduct: nat)
    returns (r: Result<(nat, Catalog)>)
    ensures r.Ok? <==> (id.Some? ==> id.value in c.products && version == Some(c.products[id.value].version))
    ensures r.Ok? ==>
              var target := if id.Some? then id.value else newProduct;
              r.value == (target, c.(products := c.products[
                target := Saved(if id.Some? then Some(c.products[id.value]) else None, i, i.category)]))
  {
    if id.Some? {
      if id.value !in c.products { return Err("not found"); }
      if version != Some(c.products[id.value].version) { return Err("version conflict"); }
      return Ok((id.value, c.(products := c.products[id.value := Saved(Some(c.products[id.value]), i, i.category)])));
    }
    return Ok((newProduct, c.(products := c.products[newProduct := Saved(None, i, i.category)])));
  }

  // Moves the balance by the difference, within what the inventory allows.
  method AdjustStock(c: Catalog, id: nat, stock: int, expected: Option<nat>) returns (r: Result<Catalog>)
    requires id in c.products
    ensures r.Ok? <==>
              && (expected.Some? ==> expected.value == c.products[id].stockVersion)
              && (stock == c.products[id].onHand || c.products[id].reserved <= stock <= MAX_STOCK)
    ensures r.Ok? ==> r.value == c.(products := c.products[id := Adjusted(c.products[id], Some(stock))])
  {
    var balance := c.products[id];
    if expected.Some? && expected.value != balance.stockVersion { return Err("stock changed"); }
    var delta := stock - balance.onHand;
    if delta == 0 { return Ok(c.(products := c.products[id := balance])); }
    if balance.onHand + delta < balance.reserved || balance.onHand + delta > MAX_STOCK { return Err("out of range"); }
    balance := balance.(onHand := balance.onHand + delta, stockVersion := balance.stockVersion + 1);
    return Ok(c.(products := c.products[id := balance]));
  }

  // The three writes of one row, against a product that is still as it was previewed.
  method ApplyRow(p: Progress, row: Row, newCategory: nat, newProduct: nat) returns (after: Progress)
    requires Writes(row) && row.input.Some? && TargetFits(p.catalog, row)
    ensures after == AppliedRow(p, row, newCategory, newProduct)
  {
    var input := row.input.value;
    var catalog, created := p.catalog, p.created;
    if row.categoryName.Some? && input.category.None? {
      var key := Lower(row.categoryName.value);
      if key !in created {
        catalog := catalog.(categories := catalog.categories[newCategory := Category(row.categoryName.value, true, 1)]);
        created := created[key := newCategory];
      }
      input := input.(category := Some(created[key]));
    }
    ghost var c := WithCategory(p, row, newCategory);
    assert c == Progress(catalog, created);
    var saved := SaveProduct(catalog, input, row.productId, row.version, newProduct);
    assert saved.Ok?;
    var (id, withProduct) := saved.value;
    assert Progress(withProduct, created) == WithProduct(c, row, newProduct);
    if row.stock.None? {
      NoStockToWrite(WithProduct(c, row, newProduct), row, newProduct);
      return Progress(withProduct, created);
    }
    var adjusted := AdjustStock(withProduct, id, row.stock.value, row.stockVersion);
    assert adjusted.Ok?;
    return Progress(adjusted.value, created);
  }

  lemma TargetStillFits(b: Batch, n: nat)
    requires ValidBatch(b) && n < |b.rows| && Writes(b.rows[n])
    ensures b.rows[n].input.Some? && TargetFits(Applied(b, n).catalog, b.rows[n])
  {
    AppliedLayout(b, n);
    UntouchedBefore(b, n, Applied(b, n));
    assert RowFits(b.catalog, b.rows[n]);
  }

  lemma NoStockToWrite(p: Progress, row: Row, newProduct: nat)
    requires Target(row, newProduct) in p.catalog.products && row.stock.None?
    ensures WithStock(p, row, newProduct) == p
  {
    var id := Target(row, newProduct);
    assert p.catalog.products[id := p.catalog.products[id]] == p.catalog.products;
  }

  // Replays a plan without errors, row by row. No version or stock check fails.
  method Replay(b: Batch) returns (p: Progress)
    requires ValidBatch(b) && forall k | 0 <= k < |b.rows| :: b.rows[k].action != ERROR
    ensures p == Applied(b, |b.rows|)
  {
    p := Progress(b.catalog, map[]);
    for k := 0 to |b.rows|
      invariant p == Applied(b, k)
    {
      AppliedNext(b, k);
      if b.rows[k].action != IGNORE {
        TargetStillFits(b, k);
        p := ApplyRow(p, b.rows[k], b.newCategories[k], b.newProducts[k]);
      }
    }
  }

  datatype JobState =
    | Uploaded
    | Previewing(options: Options, preview: seq<Row>, token: nat, expiresAt: int)
    | Committed(result: Counts)
  datatype Job = Job(source: Source, state: JobState)

  const PREVIEW_SECONDS: int := 1800

  class ImportTables {
    var catalog: Catalog
    var jobs: map<nat, Job>

    constructor (c: Catalog)
      requires WellFormed(c)
      ensures catalog == c && jobs == map[]
    {
      catalog, jobs := c, map[];
    }

    method PreviewImport(id: nat, o: Options, token: nat, now: int) returns (r: Result<seq<Row>>)
      requires WellFormed(catalog)
      modifies `jobs
      ensures r.Ok? <==>
                && id in old(jobs) && !old(jobs)[id].state.Committed?
                && ValidMapping(o, old(jobs)[id].source.columns)
      ensures r.Err? ==> jobs == old(jobs)
      ensures r.Ok? ==>
                && Plan(catalog, r.value) && r.value == Previewed(catalog, o, old(jobs)[id].source.rows).0
                && jobs == old(jobs)[id := Job(old(jobs)[id].source,
                    Previewing(o, r.value, token, now + 1800))]
    {
      if id !in jobs { return Err("not found"); }
      var job := jobs[id];
      if job.state.Committed? { return Err("already applied"); }
      r := BuildPreview(catalog, job.source, o);
      if r.Ok? {
        jobs := jobs[id := job.(state := Previewing(o, r.value, token, now + PREVIEW_SECONDS))];
      }
    }

    // What must hold for a previewed job to be applied.
    ghost predicate Appliable(job: Job, token: nat, now: int)
      reads this
    {
      && job.state.Previewing? && job.state.token == token && now <= job.state.expiresAt
      && ValidMapping(job.state.options, job.source.columns)
      && Previewed(catalog, job.state.options, job.source.rows).0 == job.state.preview
      && forall k | 0 <= k < |job.state.preview| :: job.state.preview[k].action != ERROR
    }

    // Computes the preview again and compares it with the stored one.
    method Recheck(job: Job, token: nat, now: int) returns (r: Result<seq<Row>>)
      requires WellFormed(catalog) && !job.state.Committed?
      ensures r.Ok? <==> Appliable(job, token, now)
      ensures r.Ok? ==> r.value == job.state.preview && Plan(catalog, r.value) && |r.value| == |job.source.rows|
    {
      if !job.state.Previewing? || job.state.token != token || job.state.expiresAt < now {
        return Err("preview expired");
      }
      var current := BuildPreview(catalog, job.source, job.state.options);
      if current.Err? { return current; }
      if current.value != job.state.preview { return Err("catalogue changed"); }
      if exists k | 0 <= k < |current.value| :: current.value[k].action == ERROR { return Err("rows with errors"); }
      PreviewIsPlan(catalog, job.state.options, job.source.rows);
      return current;
    }

    // Commits exactly the rows of a preview that is still true, in one
    // transaction; otherwise changes nothing. Applying again returns the result.
    method ApplyImport(id: nat, token: nat, now: int, newCategories: seq<nat>, newProducts: seq<nat>)
      returns (r: Result<Counts>, ghost batch: Batch)
      requires WellFormed(catalog)
          && (id in jobs ==> Fresh(catalog, |jobs[id].source.rows|, newCategories, newProducts))
      modifies this
      ensures r.Ok? <==> id in old(jobs) && (old(jobs)[id].state.Committed? || old(Appliable(jobs[id], token, now)))
      ensures r.Err? || old(jobs)[id].state.Committed? ==> catalog == old(catalog) && jobs == old(jobs)
      ensures r.Ok? && old(jobs)[id].state.Committed? ==> r.value == old(jobs)[id].state.result
      ensures id in old(jobs) && old(Appliable(jobs[id], token, now)) ==>
                && batch == Batch(old(catalog), old(jobs)[id].state.preview, newCategories, newProducts)
                    && ValidBatch(batch)
                && catalog == Applied(batch, |batch.rows|).catalog && WellFormed(catalog)
                && (forall k: nat | k < |batch.rows| :: SafeRow(batch, k))
                && r == Ok(ImportCounts(batch.rows))
                    && jobs == old(jobs)[id := Job(old(jobs)[id].source, Committed(r.value))]
    {
      batch := Batch(catalog, [], [], []);
      if id !in jobs { return Err("not found"), batch; }
      var job := jobs[id];
      if job.state.Committed? { return Ok(job.state.result), batch; }
      var current := Recheck(job, token, now);
      if current.Err? { return Err(current.reason), batch; }
      var plan := Batch(catalog, current.value, newCategories, newProducts);
      batch := plan;
      var replayed := Replay(plan);
      AllWritesAreSafe(plan);
      var result := ImportCounts(plan.rows);
      catalog := replayed.catalog;
      jobs := jobs[id := job.(state := Committed(result))];
      return Ok(result), batch;
    }
  }
}
