/** The preview of a catalogue file: what each row would do to the catalogue, and
    why it cannot. */
module CatalogPreview {
  import opened Decimals
  import opened Wrappers
  import Amounts = ImportCents

  datatype Field = SKU | BARCODE | NAME | DESCRIPTION | CATEGORY | PRICE | COST | ACTIVE | STOCK
  datatype MatchKey = BySku | ByBarcode
  datatype Mode = InsertOnly | UpdateOnly | Upsert
  datatype Options = Options(mapping: map<Field, nat>, matchKey: MatchKey, mode: Mode, skipRows: set<nat>)
  datatype Source = Source(columns: nat, rows: seq<seq<string>>)

  datatype Category = Category(name: string, active: bool, version: nat)
  // A product with its default variant and that variant's balance.
  datatype Product = Product(
    sku: string, barcode: Option<string>, name: string, description: string, category: Option<nat>,
    price: int, cost: int, active: bool, version: nat, onHand: int, reserved: int, stockVersion: nat)
  datatype Catalog = Catalog(
    products: map<nat, Product>,
    categories: map<nat, Category>,
    variantSkus: set<string>)      // SKUs of the additional variants

  datatype Input = Input(
    sku: string, barcode: Option<string>, name: string, description: string, category: Option<nat>,
    price: int, cost: int, active: bool)

  datatype Action = INSERT | UPDATE | IGNORE | ERROR
  datatype Row = Row(
    line: nat, sku: string, name: string, action: Action, errors: seq<string>,
    input: Option<Input>, categoryName: Option<string>, categoryVersion: Option<nat>,
    stock: Option<int>, productId: Option<nat>, version: Option<nat>, stockVersion: Option<nat>, onHand: Option<int>)

  const MAX_STOCK: int := 1000000
  const YES := {"sim", "true", "1", "ativo"}
  const NO := {"não", "nao", "false", "0", "inativo"}

  // ASCII and Latin-1 letters, and the Kelvin sign.
  function LowerChar(c: char): char {
    if 'A' <= c <= 'Z' || ('\U{00C0}' <= c <= '\U{00DE}' && c != '\U{00D7}') then (c as int + 32) as char
    else if c == '\U{212A}' then 'k' else c
  }

  function Lower(s: string): (r: string)
    ensures |r| == |s|
  {
    seq(|s|, k requires 0 <= k < |s| => LowerChar(s[k]))
  }

  /// What the database guarantees of a catalogue

  ghost predicate DistinctCodes(products: map<nat, Product>) {
    && (forall a, b | a in products && b in products && Lower(products[a].sku) == Lower(products[b].sku) :: a == b)
    && (forall a, b | a in products && b in products
                      && products[a].barcode.Some? && products[a].barcode == products[b].barcode :: a == b)
  }

  ghost predicate DistinctNames(categories: map<nat, Category>) {
    forall a, b | a in categories && b in categories && Lower(categories[a].name) == Lower(categories[b].name) :: a == b
  }

  ghost predicate VariantsApart(products: map<nat, Product>, variantSkus: set<string>) {
    forall id, v | id in products && v in variantSkus :: Lower(products[id].sku) != Lower(v)
  }

  ghost predicate WellFormed(c: Catalog) {
    DistinctCodes(c.products) && DistinctNames(c.categories) && VariantsApart(c.products, c.variantSkus)
  }

  /// Cells

  // The cell of a field; None when the field is not mapped.
  function Cell(o: Options, cells: seq<string>, field: Field): Option<string> {
    if field !in o.mapping then None
    else if o.mapping[field] < |cells| then Some(cells[o.mapping[field]]) else Some("")
  }

  function Text(cell: Option<string>): string { if cell.Some? then cell.value else "" }

  function NonEmpty(cell: Option<string>): Option<string> {
    if cell == Some("") then None else cell
  }

  predicate ValidMapping(o: Options, columns: nat) {
    && SKU in o.mapping && NAME in o.mapping && PRICE in o.mapping
    && (if o.matchKey == BySku then SKU else BARCODE) in o.mapping
    && (forall f | f in o.mapping :: o.mapping[f] < columns)
    && (forall f, g | f in o.mapping && g in o.mapping && o.mapping[f] == o.mapping[g] :: f == g)
  }

  predicate ValidBarcode(code: Option<string>) {
    code.Some? ==> 8 <= |code.value| <= 14 && AllDigits(code.value)
  }

  predicate ValidInput(i: Input) {
    && 2 <= |i.name| <= 160 && 1 <= |i.sku| <= 80 && |i.description| <= 2000
    && ValidBarcode(i.barcode)
    && 0 <= i.price <= Amounts.LIMIT && 0 <= i.cost <= Amounts.LIMIT
  }

  function Stock(text: string): Option<int> {
    if 1 <= |text| <= 7 && AllDigits(text) && Number(text) <= MAX_STOCK
    then Some(Number(text)) else None
  }

  /// Matching

  predicate IsMatch(c: Catalog, o: Options, sku: string, code: Option<string>, id: nat) {
    && id in c.products
    && if o.matchKey == BySku then Lower(c.products[id].sku) == Lower(sku)
       else code.Some? && c.products[id].barcode == code
  }

  ghost function Match(c: Catalog, o: Options, sku: string, code: Option<string>): Option<nat> {
    if exists id: nat :: IsMatch(c, o, sku, code, id)
    then
      var id: nat :| IsMatch(c, o, sku, code, id);
      Some(id)
    else None
  }

  // A product other than the matched one, or an additional variant, has the code already.
  predicate Taken(c: Catalog, sku: string, code: Option<string>, current: Option<nat>) {
    || (exists id | id in c.products ::
          Some(id) != current && (Lower(c.products[id].sku) == Lower(sku)
            || (code.Some? && c.products[id].barcode == code)))
    || (exists v | v in c.variantSkus :: Lower(v) == Lower(sku))
  }

  predicate IsCategory(c: Catalog, name: string, id: nat) {
    id in c.categories && Lower(c.categories[id].name) == Lower(name)
  }

  ghost function FindCategory(c: Catalog, name: Option<string>): Option<nat> {
    if name.Some? && exists id: nat :: IsCategory(c, name.value, id)
    then
      var id: nat :| IsCategory(c, name.value, id);
      Some(id)
    else None
  }

  lemma MatchIsUnique(c: Catalog, o: Options, sku: string, code: Option<string>, id: nat)
    requires WellFormed(c) && IsMatch(c, o, sku, code, id)
    ensures Match(c, o, sku, code) == Some(id)
  {}

  lemma CategoryIsUnique(c: Catalog, name: string, id: nat)
    requires WellFormed(c) && IsCategory(c, name, id)
    ensures FindCategory(c, Some(name)) == Some(id)
  {}

  /// One row

  datatype Seen = Seen(skus: set<string>, barcodes: set<string>, products: set<nat>)

  function Blank(o: Options, cells: seq<string>, line: nat): Row {
    Row(line, Text(Cell(o, cells, SKU)), Text(Cell(o, cells, NAME)), ERROR, [], None, None, None, None, None, None,
      None, None)
  }

  function Refused(row: Row, error: string): Row { row.(action := ERROR, errors := [error]) }

  function Draft(c: Catalog, o: Options, cells: seq<string>, current: Option<Product>,
      category: Option<nat>): Option<Input> {
    var price := Amounts.Cents(Text(Cell(o, cells, PRICE)));
    var cost := if COST !in o.mapping then Some(if current.Some? then current.value.cost else 0)
                else Amounts.Cents(Text(Cell(o, cells, COST)));
    if price.None? || cost.None? then None
    else
      var input := Input(
        Text(Cell(o, cells, SKU)),
        if BARCODE !in o.mapping then (if current.Some? then current.value.barcode else None)
            else NonEmpty(Cell(o, cells, BARCODE)),
        Text(Cell(o, cells, NAME)),
        if DESCRIPTION !in o.mapping then (if current.Some? then current.value.description else "")
            else Text(Cell(o, cells, DESCRIPTION)),
        if CATEGORY !in o.mapping then (if current.Some? then current.value.category else None) else category,
        price.value, cost.value,
        if ACTIVE !in o.mapping then current.None? || current.value.active
            else Lower(Text(Cell(o, cells, ACTIVE))) in YES);
      if ValidInput(input) then Some(input) else None
  }

  function Stocked(o: Options, cells: seq<string>, row: Row, current: Option<Product>): Row {
    if STOCK !in o.mapping then row
    else
      var stock := Stock(Text(Cell(o, cells, STOCK)));
      if stock.None? || stock.value < (if current.Some? then current.value.reserved else 0) then Refused(row, "stock")
      else row.(stock := stock)
  }

  function Linked(o: Options, row: Row, id: Option<nat>, current: Option<Product>): Row {
    if row.errors != [] then row
    else if id.None? || current.None? then row.(action := INSERT)
    else
      var p := current.value;
      row.(action := UPDATE, productId := id, version := Some(p.version),
           stockVersion := if STOCK in o.mapping then Some(p.stockVersion) else None,
           onHand := if STOCK in o.mapping then Some(p.onHand) else None)
  }

  // The row once it is known which product it concerns.
  ghost function Detailed(c: Catalog, o: Options, cells: seq<string>, row: Row, id: Option<nat>): Row
    requires id.Some? ==> id.value in c.products
  {
    var current := if id.Some? then Some(c.products[id.value]) else None;
    var name := NonEmpty(Cell(o, cells, CATEGORY));
    var category := FindCategory(c, name);
    var activeText := Lower(Text(Cell(o, cells, ACTIVE)));
    if category.Some? && category.value in c.categories && !c.categories[category.value].active
    then Refused(row, "archived category")
    else if name.Some? && !(2 <= |name.value| <= 100) then Refused(row, "category name")
    else if ACTIVE in o.mapping && activeText !in YES + NO then Refused(row, "active")
    else
      var input := Draft(c, o, cells, current, category);
      if input.None? then Refused(row, "data")
      else
        var filled := row.(input := input, categoryName := name,
                           categoryVersion := if category.Some? && category.value in c.categories
                                              then Some(c.categories[category.value].version) else None);
        Linked(o, Stocked(o, cells, filled, current), id, current)
  }

  ghost function Judged(c: Catalog, o: Options, seen: Seen, cells: seq<string>, line: nat): (Row, Seen) {
    var row := Blank(o, cells, line);
    var code := NonEmpty(Cell(o, cells, BARCODE));
    if line in o.skipRows then (row.(action := IGNORE), seen)
    else if Lower(row.sku) in seen.skus || (code.Some? && code.value in seen.barcodes)
    then (Refused(row, "repeated code"), seen)
    else
      var marked := seen.(skus := seen.skus + {Lower(row.sku)},
                          barcodes := if code.Some? then seen.barcodes + {code.value} else seen.barcodes);
      var id := Match(c, o, row.sku, code);
      if id.Some? && id.value in seen.products then (Refused(row, "repeated product"), marked)
      else
        var after := marked.(products := if id.Some? then seen.products + {id.value} else seen.products);
        if o.matchKey == ByBarcode && code.None? then (Refused(row, "barcode required"), after)
        else if Taken(c, row.sku, code, id) then (Refused(row, "code in use"), after)
        else if (id.Some? && o.mode == InsertOnly) || (id.None? && o.mode == UpdateOnly)
        then (row.(action := IGNORE), after)
        else (Detailed(c, o, cells, row, id), after)
  }

  ghost function Previewed(c: Catalog, o: Options, rows: seq<seq<string>>): (seq<Row>, Seen) {
    if rows == [] then ([], Seen({}, {}, {}))
    else
      var (done, seen) := Previewed(c, o, rows[..|rows| - 1]);
      var (row, after) := Judged(c, o, seen, rows[|rows| - 1], |rows| + 1);
      (done + [row], after)
  }

  /// What a preview promises

  predicate Writes(row: Row) { row.action == INSERT || row.action == UPDATE }

  // The codes a row would write belong to no other product of the catalogue.
  ghost predicate CodesFree(c: Catalog, i: Input, target: Option<nat>) {
    && (forall id | id in c.products && Some(id) != target ::
          && Lower(c.products[id].sku) != Lower(i.sku)
          && (i.barcode.Some? ==> c.products[id].barcode != i.barcode))
    && (forall v | v in c.variantSkus :: Lower(v) != Lower(i.sku))
  }

  // The row was read against the product it names, and its stock suits it.
  ghost predicate TargetFits(c: Catalog, row: Row) {
    && (row.productId.Some? <==> row.action == UPDATE)
    && (row.productId.Some? ==>
        row.productId.value in c.products && row.version == Some(c.products[row.productId.value].version))
    && (row.productId.None? ==> row.version.None?)
    && (row.stock.Some? ==>
          && 0 <= row.stock.value <= MAX_STOCK
          && (row.productId.Some? ==> c.products[row.productId.value].reserved <= row.stock.value))
    && (row.stockVersion.Some? ==>
          row.productId.Some? && row.stockVersion == Some(c.products[row.productId.value].stockVersion))
  }

  ghost predicate CategoryIsNew(c: Catalog, name: string) {
    forall id | id in c.categories :: Lower(c.categories[id].name) != Lower(name)
  }

  ghost predicate RowFits(c: Catalog, row: Row) {
    Writes(row) ==>
      && row.input.Some? && ValidInput(row.input.value)
      && TargetFits(c, row)
      && CodesFree(c, row.input.value, row.productId)
      && (row.categoryName.Some? && row.input.value.category.None? ==> CategoryIsNew(c, row.categoryName.value))
  }

  ghost predicate Apart(a: Row, b: Row) {
    Writes(a) && Writes(b) && a.input.Some? && b.input.Some? ==>
      && Lower(a.input.value.sku) != Lower(b.input.value.sku)
      && (a.input.value.barcode.Some? ==> a.input.value.barcode != b.input.value.barcode)
      && (a.productId.Some? ==> a.productId != b.productId)
  }

  ghost predicate Plan(c: Catalog, rows: seq<Row>) {
    && (forall k | 0 <= k < |rows| :: RowFits(c, rows[k]))
    && (forall j, k | 0 <= j < k < |rows| :: Apart(rows[j], rows[k]))
  }

  // What the running sets know of the rows so far.
  ghost predicate Remembers(c: Catalog, o: Options, seen: Seen, row: Row) {
    Writes(row) && row.input.Some? ==>
      && Lower(row.input.value.sku) in seen.skus
      && (row.input.value.barcode.Some? && BARCODE in o.mapping ==> row.input.value.barcode.value in seen.barcodes)
      && (row.productId.Some? ==> row.productId.value in seen.products)
      && (BARCODE !in o.mapping ==>
            row.input.value.barcode == if row.productId.Some? && row.productId.value in c.products
                                       then c.products[row.productId.value].barcode else None)
  }

  lemma StockRange(text: string)
    ensures Stock(text).Some? ==> 0 <= Stock(text).value <= MAX_STOCK
  {
    if AllDigits(text) {
      NumberOfDigits(text);
    }
  }

  function BarcodeFor(c: Catalog, o: Options, cells: seq<string>, id: Option<nat>): Option<string> {
    if BARCODE in o.mapping then NonEmpty(Cell(o, cells, BARCODE))
    else if id.Some? && id.value in c.products then c.products[id.value].barcode else None
  }

  lemma FilledIsValid(o: Options, cells: seq<string>, row: Row, id: Option<nat>, p: Option<Product>)
    requires row.errors == [] && (id.Some? <==> p.Some?) && row.stock.None?
    ensures var linked := Linked(o, Stocked(o, cells, row, p), id, p);
            Writes(linked) ==>
              && linked.input == row.input && (linked.action == UPDATE <==> id.Some?)
              && (linked.stock.Some? && p.Some? ==> p.value.reserved <= linked.stock.value)
  {}

  lemma DraftIsValid(c: Catalog, o: Options, cells: seq<string>, current: Option<Product>, category: Option<nat>)
    ensures var i := Draft(c, o, cells, current, category); i.Some? ==> ValidInput(i.value)
  {}

  lemma DetailedIsValid(c: Catalog, o: Options, cells: seq<string>, line: nat, id: Option<nat>)
    requires id.Some? ==> id.value in c.products
    ensures var row := Detailed(c, o, cells, Blank(o, cells, line), id);
            Writes(row) ==>
              && row.input.Some? && ValidInput(row.input.value) && (row.action == UPDATE <==> id.Some?)
              && (row.stock.Some? && id.Some? ==> c.products[id.value].reserved <= row.stock.value)
  {
    var p, name := if id.Some? then Some(c.products[id.value]) else None, NonEmpty(Cell(o, cells, CATEGORY));
    var category := FindCategory(c, name);
    var filled := Blank(o, cells, line).(
      input := Draft(c, o, cells, p, category), categoryName := name,
      categoryVersion := if category.Some? && category.value in c.categories
                         then Some(c.categories[category.value].version) else None);
    DraftIsValid(c, o, cells, p, category);
    FilledIsValid(o, cells, filled, id, p);
  }

  lemma DetailedTarget(c: Catalog, o: Options, cells: seq<string>, line: nat, id: Option<nat>)
    requires id.Some? ==> id.value in c.products
    ensures var row := Detailed(c, o, cells, Blank(o, cells, line), id);
            Writes(row) ==>
              && row.input.Some? && ValidInput(row.input.value) && TargetFits(c, row) && row.productId == id
              && row.input.value.sku == Text(Cell(o, cells, SKU))
                  && row.input.value.barcode == BarcodeFor(c, o, cells, id)
  {
    StockRange(Text(Cell(o, cells, STOCK)));
    DetailedIsValid(c, o, cells, line, id);
    DetailedReadsCells(c, o, cells, line, id);
  }

  lemma DetailedCategory(c: Catalog, o: Options, cells: seq<string>, line: nat, id: Option<nat>)
    requires id.Some? ==> id.value in c.products
    ensures var row := Detailed(c, o, cells, Blank(o, cells, line), id);
            Writes(row) && row.input.Some? && row.categoryName.Some? && row.input.value.category.None? ==>
              CategoryIsNew(c, row.categoryName.value)
  {
    FoundCategory(c, NonEmpty(Cell(o, cells, CATEGORY)));
  }

  lemma UntakenIsFree(c: Catalog, o: Options, cells: seq<string>, i: Input, id: Option<nat>)
    requires WellFormed(c) && !Taken(c, i.sku, NonEmpty(Cell(o, cells, BARCODE)), id)
    requires i.barcode == BarcodeFor(c, o, cells, id)
    ensures CodesFree(c, i, id)
  {}

  lemma DetailedFacts(c: Catalog, o: Options, cells: seq<string>, line: nat, id: Option<nat>)
    requires WellFormed(c) && (id.Some? ==> id.value in c.products)
    requires !Taken(c, Text(Cell(o, cells, SKU)), NonEmpty(Cell(o, cells, BARCODE)), id)
    ensures var row := Detailed(c, o, cells, Blank(o, cells, line), id);
            RowFits(c, row)
            && (Writes(row) ==>
                  && row.productId == id && row.input.value.sku == Text(Cell(o, cells, SKU))
                  && row.input.value.barcode == BarcodeFor(c, o, cells, id))
  {
    var row := Detailed(c, o, cells, Blank(o, cells, line), id);
    DetailedTarget(c, o, cells, line, id);
    DetailedCategory(c, o, cells, line, id);
    if Writes(row) {
      UntakenIsFree(c, o, cells, row.input.value, id);
    }
  }

  lemma WrittenRowIsNew(c: Catalog, o: Options, seen: Seen, cells: seq<string>, line: nat)
    ensures var (row, after) := Judged(c, o, seen, cells, line);
            var sku, code := Text(Cell(o, cells, SKU)), NonEmpty(Cell(o, cells, BARCODE));
            var id := Match(c, o, sku, code);
            && seen.skus <= after.skus && seen.barcodes <= after.barcodes && seen.products <= after.products
            && (Writes(row) ==>
                  && row == Detailed(c, o, cells, Blank(o, cells, line), id) && !Taken(c, sku, code, id)
                  && Lower(sku) !in seen.skus && Lower(sku) in after.skus
                  && (code.Some? ==> code.value !in seen.barcodes && code.value in after.barcodes)
                  && (id.Some? ==> id.value !in seen.products && id.value in after.products))
  {}

  lemma JudgedFacts(c: Catalog, o: Options, seen: Seen, cells: seq<string>, line: nat)
    requires WellFormed(c)
    ensures var (row, after) := Judged(c, o, seen, cells, line);
            && RowFits(c, row) && Remembers(c, o, after, row)
            && seen.skus <= after.skus && seen.barcodes <= after.barcodes && seen.products <= after.products
            && (Writes(row) ==>
                  && Lower(row.input.value.sku) !in seen.skus
                  && (row.input.value.barcode.Some? && BARCODE in o.mapping ==>
                      row.input.value.barcode.value !in seen.barcodes)
                  && (row.productId.Some? ==> row.productId.value !in seen.products))
  {
    WrittenRowIsNew(c, o, seen, cells, line);
    if Writes(Judged(c, o, seen, cells, line).0) {
      DetailedFacts(c, o, cells, line, Match(c, o, Text(Cell(o, cells, SKU)), NonEmpty(Cell(o, cells, BARCODE))));
    }
  }

  lemma NewRowIsApart(c: Catalog, o: Options, seen: Seen, earlier: Row, cells: seq<string>, line: nat)
    requires WellFormed(c) && RowFits(c, earlier) && Remembers(c, o, seen, earlier)
    ensures Apart(earlier, Judged(c, o, seen, cells, line).0)
  {
    JudgedFacts(c, o, seen, cells, line);
  }

  // Every preview is a plan: its rows write distinct codes that no other product
  // of the catalogue has, and they write to distinct products.
  lemma {:induction false} PreviewIsPlan(c: Catalog, o: Options, rows: seq<seq<string>>)
    requires WellFormed(c)
    ensures var (done, seen) := Previewed(c, o, rows);
            && |done| == |rows| && Plan(c, done)
            && forall k | 0 <= k < |done| :: Remembers(c, o, seen, done[k])
  {
    if rows != [] {
      var n := |rows| - 1;
      PreviewIsPlan(c, o, rows[..n]);
      var (done, seen) := Previewed(c, o, rows[..n]);
      var (row, after) := Judged(c, o, seen, rows[n], |rows| + 1);
      JudgedFacts(c, o, seen, rows[n], |rows| + 1);
      forall k | 0 <= k < n ensures Apart(done[k], row) && Remembers(c, o, after, done[k]) {
        NewRowIsApart(c, o, seen, done[k], rows[n], |rows| + 1);
      }
      var all := done + [row];
      forall k | 0 <= k <= n ensures RowFits(c, all[k]) && Remembers(c, o, after, all[k]) {
        assert k < n ==> all[k] == done[k];
      }
    }
  }

  // The product a row concerns, if it is not a new one.
  function Current(c: Catalog, row: Row): Option<Product> {
    if row.productId.Some? && row.productId.value in c.products then Some(c.products[row.productId.value]) else None
  }

  // A mapped field is read from its column, and a short row ends in empty cells.
  lemma CellsAreRead(o: Options, cells: seq<string>, field: Field, text: string)
    ensures Text(Cell(o, cells, field))
         == if field in o.mapping && o.mapping[field] < |cells| then cells[o.mapping[field]] else ""
    ensures NonEmpty(Cell(o, cells, field)) == Some(text) <==>
              text != "" && field in o.mapping && o.mapping[field] < |cells| && cells[o.mapping[field]] == text
  {}

  // What the fields of a row take from its cells, and what they keep of its
  // product or, for a new one, start with.
  ghost predicate ReadsFields(o: Options, cells: seq<string>, p: Option<Product>, i: Input) {
    && i.sku == Text(Cell(o, cells, SKU)) && i.name == Text(Cell(o, cells, NAME))
    && Some(i.price) == Amounts.Cents(Text(Cell(o, cells, PRICE)))
    && (if COST in o.mapping then Some(i.cost) == Amounts.Cents(Text(Cell(o, cells, COST)))
        else i.cost == if p.Some? then p.value.cost else 0)
    && i.description == (if DESCRIPTION in o.mapping then Text(Cell(o, cells, DESCRIPTION))
                         else if p.Some? then p.value.description else "")
    && i.barcode == (if BARCODE in o.mapping then NonEmpty(Cell(o, cells, BARCODE))
                     else if p.Some? then p.value.barcode else None)
    && i.active == (if ACTIVE in o.mapping
                    then Lower(Text(Cell(o, cells, ACTIVE))) in {"sim", "true", "1", "ativo"}
                    else p.None? || p.value.active)
  }

  ghost predicate ReadsCells(c: Catalog, o: Options, cells: seq<string>, row: Row)
    requires row.input.Some?
  {
    var i, p := row.input.value, Current(c, row);
    && (row.action == UPDATE <==> p.Some?)
    && ReadsFields(o, cells, p, i)
    && row.stock == (if STOCK in o.mapping then Stock(Text(Cell(o, cells, STOCK))) else None)
    && (STOCK in o.mapping ==> row.stock.Some?)
    && row.version == (if p.Some? then Some(p.value.version) else None)
    && row.stockVersion == (if p.Some? && STOCK in o.mapping then Some(p.value.stockVersion) else None)
    && row.onHand == (if p.Some? && STOCK in o.mapping then Some(p.value.onHand) else None)
    && (ACTIVE in o.mapping ==> Lower(Text(Cell(o, cells, ACTIVE))) in YES + NO)
    && (CATEGORY !in o.mapping ==>
          row.categoryName.None? && i.category == if p.Some? then p.value.category else None)
    && (CATEGORY in o.mapping ==> NamesCategory(c, NonEmpty(Cell(o, cells, CATEGORY)), i.category, row.categoryName))
    && (CATEGORY in o.mapping ==>
          row.categoryVersion == if i.category.Some? && i.category.value in c.categories
                                 then Some(c.categories[i.category.value].version) else None)
  }

  // The category of that name, if there is one, and an active one, and else a new one.
  ghost predicate NamesCategory(c: Catalog, cell: Option<string>, category: Option<nat>, name: Option<string>) {
    && name == cell
    && (cell.None? ==> category.None?)
    && (category.Some? ==>
          && cell.Some? && category.value in c.categories && c.categories[category.value].active
          && Lower(c.categories[category.value].name) == Lower(cell.value))
    && (cell.Some? && category.None? ==> CategoryIsNew(c, cell.value))
  }

  lemma DraftReadsFields(c: Catalog, o: Options, cells: seq<string>, current: Option<Product>, category: Option<nat>)
    ensures var i := Draft(c, o, cells, current, category);
            i.Some? ==>
              && ReadsFields(o, cells, current, i.value)
              && i.value.category == (if CATEGORY in o.mapping then category
                                      else if current.Some? then current.value.category else None)
  {}

  lemma FoundCategory(c: Catalog, name: Option<string>)
    ensures var found := FindCategory(c, name);
            && (found.Some? ==>
                  && name.Some? && found.value in c.categories
                  && Lower(c.categories[found.value].name) == Lower(name.value))
            && (name.Some? && found.None? ==> CategoryIsNew(c, name.value))
  {
    if name.Some? && FindCategory(c, name).None? {
      forall other | other in c.categories ensures Lower(c.categories[other].name) != Lower(name.value) {
        assert !IsCategory(c, name.value, other);
      }
    }
  }

  lemma DetailedReadsCells(c: Catalog, o: Options, cells: seq<string>, line: nat, id: Option<nat>)
    requires id.Some? ==> id.value in c.products
    ensures var row := Detailed(c, o, cells, Blank(o, cells, line), id);
            Writes(row) ==> row.input.Some? && row.productId == id && ReadsCells(c, o, cells, row)
  {
    var row := Detailed(c, o, cells, Blank(o, cells, line), id);
    var current := if id.Some? then Some(c.products[id.value]) else None;
    var name := NonEmpty(Cell(o, cells, CATEGORY));
    FoundCategory(c, name);
    DraftReadsFields(c, o, cells, current, FindCategory(c, name));
    if Writes(row) {
      assert row.input == Draft(c, o, cells, current, FindCategory(c, name));
      assert Current(c, row) == current;
    }
  }

  lemma JudgedReadsCells(c: Catalog, o: Options, seen: Seen, cells: seq<string>, line: nat)
    ensures var row := Judged(c, o, seen, cells, line).0;
            Writes(row) ==> row.input.Some? && ReadsCells(c, o, cells, row)
  {
    var row := Judged(c, o, seen, cells, line).0;
    var id := Match(c, o, Text(Cell(o, cells, SKU)), NonEmpty(Cell(o, cells, BARCODE)));
    if Writes(row) {
      assert row == Detailed(c, o, cells, Blank(o, cells, line), id);
      DetailedReadsCells(c, o, cells, line, id);
    }
  }

  lemma PreviewGrows(c: Catalog, o: Options, rows: seq<seq<string>>)
    requires rows != []
    ensures |Previewed(c, o, rows).0| == |Previewed(c, o, rows[..|rows| - 1]).0| + 1
    ensures Previewed(c, o, rows).0[..|Previewed(c, o, rows).0| - 1] == Previewed(c, o, rows[..|rows| - 1]).0
  {}

  lemma {:induction false} PreviewLength(c: Catalog, o: Options, rows: seq<seq<string>>)
    ensures |Previewed(c, o, rows).0| == |rows|
  {
    if rows != [] {
      PreviewLength(c, o, rows[..|rows| - 1]);
      PreviewGrows(c, o, rows);
    }
  }

  // The row at k does not depend on the rows after it.
  lemma {:induction false} PreviewOfPrefix(c: Catalog, o: Options, rows: seq<seq<string>>, k: nat)
    requires k < |rows| && |Previewed(c, o, rows).0| == |rows| && |Previewed(c, o, rows[..k + 1]).0| == k + 1
    ensures Previewed(c, o, rows).0[k] == Previewed(c, o, rows[..k + 1]).0[k]
  {
    var n := |rows| - 1;
    if k < n {
      PreviewGrows(c, o, rows);
      assert rows[..n][..k + 1] == rows[..k + 1];
      PreviewOfPrefix(c, o, rows[..n], k);
      assert Previewed(c, o, rows).0[k] == Previewed(c, o, rows).0[..n][k];
    } else {
      assert rows[..k + 1] == rows;
    }
  }

  lemma LastRowReadsItsCells(c: Catalog, o: Options, rows: seq<seq<string>>)
    requires rows != []
    ensures |Previewed(c, o, rows).0| == |rows|
    ensures var row := Previewed(c, o, rows).0[|rows| - 1];
            Writes(row) ==> row.input.Some? && ReadsCells(c, o, rows[|rows| - 1], row)
  {
    var n := |rows| - 1;
    PreviewLength(c, o, rows[..n]);
    JudgedReadsCells(c, o, Previewed(c, o, rows[..n]).1, rows[n], |rows| + 1);
  }

  lemma RowReadsItsCells(c: Catalog, o: Options, rows: seq<seq<string>>, k: nat)
    requires k < |rows| && k < |Previewed(c, o, rows).0| && Writes(Previewed(c, o, rows).0[k])
    ensures var row := Previewed(c, o, rows).0[k];
            row.input.Some? && ReadsCells(c, o, rows[k], row)
  {
    PreviewLength(c, o, rows);
    PreviewLength(c, o, rows[..k + 1]);
    PreviewOfPrefix(c, o, rows, k);
    LastRowReadsItsCells(c, o, rows[..k + 1]);
  }

  /// What becomes of each row

  predicate SameCode(o: Options, a: seq<string>, b: seq<string>) {
    || Lower(Text(Cell(o, a, SKU))) == Lower(Text(Cell(o, b, SKU)))
    || (NonEmpty(Cell(o, b, BARCODE)).Some? && Cell(o, a, BARCODE) == Cell(o, b, BARCODE))
  }

  // The row is not to be skipped and no such row before it has its SKU or barcode.
  predicate Unrepeated(o: Options, rows: seq<seq<string>>, k: nat)
    requires k < |rows|
    decreases k
  {
    k + 2 !in o.skipRows && forall j | 0 <= j < k && Unrepeated(o, rows, j) :: !SameCode(o, rows[j], rows[k])
  }

  // The product has the code by which the row is matched.
  predicate HasKey(p: Product, o: Options, cells: seq<string>) {
    match o.matchKey
    case BySku => Lower(p.sku) == Lower(Text(Cell(o, cells, SKU)))
    case ByBarcode => NonEmpty(Cell(o, cells, BARCODE)).Some? && p.barcode == Cell(o, cells, BARCODE)
  }

  // Another product, or an additional variant, has a code of the row.
  ghost predicate InUse(c: Catalog, o: Options, cells: seq<string>) {
    || (exists id :: id in c.products && !HasKey(c.products[id], o, cells)
                     && (Lower(c.products[id].sku) == Lower(Text(Cell(o, cells, SKU)))
                         || (&& NonEmpty(Cell(o, cells, BARCODE)).Some?
                             && c.products[id].barcode == Cell(o, cells, BARCODE))))
    || (exists v :: v in c.variantSkus && Lower(v) == Lower(Text(Cell(o, cells, SKU))))
  }

  // The row is read: its codes are its own, within the file and the catalogue.
  ghost predicate Considered(c: Catalog, o: Options, rows: seq<seq<string>>, k: nat)
    requires k < |rows|
  {
    && Unrepeated(o, rows, k) && !InUse(c, o, rows[k])
    && (o.matchKey == ByBarcode ==> NonEmpty(Cell(o, rows[k], BARCODE)).Some?)
  }

  // The mode leaves products that exist, or those that do not, alone.
  predicate Excluded(o: Options, p: Option<Product>) {
    match o.mode case InsertOnly => p.Some? case UpdateOnly => p.None? case Upsert => false
  }

  predicate StockSuits(o: Options, cells: seq<string>, p: Option<Product>) {
    var stock := Text(Cell(o, cells, STOCK));
    STOCK in o.mapping ==>
      && 1 <= |stock| <= 7 && AllDigits(stock)
      && (if p.Some? then p.value.reserved else 0) <= Number(stock) <= 1000000
  }

  ghost predicate CategorySuits(c: Catalog, name: Option<string>) {
    name.Some? ==>
      && 2 <= |name.value| <= 100
      && forall id | id in c.categories && Lower(c.categories[id].name) == Lower(name.value) :: c.categories[id].active
  }

  predicate ActiveSuits(o: Options, cells: seq<string>) {
    ACTIVE in o.mapping ==>
      Lower(Text(Cell(o, cells, ACTIVE))) in {"sim", "true", "1", "ativo", "não", "nao", "false", "0", "inativo"}
  }

  ghost predicate FieldsSuit(o: Options, cells: seq<string>, p: Option<Product>) {
    exists i :: ReadsFields(o, cells, p, i)
      && 2 <= |i.name| <= 160 && 1 <= |i.sku| <= 80 && |i.description| <= 2000
      && (i.barcode.Some? ==> 8 <= |i.barcode.value| <= 14 && AllDigits(i.barcode.value))
      && 0 <= i.price <= 100000000 && 0 <= i.cost <= 100000000
  }

  ghost predicate Readable(c: Catalog, o: Options, cells: seq<string>, p: Option<Product>) {
    && FieldsSuit(o, cells, p) && StockSuits(o, cells, p)
    && CategorySuits(c, NonEmpty(Cell(o, cells, CATEGORY))) && ActiveSuits(o, cells)
  }

  ghost predicate HasTarget(c: Catalog, o: Options, cells: seq<string>, p: Option<Product>) {
    if p.Some? then exists id :: id in c.products && c.products[id] == p.value && HasKey(p.value, o, cells)
    else forall id | id in c.products :: !HasKey(c.products[id], o, cells)
  }

  lemma ReadableExactlyWhenDrafted(
      c: Catalog, o: Options, cells: seq<string>, p: Option<Product>, category: Option<nat>)
    ensures Draft(c, o, cells, p, category).Some? <==> FieldsSuit(o, cells, p)
  {
    var drafted := Draft(c, o, cells, p, category);
    if drafted.Some? {
      DraftReadsFields(c, o, cells, p, category);
      assert ReadsFields(o, cells, p, drafted.value) && ValidInput(drafted.value);
    }
  }

  lemma FilledExactlyWhenStockSuits(o: Options, cells: seq<string>, row: Row, id: Option<nat>, p: Option<Product>)
    requires row.errors == [] && (id.Some? <==> p.Some?)
    ensures var linked := Linked(o, Stocked(o, cells, row, p), id, p);
            && (Writes(linked) <==> StockSuits(o, cells, p)) && (!Writes(linked) ==> linked.action == ERROR)
            && (Writes(linked) ==> linked.productId == if id.Some? then id else row.productId)
  {
    StockRange(Text(Cell(o, cells, STOCK)));
  }

  lemma CategorySuitsExactlyWhen(c: Catalog, name: Option<string>)
    requires WellFormed(c)
    ensures var category := FindCategory(c, name);
            CategorySuits(c, name) <==>
              && !(category.Some? && category.value in c.categories && !c.categories[category.value].active)
              && !(name.Some? && !(2 <= |name.value| <= 100))
  {
    FoundCategory(c, name);
  }

  lemma RefusedUnlessSuited(c: Catalog, o: Options, cells: seq<string>, row: Row, id: Option<nat>)
    requires WellFormed(c) && (id.Some? ==> id.value in c.products)
    requires !CategorySuits(c, NonEmpty(Cell(o, cells, CATEGORY))) || !ActiveSuits(o, cells)
    ensures Detailed(c, o, cells, row, id).action == ERROR
  {
    CategorySuitsExactlyWhen(c, NonEmpty(Cell(o, cells, CATEGORY)));
  }

  lemma WrittenExactlyWhenReadable(c: Catalog, o: Options, cells: seq<string>, line: nat, id: Option<nat>)
    requires WellFormed(c) && (id.Some? ==> id.value in c.products)
    ensures var row, p := Detailed(c, o, cells, Blank(o, cells, line), id),
                          if id.Some? then Some(c.products[id.value]) else None;
            && (Writes(row) <==> Readable(c, o, cells, p)) && row.action != IGNORE
            && (Writes(row) ==> row.productId == id)
  {
    var p, name := if id.Some? then Some(c.products[id.value]) else None, NonEmpty(Cell(o, cells, CATEGORY));
    if !CategorySuits(c, name) || !ActiveSuits(o, cells) {
      RefusedUnlessSuited(c, o, cells, Blank(o, cells, line), id);
    } else {
      CategorySuitsExactlyWhen(c, name);
      SuitedExactlyWhenReadable(c, o, cells, line, id);
    }
  }

  lemma SuitedExactlyWhenReadable(c: Catalog, o: Options, cells: seq<string>, line: nat, id: Option<nat>)
    requires WellFormed(c) && (id.Some? ==> id.value in c.products)
    requires CategorySuits(c, NonEmpty(Cell(o, cells, CATEGORY))) && ActiveSuits(o, cells)
    ensures var row, p := Detailed(c, o, cells, Blank(o, cells, line), id),
                          if id.Some? then Some(c.products[id.value]) else None;
            && (Writes(row) <==> FieldsSuit(o, cells, p) && StockSuits(o, cells, p)) && row.action != IGNORE
            && (Writes(row) ==> row.productId == id)
  {
    var p, name := if id.Some? then Some(c.products[id.value]) else None, NonEmpty(Cell(o, cells, CATEGORY));
    var category, blank := FindCategory(c, name), Blank(o, cells, line);
    CategorySuitsExactlyWhen(c, name);
    ReadableExactlyWhenDrafted(c, o, cells, p, category);
    var filled := blank.(
      input := Draft(c, o, cells, p, category), categoryName := name,
      categoryVersion := if category.Some? && category.value in c.categories
                         then Some(c.categories[category.value].version) else None);
    FilledExactlyWhenStockSuits(o, cells, filled, id, p);
  }

  lemma MatchHasKey(c: Catalog, o: Options, cells: seq<string>)
    requires WellFormed(c)
    ensures var id := Match(c, o, Text(Cell(o, cells, SKU)), NonEmpty(Cell(o, cells, BARCODE)));
            && (forall other | other in c.products :: Some(other) == id <==> HasKey(c.products[other], o, cells))
            && (id.Some? ==> id.value in c.products)
            && (Taken(c, Text(Cell(o, cells, SKU)), NonEmpty(Cell(o, cells, BARCODE)), id) <==> InUse(c, o, cells))
  {
    var sku, code := Text(Cell(o, cells, SKU)), NonEmpty(Cell(o, cells, BARCODE));
    forall other | other in c.products
      ensures IsMatch(c, o, sku, code, other) <==> HasKey(c.products[other], o, cells) {}
    forall other | other in c.products && IsMatch(c, o, sku, code, other)
      ensures Match(c, o, sku, code) == Some(other)
    {
      MatchIsUnique(c, o, sku, code, other);
    }
  }

  lemma {:induction false} UnrepeatedInPrefix(o: Options, rows: seq<seq<string>>, n: nat, k: nat)
    requires k < n <= |rows|
    ensures Unrepeated(o, rows[..n], k) <==> Unrepeated(o, rows, k)
    decreases k
  {
    forall j | 0 <= j < k ensures Unrepeated(o, rows[..n], j) <==> Unrepeated(o, rows, j) {
      UnrepeatedInPrefix(o, rows, n, j);
    }
  }

  ghost predicate SeenSku(o: Options, rows: seq<seq<string>>, sku: string) {
    exists j :: 0 <= j < |rows| && Unrepeated(o, rows, j) && Lower(Text(Cell(o, rows[j], SKU))) == sku
  }

  ghost predicate SeenCode(o: Options, rows: seq<seq<string>>, code: string) {
    exists j :: 0 <= j < |rows| && Unrepeated(o, rows, j) && NonEmpty(Cell(o, rows[j], BARCODE)) == Some(code)
  }

  ghost predicate SeenProduct(c: Catalog, o: Options, rows: seq<seq<string>>, id: nat) {
    exists j :: 0 <= j < |rows| && Unrepeated(o, rows, j) && id in c.products && HasKey(c.products[id], o, rows[j])
  }

  // The running sets hold exactly the codes and products of the unrepeated rows.
  ghost predicate SeenExactly(c: Catalog, o: Options, rows: seq<seq<string>>, seen: Seen) {
    && (forall x :: x in seen.skus <==> SeenSku(o, rows, x))
    && (forall x :: x in seen.barcodes <==> SeenCode(o, rows, x))
    && (forall id: nat :: id in seen.products <==> SeenProduct(c, o, rows, id))
  }

  lemma UnrepeatedInPrefixes(o: Options, rows: seq<seq<string>>, n: nat)
    requires n <= |rows|
    ensures forall j | 0 <= j < n :: Unrepeated(o, rows[..n], j) <==> Unrepeated(o, rows, j)
  {
    forall j | 0 <= j < n ensures Unrepeated(o, rows[..n], j) <==> Unrepeated(o, rows, j) {
      UnrepeatedInPrefix(o, rows, n, j);
    }
  }

  lemma SkuSeenOneMore(o: Options, rows: seq<seq<string>>, sku: string)
    requires rows != []
    ensures var n := |rows| - 1;
            SeenSku(o, rows, sku) <==>
              SeenSku(o, rows[..n], sku) || (Unrepeated(o, rows, n) && Lower(Text(Cell(o, rows[n], SKU))) == sku)
  {
    var n := |rows| - 1;
    UnrepeatedInPrefixes(o, rows, n);
    if j :| 0 <= j < n && Unrepeated(o, rows[..n], j) && Lower(Text(Cell(o, rows[..n][j], SKU))) == sku {
      assert Unrepeated(o, rows, j) && rows[j] == rows[..n][j];
    }
    if j :| 0 <= j < n && Unrepeated(o, rows, j) && Lower(Text(Cell(o, rows[j], SKU))) == sku {
      assert Unrepeated(o, rows[..n], j) && rows[j] == rows[..n][j];
    }
  }

  lemma CodeSeenOneMore(o: Options, rows: seq<seq<string>>, code: string)
    requires rows != []
    ensures var n := |rows| - 1;
            SeenCode(o, rows, code) <==>
              || SeenCode(o, rows[..n], code)
              || (Unrepeated(o, rows, n) && NonEmpty(Cell(o, rows[n], BARCODE)) == Some(code))
  {
    var n := |rows| - 1;
    UnrepeatedInPrefixes(o, rows, n);
    if j :| 0 <= j < n && Unrepeated(o, rows[..n], j) && NonEmpty(Cell(o, rows[..n][j], BARCODE)) == Some(code) {
      assert Unrepeated(o, rows, j) && rows[j] == rows[..n][j];
    }
    if j :| 0 <= j < n && Unrepeated(o, rows, j) && NonEmpty(Cell(o, rows[j], BARCODE)) == Some(code) {
      assert Unrepeated(o, rows[..n], j) && rows[j] == rows[..n][j];
    }
  }

  lemma ProductSeenOneMore(c: Catalog, o: Options, rows: seq<seq<string>>, id: nat)
    requires rows != []
    ensures var n := |rows| - 1;
            SeenProduct(c, o, rows, id) <==>
              || SeenProduct(c, o, rows[..n], id)
              || (Unrepeated(o, rows, n) && id in c.products && HasKey(c.products[id], o, rows[n]))
  {
    var n := |rows| - 1;
    UnrepeatedInPrefixes(o, rows, n);
    if j :| 0 <= j < n && Unrepeated(o, rows[..n], j) && id in c.products && HasKey(c.products[id], o, rows[..n][j]) {
      assert Unrepeated(o, rows, j) && rows[j] == rows[..n][j];
    }
    if j :| 0 <= j < n && Unrepeated(o, rows, j) && id in c.products && HasKey(c.products[id], o, rows[j]) {
      assert Unrepeated(o, rows[..n], j) && rows[j] == rows[..n][j];
    }
  }

  lemma UnrepeatedExactlyWhenUnseen(o: Options, rows: seq<seq<string>>)
    requires rows != []
    ensures var n := |rows| - 1;
            var code := NonEmpty(Cell(o, rows[n], BARCODE));
            Unrepeated(o, rows, n) <==>
              && n + 2 !in o.skipRows
              && !SeenSku(o, rows[..n], Lower(Text(Cell(o, rows[n], SKU))))
              && (code.Some? ==> !SeenCode(o, rows[..n], code.value))
  {
    var n := |rows| - 1;
    UnrepeatedInPrefixes(o, rows, n);
    if j :| 0 <= j < n && Unrepeated(o, rows, j) && SameCode(o, rows[j], rows[n]) {
      assert rows[..n][j] == rows[j];
    }
  }

  // No two unrepeated rows concern one product, so the refusal of a second row
  // for a product never comes into play.
  lemma NoProductIsSeenAgain(c: Catalog, o: Options, rows: seq<seq<string>>, id: nat)
    requires rows != [] && id in c.products && HasKey(c.products[id], o, rows[|rows| - 1])
    requires Unrepeated(o, rows, |rows| - 1)
    ensures !SeenProduct(c, o, rows[..|rows| - 1], id)
  {
    var n := |rows| - 1;
    if j :| 0 <= j < n && Unrepeated(o, rows[..n], j) && HasKey(c.products[id], o, rows[..n][j]) {
      UnrepeatedInPrefix(o, rows, n, j);
      assert SameCode(o, rows[j], rows[n]);
    }
  }

  lemma {:induction false} PreviewSeesExactly(c: Catalog, o: Options, rows: seq<seq<string>>)
    requires WellFormed(c)
    ensures SeenExactly(c, o, rows, Previewed(c, o, rows).1)
  {
    if rows != [] {
      var n := |rows| - 1;
      PreviewSeesExactly(c, o, rows[..n]);
      JudgedSeesExactly(c, o, rows, Previewed(c, o, rows[..n]).1);
      SeesOneMore(c, o, rows, Previewed(c, o, rows[..n]).1, Previewed(c, o, rows).1);
    }
  }

  // What one more row adds to the running sets.
  ghost predicate Adds(c: Catalog, o: Options, cells: seq<string>, seen: Seen, after: Seen) {
    var code := NonEmpty(Cell(o, cells, BARCODE));
    && after.skus == seen.skus + {Lower(Text(Cell(o, cells, SKU)))}
    && after.barcodes == seen.barcodes + (if code.Some? then {code.value} else {})
    && forall id: nat :: id in after.products <==>
         id in seen.products || (id in c.products && HasKey(c.products[id], o, cells))
  }

  lemma SeesOneMore(c: Catalog, o: Options, rows: seq<seq<string>>, seen: Seen, after: Seen)
    requires rows != [] && SeenExactly(c, o, rows[..|rows| - 1], seen)
    requires if Unrepeated(o, rows, |rows| - 1) then Adds(c, o, rows[|rows| - 1], seen, after) else after == seen
    ensures SeenExactly(c, o, rows, after)
  {
    forall x ensures x in after.skus <==> SeenSku(o, rows, x) {
      SkuSeenOneMore(o, rows, x);
    }
    forall x ensures x in after.barcodes <==> SeenCode(o, rows, x) {
      CodeSeenOneMore(o, rows, x);
    }
    forall id: nat ensures id in after.products <==> SeenProduct(c, o, rows, id) {
      ProductSeenOneMore(c, o, rows, id);
    }
  }

  lemma JudgedAdds(c: Catalog, o: Options, seen: Seen, cells: seq<string>, line: nat)
    ensures var sku, code := Lower(Text(Cell(o, cells, SKU))), NonEmpty(Cell(o, cells, BARCODE));
            var id, after := Match(c, o, Text(Cell(o, cells, SKU)), code), Judged(c, o, seen, cells, line).1;
            if line in o.skipRows || sku in seen.skus || (code.Some? && code.value in seen.barcodes) then after == seen
            else && after.skus == seen.skus + {sku}
                 && after.barcodes == seen.barcodes + (if code.Some? then {code.value} else {})
                 && after.products == seen.products + (if id.Some? then {id.value} else {})
  {}

  lemma JudgedSeesExactly(c: Catalog, o: Options, rows: seq<seq<string>>, seen: Seen)
    requires WellFormed(c) && rows != [] && SeenExactly(c, o, rows[..|rows| - 1], seen)
    ensures var n := |rows| - 1;
            var after := Judged(c, o, seen, rows[n], |rows| + 1).1;
            if Unrepeated(o, rows, n) then Adds(c, o, rows[n], seen, after) else after == seen
  {
    var n := |rows| - 1;
    UnrepeatedExactlyWhenUnseen(o, rows);
    MatchHasKey(c, o, rows[n]);
    JudgedAdds(c, o, seen, rows[n], |rows| + 1);
  }

  // What becomes of a row of the file, without the running sets: it is left alone
  // when told to or when the mode excludes it, written when its codes are its own
  // and its cells can be read, and an error otherwise. It updates the product
  // that has its key, and inserts one exactly when there is none.
  ghost predicate Fate(c: Catalog, o: Options, rows: seq<seq<string>>, k: nat, row: Row)
    requires k < |rows|
  {
    exists p :: HasTarget(c, o, rows[k], p) && FateOf(c, o, rows, k, row, p)
  }

  ghost predicate FateOf(
      c: Catalog, o: Options, rows: seq<seq<string>>, k: nat, row: Row, p: Option<Product>)
    requires k < |rows|
  {
    && row.line == k + 2
    && row.sku == Text(Cell(o, rows[k], SKU)) && row.name == Text(Cell(o, rows[k], NAME))
    && (row.action == IGNORE <==> k + 2 in o.skipRows || (Considered(c, o, rows, k) && Excluded(o, p)))
    && (Writes(row) <==> Considered(c, o, rows, k) && !Excluded(o, p) && Readable(c, o, rows[k], p))
    && (Writes(row) ==> Current(c, row) == p && (row.productId.Some? <==> p.Some?))
  }

  predicate SameLine(a: Row, b: Row) { a.line == b.line && a.sku == b.sku && a.name == b.name }

  lemma DetailedKeepsLine(c: Catalog, o: Options, cells: seq<string>, row: Row, id: Option<nat>)
    requires id.Some? ==> id.value in c.products
    ensures SameLine(Detailed(c, o, cells, row, id), row)
  {
    FilledKeepsLine(o, cells);
  }

  lemma FilledKeepsLine(o: Options, cells: seq<string>)
    ensures forall row, id, p :: SameLine(Linked(o, Stocked(o, cells, row, p), id, p), row)
  {}

  lemma JudgedNames(c: Catalog, o: Options, seen: Seen, cells: seq<string>, line: nat)
    ensures SameLine(Judged(c, o, seen, cells, line).0, Blank(o, cells, line))
  {
    var blank := Blank(o, cells, line);
    var id := Match(c, o, blank.sku, NonEmpty(Cell(o, cells, BARCODE)));
    DetailedKeepsLine(c, o, cells, blank, id);
  }

  lemma JudgedCases(c: Catalog, o: Options, seen: Seen, cells: seq<string>, line: nat)
    ensures var sku, code := Text(Cell(o, cells, SKU)), NonEmpty(Cell(o, cells, BARCODE));
            var id, row := Match(c, o, sku, code), Judged(c, o, seen, cells, line).0;
            var repeated := || Lower(sku) in seen.skus || (code.Some? && code.value in seen.barcodes)
                            || (id.Some? && id.value in seen.products);
            var excluded := (id.Some? && o.mode == InsertOnly) || (id.None? && o.mode == UpdateOnly);
            if line in o.skipRows then row.action == IGNORE
            else if repeated || (o.matchKey == ByBarcode && code.None?) || Taken(c, sku, code, id)
            then row.action == ERROR
            else if excluded then row.action == IGNORE
            else row == Detailed(c, o, cells, Blank(o, cells, line), id)
  {}

  lemma LastRowFate(c: Catalog, o: Options, rows: seq<seq<string>>)
    requires WellFormed(c) && rows != []
    ensures |Previewed(c, o, rows).0| == |rows| && Fate(c, o, rows, |rows| - 1, Previewed(c, o, rows).0[|rows| - 1])
  {
    var n := |rows| - 1;
    PreviewLength(c, o, rows[..n]);
    PreviewSeesExactly(c, o, rows[..n]);
    JudgedFate(c, o, rows, Previewed(c, o, rows[..n]).1);
  }

  lemma JudgedAction(c: Catalog, o: Options, rows: seq<seq<string>>, seen: Seen)
    requires WellFormed(c) && rows != [] && SeenExactly(c, o, rows[..|rows| - 1], seen)
    ensures var n, row := |rows| - 1, Judged(c, o, seen, rows[|rows| - 1], |rows| + 1).0;
            var id := Match(c, o, Text(Cell(o, rows[n], SKU)), NonEmpty(Cell(o, rows[n], BARCODE)));
            var p := if id.Some? && id.value in c.products then Some(c.products[id.value]) else None;
            && (row.action == IGNORE <==> n + 2 in o.skipRows || (Considered(c, o, rows, n) && Excluded(o, p)))
            && (Writes(row) <==> Considered(c, o, rows, n) && !Excluded(o, p) && Readable(c, o, rows[n], p))
            && (Writes(row) ==> row.productId == id)
  {
    var n := |rows| - 1;
    var cells := rows[n];
    var id := Match(c, o, Text(Cell(o, cells, SKU)), NonEmpty(Cell(o, cells, BARCODE)));
    MatchHasKey(c, o, cells);
    UnrepeatedExactlyWhenUnseen(o, rows);
    if Unrepeated(o, rows, n) && id.Some? {
      NoProductIsSeenAgain(c, o, rows, id.value);
    }
    JudgedCases(c, o, seen, cells, |rows| + 1);
    WrittenExactlyWhenReadable(c, o, cells, |rows| + 1, id);
  }

  lemma JudgedFate(c: Catalog, o: Options, rows: seq<seq<string>>, seen: Seen)
    requires WellFormed(c) && rows != [] && SeenExactly(c, o, rows[..|rows| - 1], seen)
    ensures Fate(c, o, rows, |rows| - 1, Judged(c, o, seen, rows[|rows| - 1], |rows| + 1).0)
  {
    var n := |rows| - 1;
    var id := Match(c, o, Text(Cell(o, rows[n], SKU)), NonEmpty(Cell(o, rows[n], BARCODE)));
    MatchHasKey(c, o, rows[n]);
    JudgedNames(c, o, seen, rows[n], |rows| + 1);
    JudgedAction(c, o, rows, seen);
    var p := if id.Some? then Some(c.products[id.value]) else None;
    assert HasTarget(c, o, rows[n], p);
    assert FateOf(c, o, rows, n, Judged(c, o, seen, rows[n], |rows| + 1).0, p);
  }

  lemma ConsideredInPrefix(c: Catalog, o: Options, rows: seq<seq<string>>, k: nat, row: Row)
    requires k < |rows| && Fate(c, o, rows[..k + 1], k, row)
    ensures Fate(c, o, rows, k, row)
  {
    UnrepeatedInPrefix(o, rows, k + 1, k);
    assert rows[..k + 1][k] == rows[k];
    var p :| HasTarget(c, o, rows[k], p) && FateOf(c, o, rows[..k + 1], k, row, p);
    assert FateOf(c, o, rows, k, row, p);
  }

  lemma RowMeetsItsFate(c: Catalog, o: Options, rows: seq<seq<string>>, k: nat)
    requires WellFormed(c) && k < |rows|
    ensures |Previewed(c, o, rows).0| == |rows| && Fate(c, o, rows, k, Previewed(c, o, rows).0[k])
  {
    PreviewLength(c, o, rows);
    PreviewLength(c, o, rows[..k + 1]);
    PreviewOfPrefix(c, o, rows, k);
    LastRowFate(c, o, rows[..k + 1]);
    ConsideredInPrefix(c, o, rows, k, Previewed(c, o, rows).0[k]);
  }

  /// The preview as it runs

  method FindMatch(c: Catalog, o: Options, sku: string, code: Option<string>) returns (id: Option<nat>)
    requires WellFormed(c)
    ensures id == Match(c, o, sku, code)
  {
    if found :| found in c.products && IsMatch(c, o, sku, code, found) {
      MatchIsUnique(c, o, sku, code, found);
      return Some(found);
    }
    return None;
  }

  method FindCategoryByName(c: Catalog, name: Option<string>) returns (id: Option<nat>)
    requires WellFormed(c)
    ensures id == FindCategory(c, name)
    ensures id.Some? ==> id.value in c.categories && name.Some?
  {
    if name.None? { return None; }
    if found :| found in c.categories && IsCategory(c, name.value, found) {
      CategoryIsUnique(c, name.value, found);
      return Some(found);
    }
    return None;
  }

  method Detail(c: Catalog, o: Options, cells: seq<string>, line: nat, id: Option<nat>) returns (row: Row)
    requires WellFormed(c) && (id.Some? ==> id.value in c.products)
    ensures row == Detailed(c, o, cells, Blank(o, cells, line), id)
  {
    var blank := Blank(o, cells, line);
    var current := if id.Some? then Some(c.products[id.value]) else None;
    var name := NonEmpty(Cell(o, cells, CATEGORY));
    var category := FindCategoryByName(c, name);
    if category.Some? && !c.categories[category.value].active { return Refused(blank, "archived category"); }
    if name.Some? && (|name.value| < 2 || |name.value| > 100) { return Refused(blank, "category name"); }
    if ACTIVE in o.mapping && Lower(Text(Cell(o, cells, ACTIVE))) !in YES + NO { return Refused(blank, "active"); }
    var input := Draft(c, o, cells, current, category);
    if input.None? { return Refused(blank, "data"); }
    row := blank.(input := input);
    if name.Some? {
      row := row.(categoryName := name);
      if category.Some? {
        row := row.(categoryVersion := Some(c.categories[category.value].version));
      }
    }
    row := Linked(o, Stocked(o, cells, row, current), id, current);
  }

  method JudgeRow(c: Catalog, o: Options, seen: Seen, cells: seq<string>, line: nat) returns (row: Row, after: Seen)
    requires WellFormed(c)
    ensures (row, after) == Judged(c, o, seen, cells, line)
  {
    row, after := Blank(o, cells, line), seen;
    var code := NonEmpty(Cell(o, cells, BARCODE));
    if line in o.skipRows { return row.(action := IGNORE), after; }
    if Lower(row.sku) in seen.skus || (code.Some? && code.value in seen.barcodes) {
      return Refused(row, "repeated code"), after;
    }
    after := after.(skus := after.skus + {Lower(row.sku)});
    if code.Some? { after := after.(barcodes := after.barcodes + {code.value}); }
    var id := FindMatch(c, o, row.sku, code);
    if id.Some? && id.value in seen.products { return Refused(row, "repeated product"), after; }
    if id.Some? { after := after.(products := after.products + {id.value}); }
    if o.matchKey == ByBarcode && code.None? { return Refused(row, "barcode required"), after; }
    if Taken(c, row.sku, code, id) { return Refused(row, "code in use"), after; }
    if (id.Some? && o.mode == InsertOnly) || (id.None? && o.mode == UpdateOnly) {
      return row.(action := IGNORE), after;
    }
    row := Detail(c, o, cells, line, id);
  }

  // Columns are used once each exactly when they are as many as the fields mapped.
  lemma {:induction false} UsedOnceExactlyWhenAsMany(mapping: map<Field, nat>)
    ensures |mapping.Values| <= |mapping|
    ensures |mapping.Values| == |mapping| <==>
              forall f, g | f in mapping && g in mapping && mapping[f] == mapping[g] :: f == g
    decreases |mapping|
  {
    if mapping == map[] {
      assert mapping.Values == {};
    } else {
      var f :| f in mapping;
      var rest := mapping - {f};
      assert mapping == rest[f := mapping[f]];
      assert rest.Keys == mapping.Keys - {f};
      UsedOnceExactlyWhenAsMany(rest);
      assert mapping.Values == rest.Values + {mapping[f]} by {
        forall n | n in mapping.Values ensures n in rest.Values + {mapping[f]} {
          var g :| g in mapping && mapping[g] == n;
          assert g != f ==> g in rest && rest[g] == n;
        }
        forall n | n in rest.Values ensures n in mapping.Values {
          var g :| g in rest && rest[g] == n;
          assert g in mapping && mapping[g] == n;
        }
      }
      if mapping[f] in rest.Values {
        var g :| g in rest && rest[g] == mapping[f];
        assert g in mapping && g != f && mapping[g] == mapping[f];
      }
    }
  }

  method CheckMapping(o: Options, columns: nat) returns (ok: bool)
    ensures ok <==> ValidMapping(o, columns)
    ensures ok <==>
              && {SKU, NAME, PRICE, if o.matchKey == BySku then SKU else BARCODE} <= o.mapping.Keys
              && (forall n | n in o.mapping.Values :: n < columns)
              && |o.mapping.Values| == |o.mapping|
  {
    var fields := [SKU, NAME, PRICE, if o.matchKey == BySku then SKU else BARCODE];
    for k := 0 to |fields|
      invariant forall j | 0 <= j < k :: fields[j] in o.mapping
    {
      if fields[k] !in o.mapping {
        assert fields[k] == SKU || fields[k] == NAME || fields[k] == PRICE || fields[k] == fields[3];
        return false;
      }
    }
    assert fields[0] in o.mapping && fields[1] in o.mapping && fields[2] in o.mapping && fields[3] in o.mapping;
    UsedOnceExactlyWhenAsMany(o.mapping);
    assert forall f | f in o.mapping :: o.mapping[f] in o.mapping.Values;
    return |o.mapping.Values| == |o.mapping| && forall n | n in o.mapping.Values :: n < columns;
  }

  method JudgeRows(c: Catalog, source: Source, o: Options) returns (rows: seq<Row>)
    requires WellFormed(c)
    ensures rows == Previewed(c, o, source.rows).0
  {
    rows := [];
    var seen := Seen({}, {}, {});
    for index := 0 to |source.rows|
      invariant (rows, seen) == Previewed(c, o, source.rows[..index])
    {
      assert source.rows[..index + 1][..index] == source.rows[..index];
      var row, after := JudgeRow(c, o, seen, source.rows[index], index + 2);
      rows, seen := rows + [row], after;
    }
    assert source.rows[..|source.rows|] == source.rows;
  }

  method BuildPreview(c: Catalog, source: Source, o: Options) returns (r: Result<seq<Row>>)
    requires WellFormed(c)
    ensures r.Ok? <==>
              && {SKU, NAME, PRICE, if o.matchKey == BySku then SKU else BARCODE} <= o.mapping.Keys
              && (forall n | n in o.mapping.Values :: n < source.columns)
              && |o.mapping.Values| == |o.mapping|
    ensures r.Ok? <==> ValidMapping(o, source.columns)
    ensures r.Ok? ==> r.value == Previewed(c, o, source.rows).0 && Plan(c, r.value)
  {
    var ok := CheckMapping(o, source.columns);
    if !ok { return Err("mapping"); }
    var rows := JudgeRows(c, source, o);
    PreviewIsPlan(c, o, source.rows);
    return Ok(rows);
  }

  datatype Counts = Counts(inserted: nat, updated: nat, ignored: nat, errors: nat)

  function CountOf(rows: seq<Row>, action: Action): nat {
    if rows == [] then 0 else CountOf(rows[..|rows| - 1], action) + if rows[|rows| - 1].action == action then 1 else 0
  }

  function ImportCounts(rows: seq<Row>): Counts {
    Counts(CountOf(rows, INSERT), CountOf(rows, UPDATE), CountOf(rows, IGNORE), CountOf(rows, ERROR))
  }

  lemma {:induction false} CountsAddUp(rows: seq<Row>)
    ensures var n := ImportCounts(rows); n.inserted + n.updated + n.ignored + n.errors == |rows|
    ensures CountOf(rows, ERROR) == 0 <==> forall k | 0 <= k < |rows| :: rows[k].action != ERROR
  {
    if rows != [] {
      CountsAddUp(rows[..|rows| - 1]);
      assert forall k | 0 <= k < |rows| - 1 :: rows[k] == rows[..|rows| - 1][k];
    }
  }

  ghost function RowsWith(rows: seq<Row>, action: Action): set<nat> {
    set k: nat | k < |rows| && rows[k].action == action
  }

  lemma RowsWithLast(rows: seq<Row>, action: Action)
    requires rows != []
    ensures var n := |rows| - 1;
            && n !in RowsWith(rows[..n], action)
            && RowsWith(rows, action) == RowsWith(rows[..n], action) + if rows[n].action == action then {n} else {}
  {}

  lemma {:induction false} CountIsOfRows(rows: seq<Row>, action: Action)
    ensures CountOf(rows, action) == |RowsWith(rows, action)|
  {
    if rows != [] {
      var n := |rows| - 1;
      CountIsOfRows(rows[..n], action);
      RowsWithLast(rows, action);
    }
  }

  // Each counter is of the rows of its action.
  lemma CountersAreOfTheirRows(rows: seq<Row>)
    ensures var n := ImportCounts(rows);
            && n.inserted == |RowsWith(rows, INSERT)| && n.updated == |RowsWith(rows, UPDATE)|
            && n.ignored == |RowsWith(rows, IGNORE)| && n.errors == |RowsWith(rows, ERROR)|
  {
    CountIsOfRows(rows, INSERT);
    CountIsOfRows(rows, UPDATE);
    CountIsOfRows(rows, IGNORE);
    CountIsOfRows(rows, ERROR);
  }
}
