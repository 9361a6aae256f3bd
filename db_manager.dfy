/** The partner/product repository: the Partners_Import and Products_Import tables and
    the operations of `DatabaseManager`, with SQL's WHERE, ORDER BY, DISTINCT and
    rowcount written as sequence operations. */
module Repository {
  import opened Common
  import opened Ordering

  const UnknownPartnerName: string := "Неизвестный партнер"

  /** The eight columns a partner is inserted with and listed as (the `partner_data` dictionary). */
  datatype PartnerData = PartnerData(
    partnerType: string,
    name: string,
    director: string,
    phone: string,
    email: string,
    legalAddress: string,
    inn: string,
    rating: int)

  /** The seven columns `update_partner` overwrites: everything but the INN. */
  datatype PartnerEdit = PartnerEdit(
    partnerType: string,
    name: string,
    director: string,
    phone: string,
    email: string,
    legalAddress: string,
    rating: int)

  /** A row of Partners_Import: its PartnerID (the rowid) and its data. */
  datatype PartnerRow = PartnerRow(id: int, data: PartnerData)

  /** The four columns `get_partner_products` selects. */
  datatype ProductItem = ProductItem(name: string, article: string, typeId: string, minPrice: string)

  /** A row of Products_Import: its ProductID, its owning partner (nullable) and the selected columns. */
  datatype ProductRow = ProductRow(productId: int, partnerId: Option<int>, item: ProductItem)

  /** PartnerID is an INTEGER PRIMARY KEY: the table is kept in ascending rowid order. */
  predicate RowIdsAscending(rows: seq<PartnerRow>)
  {
    forall i, j :: 0 <= i < j < |rows| ==> rows[i].id < rows[j].id
  }

  /** The largest rowid of a non-empty table. */
  function MaxRowId(rows: seq<PartnerRow>): (m: int)
    requires rows != []
    ensures forall i :: 0 <= i < |rows| ==> rows[i].id <= m
    ensures exists i :: 0 <= i < |rows| && rows[i].id == m
  {
    if |rows| == 1 then rows[0].id
    else
      var m := MaxRowId(rows[1..]);
      assert forall i :: 1 <= i < |rows| ==> rows[i] == rows[1..][i - 1];
      if rows[0].id >= m then rows[0].id else m
  }

  /** The rowid SQLite gives a row inserted without one: 1 in an empty table,
      otherwise one more than the largest rowid present. */
  function NextRowId(rows: seq<PartnerRow>): (id: int)
    ensures forall i :: 0 <= i < |rows| ==> rows[i].id < id
  {
    if rows == [] then 1 else MaxRowId(rows) + 1
  }

  /** INSERT INTO Partners_Import (...) VALUES (...): one new row, no INN check. */
  function InsertPartner(rows: seq<PartnerRow>, data: PartnerData): (r: seq<PartnerRow>)
    ensures |r| == |rows| + 1 && r[..|rows|] == rows && r[|rows|].data == data
    ensures forall i :: 0 <= i < |rows| ==> rows[i].id < r[|rows|].id
  {
    rows + [PartnerRow(NextRowId(rows), data)]
  }

  /** The three test partners of `create_test_table`. */
  function SeedData(): seq<PartnerData>
  {
    [ PartnerData("ЗАО", "База Строитель", "Иванова Александра", "493 123 45 67", "aleksandraivan...", "652050, Кемеро...", "2222455179", 7),
      PartnerData("ЗАО", "МонтажПро", "Степанов Степан", "912 888 33 33", "stepanov@step...", "309500, Белгор...", "5552431140", 10),
      PartnerData("ООО", "Паркет 29", "Петров Василий", "987 123 56 78", "vpetrov@vl.ru", "164500, Арханг...", "3333888520", 7) ]
  }

  /** `executemany` of INSERT OR REPLACE without a PartnerID: each test row gets a fresh
      rowid, so nothing is ever replaced and all three are appended. */
  function SeedPartners(rows: seq<PartnerRow>): seq<PartnerRow>
  {
    var seed := SeedData();
    InsertPartner(InsertPartner(InsertPartner(rows, seed[0]), seed[1]), seed[2])
  }

  function PartnerNameKey(p: PartnerData): string
  {
    p.name
  }

  /** `get_all_partners`: every row's eight columns, ORDER BY PartnerName. */
  function AllPartners(rows: seq<PartnerRow>): (r: seq<PartnerData>)
    ensures SortedBy(r, PartnerNameKey)
    ensures multiset(r) == multiset(Project(rows))
  {
    SortBy(Project(rows), PartnerNameKey)
  }

  function Project(rows: seq<PartnerRow>): seq<PartnerData>
  {
    seq(|rows|, i requires 0 <= i < |rows| => rows[i].data)
  }

  /** DELETE FROM Partners_Import WHERE INN = inn. */
  function DeletePartnerRows(rows: seq<PartnerRow>, inn: string): (r: seq<PartnerRow>)
    ensures forall x :: x in r <==> x in rows && x.data.inn != inn
  {
    Filter(rows, (r: PartnerRow) => r.data.inn != inn)
  }

  /** Some row carries this INN (the rowcount of a statement keyed by INN is positive). */
  predicate HasInn(rows: seq<PartnerRow>, inn: string)
  {
    exists i :: 0 <= i < |rows| && rows[i].data.inn == inn
  }

  /** `get_partner_by_inn`: the first row (in rowid order) with this INN, or None. */
  function PartnerByInn(rows: seq<PartnerRow>, inn: string): (r: Option<PartnerData>)
    ensures r.None? <==> !HasInn(rows, inn)
    ensures r.Some? ==> r.value.inn == inn && r.value in Project(rows)
  {
    match FirstIndex(rows, (r: PartnerRow) => r.data.inn == inn)
    case None => None
    case Some(i) =>
      assert Project(rows)[i] == rows[i].data;
      Some(rows[i].data)
  }

  /** `get_partner_name_by_inn`: that row's name, or the fallback name. */
  function PartnerNameByInn(rows: seq<PartnerRow>, inn: string): (name: string)
    ensures !HasInn(rows, inn) ==> name == UnknownPartnerName
    ensures HasInn(rows, inn) ==> exists i :: 0 <= i < |rows| && rows[i].data.inn == inn && rows[i].data.name == name
  {
    match PartnerByInn(rows, inn)
    case None => UnknownPartnerName
    case Some(p) =>
      var i :| 0 <= i < |rows| && Project(rows)[i] == p;
      p.name
  }

  /** The data a row with INN `inn` holds after `update_partner(inn, e)`. */
  function ApplyEdit(p: PartnerData, e: PartnerEdit): PartnerData
  {
    PartnerData(e.partnerType, e.name, e.director, e.phone, e.email, e.legalAddress, p.inn, e.rating)
  }

  /** UPDATE Partners_Import SET <seven columns> WHERE INN = inn. */
  function UpdatePartnerRows(rows: seq<PartnerRow>, inn: string, e: PartnerEdit): (r: seq<PartnerRow>)
    ensures |r| == |rows|
    ensures forall i :: 0 <= i < |rows| ==> r[i].id == rows[i].id && r[i].data.inn == rows[i].data.inn
    ensures forall i :: 0 <= i < |rows| && rows[i].data.inn != inn ==> r[i] == rows[i]
    ensures forall i :: 0 <= i < |rows| && rows[i].data.inn == inn ==>
      r[i].data == PartnerData(e.partnerType, e.name, e.director, e.phone, e.email, e.legalAddress, inn, e.rating)
  {
    seq(|rows|, i requires 0 <= i < |rows| =>
      if rows[i].data.inn == inn then rows[i].(data := ApplyEdit(rows[i].data, e)) else rows[i])
  }

  /** The search condition of `get_partner_products`: none for empty search text,
      otherwise LOWER(ProductName) LIKE LOWER('%text%'). */
  predicate MatchesSearch(name: string, search: string)
  {
    search == [] || Contains(Lower(name), Lower(search))
  }

  function ProductNameKey(p: ProductItem): string
  {
    p.name
  }

  function Items(products: seq<ProductRow>): seq<ProductItem>
  {
    seq(|products|, i requires 0 <= i < |products| => products[i].item)
  }

  /** Some product row carries exactly these four selected values. */
  predicate InProducts(products: seq<ProductRow>, x: ProductItem)
  {
    exists i :: 0 <= i < |products| && products[i].item == x
  }

  lemma ItemsHoldProducts(products: seq<ProductRow>)
    ensures forall x :: x in Items(products) <==> InProducts(products, x)
  {
    forall x | x in Items(products) ensures InProducts(products, x) {
      var i :| 0 <= i < |products| && Items(products)[i] == x;
    }
    forall x | InProducts(products, x) ensures x in Items(products) {
      var i :| 0 <= i < |products| && products[i].item == x;
      assert Items(products)[i] == x;
    }
  }

  /** `get_partner_products`: SELECT DISTINCT over all products whose name matches the
      search text, ORDER BY ProductName. The partner's INN plays no part. */
  function PartnerProducts(products: seq<ProductRow>, partnerInn: string, search: string): (r: seq<ProductItem>)
    ensures SortedBy(r, ProductNameKey)
    ensures forall x :: multiset(r)[x] == (if InProducts(products, x) && MatchesSearch(x.name, search) then 1 else 0)
  {
    var matching := Filter(Items(products), (x: ProductItem) => MatchesSearch(x.name, search));
    ItemsHoldProducts(products);
    FilterCount(Items(products), (x: ProductItem) => MatchesSearch(x.name, search));
    var distinct := Dedup(matching);
    assert forall x :: multiset(distinct)[x] == (if InProducts(products, x) && MatchesSearch(x.name, search) then 1 else 0);
    SortBy(distinct, ProductNameKey)
  }

  /** DELETE FROM Products_Import WHERE ArticleNumber = article. */
  function DeleteProductRows(products: seq<ProductRow>, article: string): (r: seq<ProductRow>)
    ensures forall x :: x in r <==> x in products && x.item.article != article
  {
    Filter(products, (p: ProductRow) => p.item.article != article)
  }

  class DatabaseManager {
    var partners: seq<PartnerRow>
    var products: seq<ProductRow>

    ghost predicate Valid()
      reads this
    {
      RowIdsAscending(partners)
    }

    /** A manager over the tables as they are stored. */
    constructor (storedPartners: seq<PartnerRow>, storedProducts: seq<ProductRow>)
      requires RowIdsAscending(storedPartners)
      ensures Valid() && partners == storedPartners && products == storedProducts
    {
      partners := storedPartners;
      products := storedProducts;
    }

    method CreateTestTable()
      requires Valid()
      modifies this
      ensures Valid() && products == old(products)
      ensures partners == SeedPartners(old(partners))
    {
      var seed := SeedData();
      InsertKeepsRowIdsAscending(partners, seed[0]);
      InsertKeepsRowIdsAscending(InsertPartner(partners, seed[0]), seed[1]);
      InsertKeepsRowIdsAscending(InsertPartner(InsertPartner(partners, seed[0]), seed[1]), seed[2]);
      partners := SeedPartners(partners);
    }

    method AddPartner(data: PartnerData) returns (ok: bool)
      requires Valid()
      modifies this
      ensures Valid() && products == old(products)
      ensures ok && partners == InsertPartner(old(partners), data)
    {
      InsertKeepsRowIdsAscending(partners, data);
      partners := InsertPartner(partners, data);
      ok := true;
    }

    method DeletePartner(inn: string) returns (ok: bool)
      requires Valid()
      modifies this
      ensures Valid() && products == old(products)
      ensures ok == HasInn(old(partners), inn)
      ensures partners == DeletePartnerRows(old(partners), inn)
    {
      ok := HasInn(partners, inn);
      DeleteKeepsRowIdsAscending(partners, inn);
      partners := DeletePartnerRows(partners, inn);
    }

    method UpdatePartner(inn: string, e: PartnerEdit) returns (ok: bool)
      requires Valid()
      modifies this
      ensures Valid() && products == old(products)
      ensures ok == HasInn(old(partners), inn)
      ensures partners == UpdatePartnerRows(old(partners), inn, e)
    {
      ok := HasInn(partners, inn);
      partners := UpdatePartnerRows(partners, inn, e);
    }

    method DeleteProduct(article: string) returns (ok: bool)
      requires Valid()
      modifies this
      ensures Valid() && partners == old(partners)
      ensures ok == exists i :: 0 <= i < |old(products)| && old(products)[i].item.article == article
      ensures products == DeleteProductRows(old(products), article)
    {
      ok := exists i :: 0 <= i < |products| && products[i].item.article == article;
      products := DeleteProductRows(products, article);
    }
  }

  /** A new row gets a rowid above every existing one, so INSERT keeps rowid order
      and INSERT OR REPLACE never finds a row to replace. */
  lemma InsertKeepsRowIdsAscending(rows: seq<PartnerRow>, data: PartnerData)
    requires RowIdsAscending(rows)
    ensures RowIdsAscending(InsertPartner(rows, data))
  {
  }

  lemma DeleteKeepsRowIdsAscending(rows: seq<PartnerRow>, inn: string)
    requires RowIdsAscending(rows)
    ensures RowIdsAscending(DeletePartnerRows(rows, inn))
  {
    FilterKeepsRowIdsAscending(rows, (r: PartnerRow) => r.data.inn != inn);
  }

  lemma {:induction false} FilterKeepsRowIdsAscending(rows: seq<PartnerRow>, p: PartnerRow -> bool)
    requires RowIdsAscending(rows)
    ensures RowIdsAscending(Filter(rows, p))
  {
    if rows != [] {
      FilterKeepsRowIdsAscending(rows[1..], p);
      var rest := Filter(rows[1..], p);
      forall j | 0 <= j < |rest| ensures rows[0].id < rest[j].id {
        assert rest[j] in rows[1..];
      }
    }
  }

  /** No INN uniqueness: adding the same partner twice leaves two rows with that INN. */
  lemma AddSameInnTwice(rows: seq<PartnerRow>, data: PartnerData)
    ensures var twice := InsertPartner(InsertPartner(rows, data), data);
      |twice| == |rows| + 2 && twice[|rows|].data == twice[|rows| + 1].data == data
      && twice[|rows|].id != twice[|rows| + 1].id
  {
  }

  /** `create_test_table` is not idempotent: every call appends the three test partners again. */
  lemma SeedingAppendsEachTime(rows: seq<PartnerRow>)
    ensures |SeedPartners(rows)| == |rows| + 3
    ensures Project(SeedPartners(rows))[|rows|..] == SeedData()
    ensures |SeedPartners(SeedPartners(rows))| == |rows| + 6
  {
    var seed := SeedData();
    var r1 := InsertPartner(rows, seed[0]);
    var r2 := InsertPartner(r1, seed[1]);
    var once := InsertPartner(r2, seed[2]);
    assert once[..|r2|][|rows|] == r2[..|r1|][|rows|] == r1[|rows|];
    assert once[..|r2|][|r1|] == r2[|r1|];
    assert Project(once)[|rows|..] == [seed[0], seed[1], seed[2]];
  }

  /** A partner just added is found by its INN, and is the one found if its INN was new. */
  lemma AddedPartnerFound(rows: seq<PartnerRow>, data: PartnerData)
    ensures PartnerByInn(InsertPartner(rows, data), data.inn).Some?
    ensures !HasInn(rows, data.inn) ==>
      PartnerByInn(InsertPartner(rows, data), data.inn) == Some(data)
      && PartnerNameByInn(InsertPartner(rows, data), data.inn) == data.name
  {
    var after := InsertPartner(rows, data);
    assert after[|rows|].data.inn == data.inn;
    if !HasInn(rows, data.inn) {
      var p := PartnerByInn(after, data.inn);
      var i :| 0 <= i < |after| && Project(after)[i] == p.value;
      assert i == |rows|;
    }
  }

  /** The listing after an insert holds exactly one more entry: the new partner. */
  lemma AllPartnersAfterInsert(rows: seq<PartnerRow>, data: PartnerData)
    ensures multiset(AllPartners(InsertPartner(rows, data))) == multiset(AllPartners(rows)) + multiset{data}
  {
    assert Project(InsertPartner(rows, data)) == Project(rows) + [data];
  }

  /** After `delete_partner(inn)` no row has that INN, every other row is still there, and
      the lookups answer "not found". */
  lemma DeletedPartnerGone(rows: seq<PartnerRow>, inn: string)
    ensures var after := DeletePartnerRows(rows, inn);
      && !HasInn(after, inn)
      && (forall r :: r in rows && r.data.inn != inn ==> r in after)
      && PartnerByInn(after, inn).None?
      && PartnerNameByInn(after, inn) == UnknownPartnerName
  {
    var after := DeletePartnerRows(rows, inn);
    forall i | 0 <= i < |after| ensures after[i].data.inn != inn {
      assert after[i] in after;
    }
  }

  /** An update keeps every row's rowid and INN, touches only rows with that INN, and a
      later lookup by the INN returns the edited data. */
  lemma UpdateThenLookup(rows: seq<PartnerRow>, inn: string, e: PartnerEdit)
    ensures var after := UpdatePartnerRows(rows, inn, e);
      && |after| == |rows|
      && (forall i :: 0 <= i < |rows| ==> after[i].id == rows[i].id && after[i].data.inn == rows[i].data.inn)
      && (forall i :: 0 <= i < |rows| && rows[i].data.inn != inn ==> after[i] == rows[i])
      && (HasInn(rows, inn) ==>
            PartnerByInn(after, inn) == Some(PartnerData(e.partnerType, e.name, e.director, e.phone, e.email, e.legalAddress, inn, e.rating)))
      && (!HasInn(rows, inn) ==> after == rows)
  {
    var after := UpdatePartnerRows(rows, inn, e);
    if HasInn(rows, inn) {
      var i :| 0 <= i < |rows| && rows[i].data.inn == inn;
      assert after[i].data.inn == inn;
      var p := PartnerByInn(after, inn);
      var k :| 0 <= k < |after| && Project(after)[k] == p.value;
    } else {
      assert forall i :: 0 <= i < |rows| ==> after[i] == rows[i];
    }
  }

  /** Applying the same update twice is the same as applying it once. */
  lemma UpdateIdempotent(rows: seq<PartnerRow>, inn: string, e: PartnerEdit)
    ensures UpdatePartnerRows(UpdatePartnerRows(rows, inn, e), inn, e) == UpdatePartnerRows(rows, inn, e)
  {
  }

  /** Lowering the search text first changes nothing. */
  lemma SearchIgnoresAsciiCase(products: seq<ProductRow>, inn: string, search: string)
    ensures PartnerProducts(products, inn, Lower(search)) == PartnerProducts(products, inn, search)
  {
    LowerIdempotent(search);
    FilterExtensional(Items(products), (x: ProductItem) => MatchesSearch(x.name, Lower(search)),
                      (x: ProductItem) => MatchesSearch(x.name, search));
  }

  /** The search is case-insensitive for ASCII letters: two search texts that SQLite's LOWER
      makes equal (such as "Parquet" and "parquet") give the same product list. */
  lemma {:induction false} SearchCaseInsensitive(products: seq<ProductRow>, inn: string, s1: string, s2: string)
    requires Lower(s1) == Lower(s2)
    ensures PartnerProducts(products, inn, s1) == PartnerProducts(products, inn, s2)
  {
    assert |s1| == |s2|;
    FilterExtensional(Items(products), (x: ProductItem) => MatchesSearch(x.name, s1),
                      (x: ProductItem) => MatchesSearch(x.name, s2));
  }

  lemma LowerIdempotent(s: string)
    ensures Lower(Lower(s)) == Lower(s)
  {
  }

  /** The INN argument is ignored: every partner gets the same product list. */
  lemma PartnerProductsIgnoreInn(products: seq<ProductRow>, inn1: string, inn2: string, search: string)
    ensures PartnerProducts(products, inn1, search) == PartnerProducts(products, inn2, search)
  {
  }

  /** After `delete_product(article)` no product has that article and all others remain. */
  lemma DeletedProductGone(products: seq<ProductRow>, article: string)
    ensures var after := DeleteProductRows(products, article);
      && (forall i :: 0 <= i < |after| ==> after[i].item.article != article)
      && (forall p :: p in products && p.item.article != article ==> p in after)
      && (|after| < |products| <==> exists i :: 0 <= i < |products| && products[i].item.article == article)
  {
    var after := DeleteProductRows(products, article);
    FilterLength(products, (p: ProductRow) => p.item.article != article);
    forall i | 0 <= i < |after| ensures after[i].item.article != article {
      assert after[i] in after;
    }
  }
}
