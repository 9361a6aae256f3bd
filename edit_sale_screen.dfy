/** The "edit sale" form: the product combo filled from the partner's products with the sale's
    current product preselected, the checks made before saving, and the update it sends. */
module EditSaleScreen {
  import opened Common
  import AddSaleScreen

  type SaleProduct = AddSaleScreen.SaleProduct
  type ProductCombo = AddSaleScreen.ProductCombo

  /** The part of the stored sale the product combo uses. */
  datatype SaleRecord = SaleRecord(productId: Option<int>)

  /** `current_product_id`: the sale's ProductID, or nothing when no sale was loaded. */
  function CurrentProductId(sale: Option<SaleRecord>): Option<int>
  {
    if sale.Some? then sale.value.productId else None
  }

  /** The entry the loop leaves selected: one past the LAST product whose ID equals a truthy
      current ID, or 0 (the placeholder) when the ID is falsy or matches nothing. */
  function SelectedIndex(products: seq<SaleProduct>, current: Option<int>): (k: nat)
    ensures k <= |products|
    ensures k > 0 ==> Truthy(current) && products[k - 1].id == current
    ensures k > 0 ==> forall j :: k <= j < |products| ==> products[j].id != current
    ensures k == 0 ==> !Truthy(current) || forall j :: 0 <= j < |products| ==> products[j].id != current
  {
    if !Truthy(current) || products == [] then 0
    else if products[|products| - 1].id == current then |products|
    else SelectedIndex(products[..|products| - 1], current)
  }

  /** The combo after `load_partner_products`. */
  function LoadedCombo(products: seq<SaleProduct>, sale: Option<SaleRecord>): ProductCombo
  {
    if products == [] then AddSaleScreen.ProductCombo([None, None], 0, false)
    else AddSaleScreen.ProductCombo([None] + AddSaleScreen.Entries(products), SelectedIndex(products, CurrentProductId(sale)), true)
  }

  /** `load_partner_products`: one pass that adds an entry per product and remembers the
      position of the sale's product; the remembered entry is made current when a sale is loaded. */
  method LoadPartnerProducts(products: seq<SaleProduct>, sale: Option<SaleRecord>) returns (combo: ProductCombo)
    ensures combo == LoadedCombo(products, sale)
  {
    var items: seq<Option<SaleProduct>> := [None];
    if products == [] {
      items := items + [None];
      return AddSaleScreen.ProductCombo(items, 0, false);
    }
    var selected := 0;
    var current := CurrentProductId(sale);
    var i := 0;
    while i < |products|
      invariant 0 <= i <= |products|
      invariant items == [None] + AddSaleScreen.Entries(products[..i])
      invariant selected == SelectedIndex(products[..i], current)
    {
      assert products[..i + 1][..i] == products[..i];
      items := items + [Some(products[i])];
      if Truthy(current) && products[i].id == current {
        selected := i + 1;
      }
      i := i + 1;
    }
    assert products[..i] == products;
    var index := if sale.Some? then selected else 0;
    combo := AddSaleScreen.ProductCombo(items, index, true);
  }

  /** When the sale's product is still listed, the loaded combo shows it (the last entry with
      that ID); when it is not, the placeholder stays current. */
  lemma LoadedSelection(products: seq<SaleProduct>, sale: Option<SaleRecord>)
    ensures var combo := LoadedCombo(products, sale);
      && (Truthy(CurrentProductId(sale)) && (exists j :: 0 <= j < |products| && products[j].id == CurrentProductId(sale)) ==>
            AddSaleScreen.CurrentData(combo).Some? && AddSaleScreen.CurrentData(combo).value.id == CurrentProductId(sale))
      && ((forall j :: 0 <= j < |products| ==> products[j].id != CurrentProductId(sale)) ==> combo.index == 0)
  {
    var k := SelectedIndex(products, CurrentProductId(sale));
    if k > 0 {
      assert ([None] + AddSaleScreen.Entries(products))[k] == Some(products[k - 1]);
    }
  }

  /** The widgets' contents: the combo, the quantity and the unit price in kopecks. */
  type SaleForm = AddSaleScreen.SaleForm

  /** The checks of `validate_fields`, in the order it makes them. */
  datatype EditSaleCheck = ProductChosen | ProductDataFound | ProductIdFound | QuantityPositive | PricePositive

  function Rank(c: EditSaleCheck): nat
  {
    match c
    case ProductChosen => 0
    case ProductDataFound => 1
    case ProductIdFound => 2
    case QuantityPositive => 3
    case PricePositive => 4
  }

  predicate Holds(f: SaleForm, c: EditSaleCheck)
  {
    match c
    case ProductChosen => f.combo.index > 0
    case ProductDataFound => AddSaleScreen.CurrentData(f.combo).Some?
    case ProductIdFound => AddSaleScreen.CurrentData(f.combo).Some? && Truthy(AddSaleScreen.CurrentData(f.combo).value.id)
    case QuantityPositive => f.quantity > 0
    case PricePositive => f.priceCents > 0
  }

  function Message(c: EditSaleCheck): string
  {
    match c
    case ProductChosen => "Выберите продукцию"
    case ProductDataFound => "Данные выбранного продукта не найдены"
    case ProductIdFound => "ID продукта не найден. Данные: "
    case QuantityPositive => "Укажите количество больше нуля"
    case PricePositive => "Цена должна быть больше нуля"
  }

  /** `validate_fields`: pass only if every check holds; otherwise report the first
      failing check in source order. */
  function Validate(f: SaleForm): (r: Outcome<EditSaleCheck>)
    ensures r.Pass? ==> forall c :: Holds(f, c)
    ensures r.Fail? ==> !Holds(f, r.check) && forall c :: Rank(c) < Rank(r.check) ==> Holds(f, c)
  {
    var data := AddSaleScreen.CurrentData(f.combo);
    if f.combo.index <= 0 then Fail(ProductChosen)
    else if data.None? then Fail(ProductDataFound)
    else if !Truthy(data.value.id) then Fail(ProductIdFound)
    else if f.quantity <= 0 then Fail(QuantityPositive)
    else if f.priceCents <= 0 then Fail(PricePositive)
    else Pass
  }

  /** The edit checks accept exactly the forms the "add sale" checks accept. */
  lemma SameAcceptanceAsAddSale(f: SaleForm)
    ensures Validate(f).Pass? <==> AddSaleScreen.Validate(f).Pass?
  {
    if Validate(f).Pass? {
      assert Holds(f, ProductChosen) && Holds(f, ProductIdFound) && Holds(f, QuantityPositive) && Holds(f, PricePositive);
    }
    if AddSaleScreen.Validate(f).Pass? {
      assert AddSaleScreen.Holds(f, AddSaleScreen.ProductChosen) && AddSaleScreen.Holds(f, AddSaleScreen.ProductIdFound);
      assert AddSaleScreen.Holds(f, AddSaleScreen.QuantityPositive) && AddSaleScreen.Holds(f, AddSaleScreen.PricePositive);
    }
  }

  /** The `updated_sale_data` dictionary: the sale being edited, product, partner and quantity. */
  datatype SaleUpdate = SaleUpdate(saleId: int, productId: int, partnerId: int, quantity: int)

  datatype SaleStep = Rejected(check: EditSaleCheck) | PartnerIdMissing | Submit(update: SaleUpdate)

  /** `save_sale` up to the store call; `partnerId` is what the lookup by INN returned. */
  function SaveSale(saleId: int, f: SaleForm, partnerId: Option<int>): (r: SaleStep)
    ensures r.Rejected? <==> Validate(f).Fail?
    ensures r.Rejected? ==> r.check == Validate(f).check
    ensures r == PartnerIdMissing <==> Validate(f).Pass? && !Truthy(partnerId)
    ensures r.Submit? ==>
      && r.update.saleId == saleId
      && AddSaleScreen.CurrentData(f.combo).Some? && AddSaleScreen.CurrentData(f.combo).value.id == Some(r.update.productId)
      && Some(r.update.partnerId) == partnerId
      && r.update.productId != 0 && r.update.partnerId != 0 && r.update.quantity == f.quantity > 0
  {
    match Validate(f)
    case Fail(c) => Rejected(c)
    case Pass =>
      if !Truthy(partnerId) then PartnerIdMissing
      else
        assert Holds(f, ProductIdFound) && Holds(f, QuantityPositive);
        var data := AddSaleScreen.CurrentData(f.combo).value;
        Submit(SaleUpdate(saleId, data.id.value, partnerId.value, f.quantity))
  }

  /** Opening a sale whose product is still listed and saving at once updates that sale with
      the same product, whenever the spin boxes hold their own values and the partner is found. */
  lemma ReopenedSaleKeepsProduct(saleId: int, products: seq<SaleProduct>, sale: SaleRecord,
                                 quantity: int, priceCents: int, partnerId: int)
    requires Truthy(sale.productId)
    requires exists j :: 0 <= j < |products| && products[j].id == sale.productId
    requires 1 <= quantity <= 999999 && 1 <= priceCents <= 99999999 && partnerId != 0
    ensures var f := AddSaleScreen.SaleForm(LoadedCombo(products, Some(sale)), quantity, priceCents);
      SaveSale(saleId, f, Some(partnerId)) == Submit(SaleUpdate(saleId, sale.productId.value, partnerId, quantity))
  {
    LoadedSelection(products, Some(sale));
    var f := AddSaleScreen.SaleForm(LoadedCombo(products, Some(sale)), quantity, priceCents);
    assert SelectedIndex(products, sale.productId) > 0;
    assert Validate(f).Pass?;
  }
}
