/** The "add sale" form: the product combo filled from the partner's products, the checks made
    before saving, and the sale it hands to the store. */
module AddSaleScreen {
  import opened Common

  /** A product offered for sale, as `get_partner_products_for_sale` lists it: its ID (which
      may be missing), name and minimum price text. */
  datatype SaleProduct = SaleProduct(id: Option<int>, name: string, minPrice: string)

  /** The product combo: the data each entry carries (entries added with `None` carry nothing),
      the current index, and whether the save button is enabled. */
  datatype ProductCombo = ProductCombo(items: seq<Option<SaleProduct>>, index: int, saveEnabled: bool)

  /** One entry per product, carrying the product. */
  function Entries(products: seq<SaleProduct>): (items: seq<Option<SaleProduct>>)
    ensures |items| == |products|
    ensures forall i :: 0 <= i < |products| ==> items[i] == Some(products[i])
  {
    seq(|products|, i requires 0 <= i < |products| => Some(products[i]))
  }

  /** The combo after `load_partner_products`: the "Выберите продукцию" placeholder first; then
      either the "У партнера нет продукции" entry with saving disabled, or one entry per
      product. The first entry added to the cleared combo becomes current. */
  function LoadedCombo(products: seq<SaleProduct>): ProductCombo
  {
    if products == [] then ProductCombo([None, None], 0, false)
    else ProductCombo([None] + Entries(products), 0, true)
  }

  /** `load_partner_products`: the loop that adds one entry per product. */
  method LoadPartnerProducts(products: seq<SaleProduct>) returns (combo: ProductCombo)
    ensures combo == LoadedCombo(products)
  {
    var items: seq<Option<SaleProduct>> := [None];
    if products == [] {
      items := items + [None];
      return ProductCombo(items, 0, false);
    }
    var i := 0;
    while i < |products|
      invariant 0 <= i <= |products|
      invariant items == [None] + Entries(products[..i])
    {
      items := items + [Some(products[i])];
      i := i + 1;
    }
    assert products[..i] == products;
    combo := ProductCombo(items, 0, true);
  }

  /** `currentData()`: the data of the current entry; none when the index is out of range. */
  function CurrentData(combo: ProductCombo): Option<SaleProduct>
  {
    if 0 <= combo.index < |combo.items| then combo.items[combo.index] else None
  }

  /** Picking entry `i + 1` of a loaded combo selects product `i`. */
  lemma EveryProductSelectable(products: seq<SaleProduct>, i: int)
    requires 0 <= i < |products|
    ensures CurrentData(LoadedCombo(products).(index := i + 1)) == Some(products[i])
  {
  }

  /** The widgets' contents: the combo, the quantity and the unit price in kopecks. */
  datatype SaleForm = SaleForm(combo: ProductCombo, quantity: int, priceCents: int)

  /** The checks of `validate_fields`, in the order it makes them. */
  datatype SaleCheck = ProductChosen | ProductIdFound | QuantityPositive | PricePositive

  function Rank(c: SaleCheck): nat
  {
    match c
    case ProductChosen => 0
    case ProductIdFound => 1
    case QuantityPositive => 2
    case PricePositive => 3
  }

  predicate Holds(f: SaleForm, c: SaleCheck)
  {
    match c
    case ProductChosen => f.combo.index > 0 && CurrentData(f.combo).Some?
    case ProductIdFound => CurrentData(f.combo).Some? && Truthy(CurrentData(f.combo).value.id)
    case QuantityPositive => f.quantity > 0
    case PricePositive => f.priceCents > 0
  }

  function Message(c: SaleCheck): string
  {
    match c
    case ProductChosen => "Выберите продукцию"
    case ProductIdFound => "ID продукта не найден"
    case QuantityPositive => "Укажите количество больше 0"
    case PricePositive => "Укажите цену больше 0"
  }

  /** `validate_fields`: pass only if every check holds; otherwise report the first
      failing check in source order. */
  function Validate(f: SaleForm): (r: Outcome<SaleCheck>)
    ensures r.Pass? ==> forall c :: Holds(f, c)
    ensures r.Fail? ==> !Holds(f, r.check) && forall c :: Rank(c) < Rank(r.check) ==> Holds(f, c)
  {
    var data := CurrentData(f.combo);
    if f.combo.index <= 0 || data.None? then Fail(ProductChosen)
    else if !Truthy(data.value.id) then Fail(ProductIdFound)
    else if f.quantity <= 0 then Fail(QuantityPositive)
    else if f.priceCents <= 0 then Fail(PricePositive)
    else Pass
  }

  /** A partner without products can never get past the first check, whichever entry is current. */
  lemma EmptyListBlocksSaving(f: SaleForm)
    requires f.combo.items == LoadedCombo([]).items
    ensures Validate(f) == Fail(ProductChosen)
  {
  }

  /** The spin boxes keep the quantity within 1..999999 and the price within 0.01..999999.99,
      so the last two checks never fire on the screen's own values. */
  lemma SpinRangesPassLastChecks(f: SaleForm)
    requires 1 <= f.quantity <= 999999 && 1 <= f.priceCents <= 99999999
    ensures Validate(f).Fail? ==> Validate(f).check == ProductChosen || Validate(f).check == ProductIdFound
  {
  }

  /** The `sale_data` dictionary: product, partner and quantity. */
  datatype SaleData = SaleData(productId: int, partnerId: int, quantity: int)

  /** What pressing "save" leads to: a warning, the "Не удалось найти ID партнера" error, or
      the call that adds the sale. */
  datatype SaleStep = Rejected(check: SaleCheck) | PartnerIdMissing | Submit(sale: SaleData)

  /** `save_sale` up to the store call; `partnerId` is what the lookup by INN returned. */
  function SaveSale(f: SaleForm, partnerId: Option<int>): (r: SaleStep)
    ensures r.Rejected? <==> Validate(f).Fail?
    ensures r.Rejected? ==> r.check == Validate(f).check
    ensures r == PartnerIdMissing <==> Validate(f).Pass? && !Truthy(partnerId)
    ensures r.Submit? ==>
      && CurrentData(f.combo).Some? && CurrentData(f.combo).value.id == Some(r.sale.productId)
      && Some(r.sale.partnerId) == partnerId
      && r.sale.productId != 0 && r.sale.partnerId != 0 && r.sale.quantity == f.quantity > 0
  {
    match Validate(f)
    case Fail(c) => Rejected(c)
    case Pass =>
      if !Truthy(partnerId) then PartnerIdMissing
      else
        assert Holds(f, ProductIdFound) && Holds(f, QuantityPositive);
        Submit(SaleData(CurrentData(f.combo).value.id.value, partnerId.value, f.quantity))
  }
}
