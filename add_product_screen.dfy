/** The "add product" form: the product-type combo, the checks made before saving, and the
    product it hands to the store. */
module AddProductScreen {
  import opened Common

  /** The `product_types` dictionary in insertion order: type name and type ID. */
  const ProductTypes: seq<(string, string)> :=
    [("Ламинат", "1"), ("Массивная доска", "2"), ("Паркетная доска", "3"), ("Пробковое покрытие", "4")]

  /** `dict(pairs)`: a later pair overwrites an earlier one with the same key. */
  function DictOf(pairs: seq<(string, string)>): (m: map<string, string>)
    ensures forall i :: 0 <= i < |pairs| ==> pairs[i].0 in m
    ensures forall k :: k in m ==> exists i :: 0 <= i < |pairs| && pairs[i].0 == k && m[k] == pairs[i].1
  {
    if pairs == [] then map[]
    else
      var last := pairs[|pairs| - 1];
      DictOf(pairs[..|pairs| - 1])[last.0 := last.1]
  }

  /** No two pairs share a key. */
  predicate DistinctKeys(pairs: seq<(string, string)>)
  {
    forall i, j :: 0 <= i < j < |pairs| ==> pairs[i].0 != pairs[j].0
  }

  /** With distinct keys the dictionary maps every key to its own value. */
  lemma {:induction false} DictOfLookup(pairs: seq<(string, string)>)
    requires DistinctKeys(pairs)
    ensures forall i :: 0 <= i < |pairs| ==> DictOf(pairs)[pairs[i].0] == pairs[i].1
  {
    if pairs != [] {
      var init := pairs[..|pairs| - 1];
      assert DistinctKeys(init);
      DictOfLookup(init);
      forall i | 0 <= i < |pairs| ensures DictOf(pairs)[pairs[i].0] == pairs[i].1 {
        if i < |pairs| - 1 {
          assert init[i] == pairs[i];
        }
      }
    }
  }

  /** `product_types` as a dictionary: type name to type ID. */
  function TypeIdOf(): map<string, string>
  {
    DictOf(ProductTypes)
  }

  /** The type IDs, in the order of the pairs. */
  function TypeIds(pairs: seq<(string, string)>): (ids: seq<string>)
    ensures |ids| == |pairs|
    ensures forall i :: 0 <= i < |pairs| ==> ids[i] == pairs[i].1
  {
    seq(|pairs|, i requires 0 <= i < |pairs| => pairs[i].1)
  }

  /** The four type IDs are "1" to "4". */
  lemma KnownTypeIds()
    ensures TypeIds(ProductTypes) == ["1", "2", "3", "4"]
    ensures DistinctKeys(ProductTypes)
  {
  }

  /** The item data of the type combo: the placeholder "Выберите тип продукции" carries the
      empty string, then one entry per type carrying its ID. */
  function ComboData(): (data: seq<string>)
    ensures |data| == |ProductTypes| + 1 && data[0] == ""
    ensures forall i :: 0 <= i < |ProductTypes| ==> data[i + 1] == ProductTypes[i].1
  {
    [""] + TypeIds(ProductTypes)
  }

  /** `currentData()` of the combo at `index`; no valid entry reads as empty. */
  function CurrentData(index: int): (id: string)
    ensures id == "" <==> !(1 <= index <= |ProductTypes|)
    ensures id != "" ==> id == ProductTypes[index - 1].1
  {
    if 0 <= index < |ComboData()| then ComboData()[index] else ""
  }

  /** The price spin box holds 0.00 .. 999999.99 with two decimals, kept here in kopecks. */
  type PriceCents = c: int | 0 <= c <= 99999999

  /** The widgets' contents. */
  datatype ProductForm = ProductForm(name: string, typeIndex: int, article: string, priceCents: PriceCents)

  /** The checks of `validate_fields`, in the order it makes them. */
  datatype ProductCheck = NameGiven | TypeChosen | ArticleGiven | PricePositive

  function Rank(c: ProductCheck): nat
  {
    match c
    case NameGiven => 0
    case TypeChosen => 1
    case ArticleGiven => 2
    case PricePositive => 3
  }

  predicate Holds(f: ProductForm, c: ProductCheck)
  {
    match c
    case NameGiven => Trim(f.name) != []
    case TypeChosen => CurrentData(f.typeIndex) != ""
    case ArticleGiven => Trim(f.article) != []
    case PricePositive => f.priceCents > 0
  }

  function Message(c: ProductCheck): string
  {
    match c
    case NameGiven => "Введите название продукции"
    case TypeChosen => "Выберите тип продукции"
    case ArticleGiven => "Введите артикул"
    case PricePositive => "Введите корректную стоимость"
  }

  /** `validate_fields`: pass only if every check holds; otherwise report the first
      failing check in source order. */
  function Validate(f: ProductForm): (r: Outcome<ProductCheck>)
    ensures r.Pass? ==> forall c :: Holds(f, c)
    ensures r.Fail? ==> !Holds(f, r.check) && forall c :: Rank(c) < Rank(r.check) ==> Holds(f, c)
  {
    if Trim(f.name) == [] then Fail(NameGiven)
    else if CurrentData(f.typeIndex) == "" then Fail(TypeChosen)
    else if Trim(f.article) == [] then Fail(ArticleGiven)
    else if f.priceCents <= 0 then Fail(PricePositive)
    else Pass
  }

  /** The placeholder entry never passes: a type has to be picked. */
  lemma PlaceholderRefused(f: ProductForm)
    requires f.typeIndex == 0
    ensures Validate(f).Fail?
    ensures Validate(f).check == NameGiven || Validate(f).check == TypeChosen
  {
  }

  /** The `product_data` dictionary `save_product` builds. */
  datatype NewProduct = NewProduct(name: string, typeId: string, article: string, priceCents: int)

  function ProductDataFrom(f: ProductForm): (d: NewProduct)
    ensures d.name == Trim(f.name) && d.typeId == CurrentData(f.typeIndex)
    ensures d.article == Trim(f.article) && d.priceCents == f.priceCents
    ensures Tidy(d.name) && Tidy(d.article)
    ensures d.typeId == "" || d.typeId in TypeIds(ProductTypes)
  {
    NewProduct(Trim(f.name), CurrentData(f.typeIndex), Trim(f.article), f.priceCents)
  }

  /** A form that passes validation yields a product with a non-blank name and article, one
      of the four type IDs, and a positive price no larger than 999999.99. */
  lemma ValidFormGivesWellFormedProduct(f: ProductForm)
    requires Validate(f).Pass?
    ensures var d := ProductDataFrom(f);
      && d.name != [] && d.article != []
      && d.typeId in TypeIds(ProductTypes)
      && 0 < d.priceCents <= 99999999
  {
    assert Holds(f, NameGiven) && Holds(f, TypeChosen) && Holds(f, ArticleGiven) && Holds(f, PricePositive);
    assert TypeIds(ProductTypes)[f.typeIndex - 1] == CurrentData(f.typeIndex);
  }

  /** `clear_fields`: empty texts, the placeholder entry, price 0.00. */
  function ClearedForm(): (f: ProductForm)
    ensures Validate(f) == Fail(NameGiven)
    ensures CurrentData(f.typeIndex) == ""
  {
    ProductForm("", 0, "", 0)
  }

  /** What pressing "save" leads to: a warning, or the call that adds the product for the
      partner the screen was opened for. */
  datatype SaveStep = Rejected(check: ProductCheck) | Submit(product: NewProduct, partnerInn: Option<string>)

  /** `save_product` up to the store call. */
  function SaveProduct(f: ProductForm, partnerInn: Option<string>): (r: SaveStep)
    ensures r.Rejected? <==> Validate(f).Fail?
    ensures r.Rejected? ==> r.check == Validate(f).check
    ensures r.Submit? ==> r.partnerInn == partnerInn && r.product.typeId != "" && r.product.priceCents > 0
    ensures r.Submit? ==>
      && r.product.name == Trim(f.name) && r.product.typeId == CurrentData(f.typeIndex)
      && r.product.article == Trim(f.article) && r.product.priceCents == f.priceCents
  {
    match Validate(f)
    case Fail(c) => Rejected(c)
    case Pass =>
      assert Holds(f, TypeChosen) && Holds(f, PricePositive);
      Submit(ProductDataFrom(f), partnerInn)
  }
}
