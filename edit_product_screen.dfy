/** The "edit product" form: the inverse type dictionary, loading a stored product into the
    widgets, and the update it sends, keyed by the article the product was opened with. The
    widgets and their checks are those of the "add product" form. */
module EditProductScreen {
  import opened Common
  import Repository
  import AddProductScreen

  type ProductForm = AddProductScreen.ProductForm
  type PriceCents = AddProductScreen.PriceCents

  /** `{v: k for k, v in pairs}`: a later pair overwrites an earlier one with the same ID. */
  function Inverse(pairs: seq<(string, string)>): (m: map<string, string>)
    ensures forall i :: 0 <= i < |pairs| ==> pairs[i].1 in m
    ensures forall v :: v in m ==> exists i :: 0 <= i < |pairs| && pairs[i].1 == v && m[v] == pairs[i].0
  {
    if pairs == [] then map[]
    else
      var last := pairs[|pairs| - 1];
      Inverse(pairs[..|pairs| - 1])[last.1 := last.0]
  }

  /** No two pairs share an ID. */
  predicate DistinctIds(pairs: seq<(string, string)>)
  {
    forall i, j :: 0 <= i < j < |pairs| ==> pairs[i].1 != pairs[j].1
  }

  /** With distinct IDs the inverse maps every ID back to its own name. */
  lemma {:induction false} InverseRoundTrip(pairs: seq<(string, string)>)
    requires DistinctIds(pairs)
    ensures forall i :: 0 <= i < |pairs| ==> Inverse(pairs)[pairs[i].1] == pairs[i].0
  {
    if pairs != [] {
      var init := pairs[..|pairs| - 1];
      assert DistinctIds(init);
      InverseRoundTrip(init);
      forall i | 0 <= i < |pairs| ensures Inverse(pairs)[pairs[i].1] == pairs[i].0 {
        if i < |pairs| - 1 {
          assert init[i] == pairs[i];
        }
      }
    }
  }

  /** `id_to_type`. */
  function IdToType(): map<string, string>
  {
    Inverse(AddProductScreen.ProductTypes)
  }

  /** With distinct keys and distinct values, the inverse undoes the dictionary and the
      dictionary undoes the inverse. */
  lemma InverseUndoesDict(pairs: seq<(string, string)>)
    requires AddProductScreen.DistinctKeys(pairs) && DistinctIds(pairs)
    ensures forall k :: k in AddProductScreen.DictOf(pairs) ==>
      AddProductScreen.DictOf(pairs)[k] in Inverse(pairs) && Inverse(pairs)[AddProductScreen.DictOf(pairs)[k]] == k
    ensures forall v :: v in Inverse(pairs) ==>
      Inverse(pairs)[v] in AddProductScreen.DictOf(pairs) && AddProductScreen.DictOf(pairs)[Inverse(pairs)[v]] == v
  {
    InverseRoundTrip(pairs);
    AddProductScreen.DictOfLookup(pairs);
  }

  /** `id_to_type` is the exact inverse of `product_types`: name to ID to name, and ID to
      name to ID, both come back to where they started. */
  lemma IdToTypeRoundTrip()
    ensures forall name :: name in AddProductScreen.TypeIdOf() ==>
      AddProductScreen.TypeIdOf()[name] in IdToType() && IdToType()[AddProductScreen.TypeIdOf()[name]] == name
    ensures forall id :: id in IdToType() ==>
      IdToType()[id] in AddProductScreen.TypeIdOf() && AddProductScreen.TypeIdOf()[IdToType()[id]] == id
  {
    AddProductScreen.KnownTypeIds();
    assert DistinctIds(AddProductScreen.ProductTypes);
    InverseUndoesDict(AddProductScreen.ProductTypes);
  }

  /** The index the type-combo loop leaves selected: the first entry whose data equals
      `target`, or `current` when none does. */
  function SelectedIndex(data: seq<string>, target: string, current: int): (index: int)
    ensures (exists i :: 0 <= i < |data| && data[i] == target) ==>
      0 <= index < |data| && data[index] == target && forall j :: 0 <= j < index ==> data[j] != target
    ensures (forall i :: 0 <= i < |data| ==> data[i] != target) ==> index == current
  {
    match FirstIndex(data, x => x == target)
    case None => current
    case Some(k) => k
  }

  /** The loop of `load_product_data` over the combo entries, stopping at the first match. */
  method SelectTypeIndex(data: seq<string>, target: string, current: int) returns (index: int)
    ensures index == SelectedIndex(data, target, current)
  {
    index := current;
    var i := 0;
    while i < |data|
      invariant 0 <= i <= |data|
      invariant index == current
      invariant forall j :: 0 <= j < i ==> data[j] != target
    {
      if data[i] == target {
        index := i;
        return;
      }
      i := i + 1;
    }
  }

  /** The form `load_product_data` produces from a listed product: its name and article, the
      combo on the entry carrying its type ID (else left on the placeholder), and the price. */
  function LoadedForm(p: Repository.ProductItem, priceCents: PriceCents): ProductForm
  {
    AddProductScreen.ProductForm(p.name, SelectedIndex(AddProductScreen.ComboData(), p.typeId, 0), p.article, priceCents)
  }

  /** `load_product_data`; the price is passed in already parsed. */
  method LoadProductData(p: Repository.ProductItem, priceCents: PriceCents) returns (f: ProductForm)
    ensures f == LoadedForm(p, priceCents)
  {
    var index := SelectTypeIndex(AddProductScreen.ComboData(), p.typeId, 0);
    f := AddProductScreen.ProductForm(p.name, index, p.article, priceCents);
  }

  /** The combo shows a stored product's type exactly when its ID is one of the four; any
      other ID leaves the placeholder selected. */
  lemma LoadedTypeRoundTrip(p: Repository.ProductItem, priceCents: PriceCents)
    ensures p.typeId in AddProductScreen.TypeIds(AddProductScreen.ProductTypes) ==>
      AddProductScreen.CurrentData(LoadedForm(p, priceCents).typeIndex) == p.typeId
    ensures p.typeId !in AddProductScreen.TypeIds(AddProductScreen.ProductTypes) ==>
      LoadedForm(p, priceCents).typeIndex == 0
  {
    var data := AddProductScreen.ComboData();
    var ids := AddProductScreen.TypeIds(AddProductScreen.ProductTypes);
    assert data == [""] + ids;
    if p.typeId in ids {
      var k :| 0 <= k < |ids| && ids[k] == p.typeId;
      assert data[k + 1] == p.typeId;
    } else if p.typeId != "" {
      assert forall i :: 0 <= i < |data| ==> data[i] != p.typeId;
    }
  }

  /** Saving a loaded product without edits passes the checks exactly when its name and
      article are non-blank, its type ID is one of the four and its price is positive. */
  lemma LoadedFormPasses(p: Repository.ProductItem, priceCents: PriceCents)
    ensures AddProductScreen.Validate(LoadedForm(p, priceCents)).Pass? <==>
      && Trim(p.name) != [] && Trim(p.article) != []
      && p.typeId in AddProductScreen.TypeIds(AddProductScreen.ProductTypes)
      && priceCents > 0
  {
    var f := LoadedForm(p, priceCents);
    LoadedTypeRoundTrip(p, priceCents);
    AddProductScreen.KnownTypeIds();
    if AddProductScreen.Validate(f).Pass? {
      assert AddProductScreen.Holds(f, AddProductScreen.NameGiven) && AddProductScreen.Holds(f, AddProductScreen.ArticleGiven);
      assert AddProductScreen.Holds(f, AddProductScreen.TypeChosen) && AddProductScreen.Holds(f, AddProductScreen.PricePositive);
      var ids := AddProductScreen.TypeIds(AddProductScreen.ProductTypes);
      assert ids[f.typeIndex - 1] == AddProductScreen.CurrentData(f.typeIndex);
    }
  }

  /** The update `save_product` requests: the product is looked up by the article it was
      opened with, while the new article may differ. */
  datatype ProductUpdate = ProductUpdate(originalArticle: string, product: AddProductScreen.NewProduct)

  datatype SaveStep = Rejected(check: AddProductScreen.ProductCheck) | Submit(update: ProductUpdate)

  /** `save_product` up to the store call. */
  function SaveProduct(originalArticle: string, f: ProductForm): (r: SaveStep)
    ensures r.Rejected? <==> AddProductScreen.Validate(f).Fail?
    ensures r.Rejected? ==> r.check == AddProductScreen.Validate(f).check
    ensures r.Submit? ==>
      && r.update.originalArticle == originalArticle
      && r.update.product.article == Trim(f.article) && r.update.product.article != []
      && r.update.product.typeId != ""
    ensures r.Submit? ==>
      && r.update.product.name == Trim(f.name)
      && r.update.product.typeId == AddProductScreen.CurrentData(f.typeIndex)
      && r.update.product.priceCents == f.priceCents > 0
  {
    match AddProductScreen.Validate(f)
    case Fail(c) => Rejected(c)
    case Pass =>
      assert AddProductScreen.Holds(f, AddProductScreen.TypeChosen) && AddProductScreen.Holds(f, AddProductScreen.ArticleGiven);
      Submit(ProductUpdate(originalArticle, AddProductScreen.ProductDataFrom(f)))
  }
}
