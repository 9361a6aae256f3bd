/** The "edit partner" form: filling the widgets from a stored row, the checks made before
    saving, and the update it sends. The widgets are those of the "add partner" form, with
    the INN field read-only. */
module EditPartnerScreen {
  import opened Common
  import Repository
  import AddPartnerScreen

  type PartnerForm = AddPartnerScreen.PartnerForm
  type Rating = AddPartnerScreen.Rating

  /** `QSpinBox.setValue`: values outside 0..10 are pulled to the nearest bound. */
  function ClampRating(v: int): (r: Rating)
    ensures 0 <= v <= 10 ==> r == v
    ensures v < 0 ==> r == 0
    ensures v > 10 ==> r == 10
  {
    if v < 0 then 0 else if v > 10 then 10 else v
  }

  /** The row `get_partner_by_inn` fetches, column by column; any column may be NULL. */
  datatype StoredPartner = StoredPartner(
    partnerType: Option<string>,
    name: Option<string>,
    director: Option<string>,
    phone: Option<string>,
    email: Option<string>,
    address: Option<string>,
    inn: Option<string>,
    rating: Option<int>)

  /** The columns of a stored partner, none of them NULL. */
  function Stored(p: Repository.PartnerData): StoredPartner
  {
    StoredPartner(Some(p.partnerType), Some(p.name), Some(p.director), Some(p.phone), Some(p.email),
                  Some(p.legalAddress), Some(p.inn), Some(p.rating))
  }

  /** Python's `text or ""`: NULL reads as the empty text. */
  function OrEmpty(text: Option<string>): (r: string)
    ensures text.None? ==> r == ""
    ensures text.Some? ==> r == text.value
  {
    if text.Some? then text.value else ""
  }

  /** `fill_fields`: the combo moves to the stored type when it is non-empty and one of its
      entries, and otherwise stays on the first; NULL texts become ""; the rating (0 when NULL)
      goes through the spin box. */
  function FillFields(s: StoredPartner): (f: PartnerForm)
    ensures f.partnerType in AddPartnerScreen.PartnerTypes
    ensures s.partnerType.Some? && s.partnerType.value in AddPartnerScreen.PartnerTypes ==> f.partnerType == s.partnerType.value
    ensures s.partnerType.None? || s.partnerType.value !in AddPartnerScreen.PartnerTypes ==>
      f.partnerType == AddPartnerScreen.PartnerTypes[0]
    ensures f.name == OrEmpty(s.name) && f.director == OrEmpty(s.director) && f.phone == OrEmpty(s.phone)
    ensures f.email == OrEmpty(s.email) && f.address == OrEmpty(s.address) && f.inn == OrEmpty(s.inn)
    ensures s.rating.None? ==> f.rating == 0
    ensures s.rating.Some? ==> f.rating == ClampRating(s.rating.value)
    ensures s.rating.Some? && 0 <= s.rating.value <= 10 ==> f.rating == s.rating.value
  {
    var partnerType :=
      if s.partnerType.Some? && s.partnerType.value != [] && s.partnerType.value in AddPartnerScreen.PartnerTypes
      then s.partnerType.value
      else AddPartnerScreen.PartnerTypes[0];
    var rating := if s.rating.Some? then s.rating.value else 0;
    AddPartnerScreen.PartnerForm(partnerType, OrEmpty(s.name), OrEmpty(s.director), OrEmpty(s.phone), OrEmpty(s.email),
                                 OrEmpty(s.address), OrEmpty(s.inn), ClampRating(rating))
  }

  /** `load_partner_data`: the form for the partner with that INN, or nothing ("Партнер не
      найден", and the window closes). */
  function LoadPartner(rows: seq<Repository.PartnerRow>, inn: string): (r: Option<PartnerForm>)
    ensures r.None? <==> !Repository.HasInn(rows, inn)
    ensures r.Some? ==> r.value.inn == inn
  {
    match Repository.PartnerByInn(rows, inn)
    case None => None
    case Some(p) => Some(FillFields(Stored(p)))
  }

  /** The checks of `validate_fields`, in the order it makes them; the INN is not checked. */
  datatype EditCheck = NameGiven | DirectorGiven | PhoneGiven | EmailGiven | AddressGiven

  function Rank(c: EditCheck): nat
  {
    match c
    case NameGiven => 0
    case DirectorGiven => 1
    case PhoneGiven => 2
    case EmailGiven => 3
    case AddressGiven => 4
  }

  /** What each check demands of a stripped form. */
  predicate Holds(f: PartnerForm, c: EditCheck)
  {
    match c
    case NameGiven => f.name != []
    case DirectorGiven => f.director != []
    case PhoneGiven => f.phone != []
    case EmailGiven => f.email != []
    case AddressGiven => f.address != []
  }

  function Message(c: EditCheck): string
  {
    match c
    case NameGiven => "Введите наименование организации"
    case DirectorGiven => "Введите ФИО директора"
    case PhoneGiven => "Введите телефон"
    case EmailGiven => "Введите email"
    case AddressGiven => "Введите юридический адрес"
  }

  /** `validate_fields`: pass only if every check holds; otherwise report the first
      failing check in source order. */
  function Validate(f: PartnerForm): (r: Outcome<EditCheck>)
    ensures r.Pass? ==> forall c :: Holds(AddPartnerScreen.Strip(f), c)
    ensures r.Fail? ==>
      && !Holds(AddPartnerScreen.Strip(f), r.check)
      && forall c :: Rank(c) < Rank(r.check) ==> Holds(AddPartnerScreen.Strip(f), c)
  {
    var s := AddPartnerScreen.Strip(f);
    if s.name == [] then Fail(NameGiven)
    else if s.director == [] then Fail(DirectorGiven)
    else if s.phone == [] then Fail(PhoneGiven)
    else if s.email == [] then Fail(EmailGiven)
    else if s.address == [] then Fail(AddressGiven)
    else Pass
  }

  /** Every form the "add partner" checks accept, the edit checks accept too. */
  lemma AddChecksImplyEditChecks(f: PartnerForm)
    requires AddPartnerScreen.Validate(f).Pass?
    ensures Validate(f).Pass?
  {
    var s := AddPartnerScreen.Strip(f);
    assert AddPartnerScreen.Holds(s, AddPartnerScreen.NameGiven) && AddPartnerScreen.Holds(s, AddPartnerScreen.DirectorGiven);
    assert AddPartnerScreen.Holds(s, AddPartnerScreen.PhoneGiven) && AddPartnerScreen.Holds(s, AddPartnerScreen.EmailGiven);
    assert AddPartnerScreen.Holds(s, AddPartnerScreen.AddressGiven);
  }

  /** The `updated_data` dictionary: the combo text, the stripped texts and the rating, no INN. */
  function UpdatedData(f: PartnerForm): (e: Repository.PartnerEdit)
    ensures e.partnerType == f.partnerType && e.rating == f.rating
    ensures e.name == Trim(f.name) && e.director == Trim(f.director) && e.phone == Trim(f.phone)
    ensures e.email == Trim(f.email) && e.legalAddress == Trim(f.address)
    ensures Tidy(e.name) && Tidy(e.director) && Tidy(e.phone) && Tidy(e.email) && Tidy(e.legalAddress)
  {
    var s := AddPartnerScreen.Strip(f);
    Repository.PartnerEdit(f.partnerType, s.name, s.director, s.phone, s.email, s.address, f.rating)
  }

  /** The read-only INN field plays no part in validating or saving. */
  lemma InnFieldIgnored(f: PartnerForm, inn: string)
    ensures Validate(f.(inn := inn)) == Validate(f)
    ensures UpdatedData(f.(inn := inn)) == UpdatedData(f)
  {
  }

  /** Opening a stored partner and saving without touching anything writes back exactly the
      row that was loaded, when its type is a combo entry, its texts are non-blank and carry
      no surrounding whitespace, and its rating is within 0..10. */
  lemma UnchangedFormKeepsRow(p: Repository.PartnerData)
    requires p.partnerType in AddPartnerScreen.PartnerTypes && 0 <= p.rating <= 10
    requires Tidy(p.name) && Tidy(p.director) && Tidy(p.phone) && Tidy(p.email) && Tidy(p.legalAddress)
    requires p.name != [] && p.director != [] && p.phone != [] && p.email != [] && p.legalAddress != []
    ensures Validate(FillFields(Stored(p))).Pass?
    ensures Repository.ApplyEdit(p, UpdatedData(FillFields(Stored(p)))) == p
  {
    var f := FillFields(Stored(p));
    TrimKeeps(f.name);
    TrimKeeps(f.director);
    TrimKeeps(f.phone);
    TrimKeeps(f.email);
    TrimKeeps(f.address);
  }

  /** What the user sees after pressing "save". */
  datatype EditOutcome = Rejected(check: EditCheck) | Updated | UpdateFailed

  /** `save_partner`: validate, then update the rows with the INN the screen was opened for
      (not the INN field); success ("Данные партнера успешно обновлены!") iff a row matched. */
  method SavePartner(db: Repository.DatabaseManager, partnerInn: string, f: PartnerForm) returns (outcome: EditOutcome)
    requires db.Valid()
    modifies db
    ensures db.Valid() && db.products == old(db.products)
    ensures Validate(f).Fail? ==> outcome == Rejected(Validate(f).check) && db.partners == old(db.partners)
    ensures Validate(f).Pass? ==>
      && db.partners == Repository.UpdatePartnerRows(old(db.partners), partnerInn, UpdatedData(f))
      && (outcome == Updated <==> Repository.HasInn(old(db.partners), partnerInn))
      && (outcome == UpdateFailed <==> !Repository.HasInn(old(db.partners), partnerInn))
  {
    var v := Validate(f);
    if v.Fail? {
      return Rejected(v.check);
    }
    var ok := db.UpdatePartner(partnerInn, UpdatedData(f));
    outcome := if ok then Updated else UpdateFailed;
  }
}
