/** The "add partner" form: its field checks, the row it inserts, and what it reports. */
module AddPartnerScreen {
  import opened Common
  import Repository

  /** The entries of the partner-type combo, in order. */
  const PartnerTypes: seq<string> := ["ЗАО", "ООО", "ПАО", "ИП", "ТОО"]

  /** The rating spin box holds whole values from 0 to 10. */
  type Rating = r: int | 0 <= r <= 10

  /** The widgets' contents: the combo's current text, the line-edit texts, the spin value. */
  datatype PartnerForm = PartnerForm(
    partnerType: string,
    name: string,
    director: string,
    phone: string,
    email: string,
    address: string,
    inn: string,
    rating: Rating)

  /** The checks of `validate_fields`, in the order it makes them. */
  datatype PartnerCheck =
    NameGiven | DirectorGiven | InnGiven | InnDigitsOnly | InnLength | PhoneGiven | EmailGiven | AddressGiven

  function Rank(c: PartnerCheck): nat
  {
    match c
    case NameGiven => 0
    case DirectorGiven => 1
    case InnGiven => 2
    case InnDigitsOnly => 3
    case InnLength => 4
    case PhoneGiven => 5
    case EmailGiven => 6
    case AddressGiven => 7
  }

  /** Every text field with surrounding whitespace removed, as each check reads it. */
  function Strip(f: PartnerForm): PartnerForm
  {
    f.(name := Trim(f.name), director := Trim(f.director), phone := Trim(f.phone),
       email := Trim(f.email), address := Trim(f.address), inn := Trim(f.inn))
  }

  /** What each check demands of a stripped form. */
  predicate Holds(f: PartnerForm, c: PartnerCheck)
  {
    match c
    case NameGiven => f.name != []
    case DirectorGiven => f.director != []
    case InnGiven => f.inn != []
    case InnDigitsOnly => AllDigits(f.inn)
    case InnLength => |f.inn| == 10 || |f.inn| == 12
    case PhoneGiven => f.phone != []
    case EmailGiven => f.email != []
    case AddressGiven => f.address != []
  }

  /** The warning each failed check shows. */
  function Message(c: PartnerCheck): string
  {
    match c
    case NameGiven => "Введите наименование партнера"
    case DirectorGiven => "Введите ФИО директора"
    case InnGiven => "Введите ИНН"
    case InnDigitsOnly => "ИНН должен содержать только цифры"
    case InnLength => "ИНН должен содержать 10 или 12 цифр"
    case PhoneGiven => "Введите телефон"
    case EmailGiven => "Введите email"
    case AddressGiven => "Введите юридический адрес"
  }

  /** `validate_fields`: pass only if every check holds; otherwise report the first
      failing check in source order. */
  function Validate(f: PartnerForm): (r: Outcome<PartnerCheck>)
    ensures r.Pass? ==> forall c :: Holds(Strip(f), c)
    ensures r.Fail? ==> !Holds(Strip(f), r.check) && forall c :: Rank(c) < Rank(r.check) ==> Holds(Strip(f), c)
  {
    var s := Strip(f);
    if s.name == [] then Fail(NameGiven)
    else if s.director == [] then Fail(DirectorGiven)
    else if s.inn == [] then Fail(InnGiven)
    else if !AllDigits(s.inn) then Fail(InnDigitsOnly)
    else if |s.inn| != 10 && |s.inn| != 12 then Fail(InnLength)
    else if s.phone == [] then Fail(PhoneGiven)
    else if s.email == [] then Fail(EmailGiven)
    else if s.address == [] then Fail(AddressGiven)
    else Pass
  }

  /** The `partner_data` dictionary `save_partner` builds. */
  function PartnerDataFrom(f: PartnerForm): (d: Repository.PartnerData)
    ensures d.partnerType == f.partnerType && d.rating == f.rating
    ensures d.name == Trim(f.name) && d.director == Trim(f.director) && d.phone == Trim(f.phone)
    ensures d.email == Trim(f.email) && d.legalAddress == Trim(f.address) && d.inn == Trim(f.inn)
    ensures Tidy(d.name) && Tidy(d.director) && Tidy(d.phone) && Tidy(d.email) && Tidy(d.legalAddress) && Tidy(d.inn)
  {
    var s := Strip(f);
    Repository.PartnerData(f.partnerType, s.name, s.director, s.phone, s.email, s.address, s.inn, f.rating)
  }

  /** A form that passes validation yields a row whose INN is 10 or 12 ASCII digits, whose
      text columns are all non-blank, and whose rating is within 0..10. */
  lemma ValidFormGivesWellFormedRow(f: PartnerForm)
    requires Validate(f).Pass?
    ensures var d := PartnerDataFrom(f);
      && AllDigits(d.inn) && (|d.inn| == 10 || |d.inn| == 12)
      && d.name != [] && d.director != [] && d.phone != [] && d.email != [] && d.legalAddress != []
      && 0 <= d.rating <= 10
  {
    assert Holds(Strip(f), InnDigitsOnly) && Holds(Strip(f), InnLength);
    assert Holds(Strip(f), NameGiven) && Holds(Strip(f), DirectorGiven);
    assert Holds(Strip(f), PhoneGiven) && Holds(Strip(f), EmailGiven) && Holds(Strip(f), AddressGiven);
  }

  /** An INN with a non-digit, or of any length other than 10 or 12, is refused, whatever
      the other fields hold. */
  lemma MalformedInnRefused(f: PartnerForm)
    requires Trim(f.inn) != [] && (!AllDigits(Trim(f.inn)) || (|Trim(f.inn)| != 10 && |Trim(f.inn)| != 12))
    ensures Validate(f).Fail?
  {
    assert !Holds(Strip(f), InnDigitsOnly) || !Holds(Strip(f), InnLength);
  }

  /** `clear_fields`: first combo entry, empty texts, rating 0. */
  function ClearedForm(): (f: PartnerForm)
    ensures f.partnerType in PartnerTypes
    ensures Validate(f) == Fail(NameGiven)
  {
    PartnerForm(PartnerTypes[0], "", "", "", "", "", "", 0)
  }

  /** What the user sees after pressing "save". */
  datatype SaveOutcome =
    | Rejected(check: PartnerCheck)
    | Saved
    | NotSaved
    | Crashed(message: string)

  /** The text of the exception `success, message = <bool>` raises, as the screen shows it. */
  const UnpackFailure: string := "Непредвиденная ошибка: cannot unpack non-iterable bool object"

  /** `save_partner` as written: `add_partner` returns a single bool, so unpacking it into
      `success, message` raises after the row has been inserted and committed, and the
      screen shows the unexpected-error box instead of closing. */
  method SavePartnerAsWritten(db: Repository.DatabaseManager, f: PartnerForm) returns (outcome: SaveOutcome)
    requires db.Valid()
    modifies db
    ensures db.Valid() && db.products == old(db.products)
    ensures Validate(f).Fail? ==> outcome == Rejected(Validate(f).check) && db.partners == old(db.partners)
    ensures Validate(f).Pass? ==>
      && outcome == Crashed(UnpackFailure)
      && db.partners == Repository.InsertPartner(old(db.partners), PartnerDataFrom(f))
      && Repository.PartnerByInn(db.partners, Trim(f.inn)).Some?
  {
    var v := Validate(f);
    if v.Fail? {
      return Rejected(v.check);
    }
    var data := PartnerDataFrom(f);
    var ok := db.AddPartner(data);
    Repository.AddedPartnerFound(old(db.partners), data);
    // The returned bool cannot be unpacked into two names; the handler catches the error.
    outcome := Crashed(UnpackFailure);
  }

  /** `save_partner` as evidently intended: the store's answer decides between the success
      path (information box, `partner_added`, close) and the warning path. */
  method SavePartner(db: Repository.DatabaseManager, f: PartnerForm) returns (outcome: SaveOutcome)
    requires db.Valid()
    modifies db
    ensures db.Valid() && db.products == old(db.products)
    ensures outcome.Saved? <==> Validate(f).Pass?
    ensures Validate(f).Fail? ==> outcome == Rejected(Validate(f).check) && db.partners == old(db.partners)
    ensures Validate(f).Pass? ==>
      && db.partners == Repository.InsertPartner(old(db.partners), PartnerDataFrom(f))
      && Repository.PartnerByInn(db.partners, Trim(f.inn)).Some?
      && (!Repository.HasInn(old(db.partners), Trim(f.inn)) ==>
            Repository.PartnerByInn(db.partners, Trim(f.inn)) == Some(PartnerDataFrom(f)))
  {
    var v := Validate(f);
    if v.Fail? {
      return Rejected(v.check);
    }
    var data := PartnerDataFrom(f);
    var ok := db.AddPartner(data);
    Repository.AddedPartnerFound(old(db.partners), data);
    outcome := if ok then Saved else NotSaved;
  }

  /** A form that passes validation: the input on which the two versions of `save_partner`
      part ways. */
  function SampleForm(): PartnerForm
  {
    PartnerForm("ООО", "Паркет 29", "Иванов", "+7 223", "a@parket.ru", "Москва", "1234567890", 5)
  }

  lemma SampleFormPasses()
    ensures Validate(SampleForm()).Pass?
    ensures PartnerDataFrom(SampleForm()) ==
      Repository.PartnerData("ООО", "Паркет 29", "Иванов", "+7 223", "a@parket.ru", "Москва", "1234567890", 5)
  {
    var f := SampleForm();
    StripKeeps(f);
    assert AllDigits(f.inn);
    assert Holds(f, NameGiven);
  }

  /** A form whose texts carry no surrounding whitespace is its own stripped form. */
  lemma StripKeeps(f: PartnerForm)
    requires Tidy(f.name) && Tidy(f.director) && Tidy(f.phone)
    requires Tidy(f.email) && Tidy(f.address) && Tidy(f.inn)
    ensures Strip(f) == f
  {
    TrimKeeps(f.name);
    TrimKeeps(f.director);
    TrimKeeps(f.phone);
    TrimKeeps(f.email);
    TrimKeeps(f.address);
    TrimKeeps(f.inn);
  }

  /** Saving the sample form with `save_partner` as written: the partner is stored, yet the
      screen reports the unexpected-error box and stays open. */
  method SampleSaveAsWritten(db: Repository.DatabaseManager) returns (outcome: SaveOutcome)
    requires db.Valid()
    modifies db
    ensures outcome == Crashed(UnpackFailure)
    ensures Repository.PartnerByInn(db.partners, "1234567890").Some?
  {
    SampleFormPasses();
    outcome := SavePartnerAsWritten(db, SampleForm());
  }
}
