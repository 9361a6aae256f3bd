# masterpol: a verified model of the credential store, the partner/product repository and the form logic

masterpol is a desktop front end for a flooring supplier. It keeps partner companies, their
products and their sales in an SQLite database, and guards the application with a login screen.
This project models, in Dafny, the parts of it that decide something:

- **AuthStore** (`auth_manager.dfy`) models the Users table and `AuthManager`. It covers
  first-run seeding of the two default accounts, registration, login, account lookup, password
  change, and activation/deactivation. The table is a class field that each operation reassigns.
  The SHA-256 password digest is a function field about which nothing is assumed.
- **Repository** (`db_manager.dfy`) models the Partners_Import and Products_Import tables and
  `DatabaseManager`. SQL's WHERE, ORDER BY, DISTINCT, LOWER/LIKE, rowid assignment and
  `rowcount > 0` are written as sequence operations.
- **One module per form**: registration, add/edit partner, add/edit product and add/edit sale.
  Each `validate_fields` is an ordered chain of checks, where the first failure wins. Each
  screen also models what it builds for the store (`partner_data`, `updated_data`,
  `product_data`, `sale_data`, `updated_sale_data`) and how it fills its widgets from stored
  data. That includes the combo-selection loops, which are methods proved against a function.
- **Common** and **Ordering** hold the shared pieces:
  - Python's `str.strip()`, `fetchone()` as a first-match search, WHERE as a filter, and
    SQLite's `LOWER`;
  - ORDER BY as an insertion sort by key, and DISTINCT as de-duplication.

Every validator is stated against a predicate per check and a rank giving the source order:
- when it passes, every check holds;
- when it fails with check `c`, then `c` fails and every check ranked before `c` holds.

Together these determine the outcome exactly. Operations that write to the store are class
methods whose contracts give the whole new table in terms of the old one. Lemmas then prove
the properties of those table functions: a lookup after an update, logins that an operation
leaves unaffected, idempotence, and rowid order.

Two behaviours follow from the code itself:
- `add_partner` performs no INN uniqueness check, and the schema has no UNIQUE constraint on
  INN. The model therefore allows duplicate INNs (`Repository.AddSameInnTwice`).
- `get_partner_products` never uses its partner argument in the query, so every partner sees
  the same product list (`Repository.PartnerProductsIgnoreInn`).

## Model

| member | source | states |
|---|---|---|
| Common.Trim | ui/register_screen.py:171-174 | `strip()` gives a result that is empty exactly when the text is all whitespace (the characters `str.isspace()` accepts), and otherwise starts and ends with a non-whitespace character |
| Common.TrimIsMiddle | ui/register_screen.py:171-174 | the stripped text is a contiguous part of the input, starting where the leading whitespace ends |
| Common.TrimDropsOnlySpace | ui/register_screen.py:171-174 | everything before and after the stripped part is whitespace |
| Common.TrimUnique | ui/register_screen.py:171-174 | any part of the text with only whitespace outside it, and empty or starting and ending with a non-whitespace character, is exactly what `strip()` returns |
| Common.AllDigits | ui/add_partner_screen.py:194 | the INN passes `isdigit()` iff it is non-empty and every character is one of 0-9 |
| Common.TrimIdempotent | ui/register_screen.py:213-216 | stripping already-stripped text changes nothing, so the texts re-read after validation are the ones validated |
| Common.FirstIndex | database/db_manager.py:115 | `fetchone()` gives the first row satisfying the condition, no earlier row satisfies it, and it gives nothing exactly when no row does |
| Common.Filter | database/db_manager.py:97 | a DELETE ... WHERE keeps exactly the rows that do not match, and never more rows than there were |
| Common.FilterLength | database/db_manager.py:254-259 | the table keeps its size exactly when no row matches the deletion condition, which is what `rowcount > 0` reports |
| Common.FilterCount | database/db_manager.py:170-173 | a WHERE condition keeps each matching row as often as it occurs and drops every other row |
| Common.Lower | database/db_manager.py:172 | SQLite's LOWER turns each ASCII capital into its lowercase letter, leaves every other character as it is, and leaves no ASCII capital |
| Ordering.LexLeqIsPrecedes | database/db_manager.py:84 | the BINARY text order used by ORDER BY puts `a` first iff `a` is a prefix of `b` or has the smaller character at the first position where they differ |
| Ordering.SortBy | database/db_manager.py:84 | ORDER BY returns the same rows (a permutation) in ascending key order |
| Ordering.Dedup | database/db_manager.py:163 | SELECT DISTINCT keeps each row that occurs exactly once and adds nothing |
| AuthStore.SetActive | database/auth_manager.py:245-249 | `UPDATE Users SET IsActive` keeps every row and every other column, sets the flag on the rows with that username and leaves the other rows' flags alone |
| AuthStore.SetPassword | database/auth_manager.py:205-209 | `UPDATE Users SET Password` keeps every row and every other column, sets the digest on the active rows with that username and leaves every other row's digest alone |
| AuthStore.UserExists | database/auth_manager.py:142-152 | `user_exists` is true iff some row carries this exact username |
| AuthStore.Authenticate | database/auth_manager.py:95-116 | login succeeds iff an active row has this username, the digest of this password and this role |
| AuthStore.GetUserInfo | database/auth_manager.py:157-184 | `get_user_info` returns the data of an active row with this username, and None iff there is no such row |
| AuthStore.OldPasswordAccepted | database/auth_manager.py:189-201 | the old-password check passes iff an active row with this username stores the digest of the old password |
| AuthStore.AuthManager.constructor | database/auth_manager.py:7-20 | opening the store seeds the two default accounts into an empty table and leaves a non-empty one alone |
| AuthStore.AuthManager.CreateDefaultUsers | database/auth_manager.py:58-93 | seeding inserts admin/admin123 and user/user123 only when the table is empty; the ids continue the AUTOINCREMENT counter |
| AuthStore.AuthManager.RegisterUser | database/auth_manager.py:118-140 | an existing username returns (False, "Пользователь с таким логином уже существует") with no change; a role other than admin/user returns False with the CHECK error and no change; otherwise exactly one active row with the digest is appended and (True, "Пользователь успешно зарегистрирован") is returned |
| AuthStore.AuthManager.ChangePassword | database/auth_manager.py:186-217 | a wrong old password or an inactive account returns (False, "Неверный текущий пароль") and changes nothing; otherwise only the active rows of that user get the new digest |
| AuthStore.AuthManager.DeactivateUser | database/auth_manager.py:239-258 | clears the active flag of that username only, and returns true iff the username exists |
| AuthStore.AuthManager.ActivateUser | database/auth_manager.py:260-278 | sets the active flag of that username only, and returns true iff the username exists |
| AuthStore.RegisteredUserLogsIn | database/auth_manager.py:127-137 | after registering a new username, it exists and logs in with that password and role |
| AuthStore.RegisterKeepsOtherLogins | database/auth_manager.py:129-132 | registering a row leaves every other username's login result unchanged |
| AuthStore.DeactivatedUserLockedOut | database/auth_manager.py:245-249 | after deactivation, no password and role logs the user in, and `get_user_info` returns None |
| AuthStore.SetActiveKeepsOtherLogins | database/auth_manager.py:245-249 | (de)activating one username leaves every other username's login result unchanged |
| AuthStore.SetActiveIdempotent | database/auth_manager.py:266-270 | deactivating (or activating) twice equals doing it once |
| AuthStore.ActivateUndoesDeactivate | database/auth_manager.py:266-270 | activating an active account that was just deactivated restores the table exactly |
| AuthStore.ChangedPasswordLogsIn | database/auth_manager.py:204-209 | after an accepted change, the user logs in with the new password and its own role |
| AuthStore.ChangePasswordKeepsOtherLogins | database/auth_manager.py:205-209 | a password change leaves every other username's login result unchanged |
| AuthStore.SeedingIdempotent | database/auth_manager.py:64-68 | seeding twice equals seeding once |
| AuthStore.DefaultAccountsLogIn | database/auth_manager.py:69-81 | on a fresh table, admin/admin123 logs in as admin and user/user123 logs in as user |
| Repository.InsertPartner | database/db_manager.py:53-70 | the INSERT keeps the existing rows in place and appends one row with the given eight columns and a rowid above every existing one |
| Repository.DeletePartnerRows | database/db_manager.py:97 | a row survives `DELETE ... WHERE INN = ?` iff it was stored and has a different INN |
| Repository.UpdatePartnerRows | database/db_manager.py:128-142 | the UPDATE keeps every row, rowid and INN, leaves rows with other INNs unchanged, and gives each row with that INN the seven edited columns |
| Repository.DeleteProductRows | database/db_manager.py:254 | a product survives `DELETE ... WHERE ArticleNumber = ?` iff it was stored and has a different article |
| Repository.NextRowId | database/db_manager.py:18 | a row inserted without a PartnerID gets a rowid above every existing one |
| Repository.AllPartners | database/db_manager.py:76-91 | `get_all_partners` lists every row's eight columns, each as often as it is stored, ordered by PartnerName |
| Repository.PartnerByInn | database/db_manager.py:103-121 | `get_partner_by_inn` returns a stored row with that INN, and None iff no row has it |
| Repository.PartnerNameByInn | database/db_manager.py:187-198 | returns the name of a row with that INN, or "Неизвестный партнер" when none exists |
| Repository.PartnerProducts | database/db_manager.py:154-185 | the product list is ordered by name and holds each distinct product whose lowered name contains the lowered search text exactly once (all products for empty text) |
| Repository.DatabaseManager.constructor | database/db_manager.py:6-7 | the manager starts over the stored tables |
| Repository.DatabaseManager.CreateTestTable | database/db_manager.py:12-47 | appends the three test partners and leaves the products untouched |
| Repository.DatabaseManager.AddPartner | database/db_manager.py:49-74 | appends exactly one row with the eight given columns, and returns true |
| Repository.DatabaseManager.DeletePartner | database/db_manager.py:93-101 | removes exactly the rows with that INN, and returns true iff there was one |
| Repository.DatabaseManager.UpdatePartner | database/db_manager.py:123-152 | overwrites the seven non-INN columns of the rows with that INN, and returns true iff there was one |
| Repository.DatabaseManager.DeleteProduct | database/db_manager.py:248-263 | removes exactly the products with that article, and returns true iff there was one |
| Repository.InsertKeepsRowIdsAscending | database/db_manager.py:53-57 | an insert keeps the table in ascending rowid order |
| Repository.DeleteKeepsRowIdsAscending | database/db_manager.py:97 | a delete keeps the table in ascending rowid order |
| Repository.AddSameInnTwice | database/db_manager.py:49-74 | adding the same partner twice leaves two rows with that INN and distinct rowids |
| Repository.SeedingAppendsEachTime | database/db_manager.py:40-44 | each `create_test_table` appends the three test partners again, since INSERT OR REPLACE without a rowid never replaces |
| Repository.AddedPartnerFound | database/db_manager.py:103-117 | after an insert the INN is found, and with a previously unused INN the lookup returns the new data and its name |
| Repository.AllPartnersAfterInsert | database/db_manager.py:76-91 | after an insert, the listing holds exactly one more entry, the new partner |
| Repository.DeletedPartnerGone | database/db_manager.py:93-101 | after a delete no row has the INN, every other row remains, and both lookups report "not found" |
| Repository.UpdateThenLookup | database/db_manager.py:123-147 | an update keeps every rowid and INN, changes only matching rows, makes a later lookup return the edited data, and changes nothing when no row matches |
| Repository.UpdateIdempotent | database/db_manager.py:128-142 | applying the same update twice equals applying it once |
| Repository.SearchCaseInsensitive | database/db_manager.py:171-173 | two search texts that LOWER makes equal (such as "Parquet" and "parquet") give the same product list |
| Repository.SearchIgnoresAsciiCase | database/db_manager.py:171-173 | lowering the search text does not change the product list |
| Repository.PartnerProductsIgnoreInn | database/db_manager.py:154-185 | every partner INN gives the same product list |
| Repository.DeletedProductGone | database/db_manager.py:248-259 | after a delete no product has the article, all others remain, and the table shrank iff one had it |
| RegisterScreen.Validate | ui/register_screen.py:169-206 | checks login given, login at least 3, password given, password at least 6, passwords equal and full name given, in that order; the first failure decides and all passing is success |
| RegisterScreen.EmailNeverChecked | ui/register_screen.py:171-174 | changing the e-mail never changes the validation result |
| RegisterScreen.RoleFor | ui/register_screen.py:217 | the role is "admin" iff the combo reads "Администратор", and always satisfies the Users role constraint |
| RegisterScreen.RegistrationFrom | ui/register_screen.py:210-226 | the store is called iff validation passes, with the stripped texts (login at least 3, password at least 6, full name non-empty) and a valid role |
| RegisterScreen.SubmitRegistration | ui/register_screen.py:208-233 | an invalid form changes nothing; a valid form with an existing login gets (False, "Пользователь с таким логином уже существует") and changes nothing; a valid form with a new login appends one active row with the next id, the stripped login, the digest of the stripped password, the chosen role, the stripped full name and e-mail, and that login then succeeds |
| AddPartnerScreen.Validate | ui/add_partner_screen.py:177-221 | checks name, director, INN given, INN digits only, INN length 10 or 12, phone, e-mail and address, in that order; the first failure decides |
| AddPartnerScreen.PartnerDataFrom | ui/add_partner_screen.py:151-160 | `partner_data` carries the combo text and the spin-box rating as they are and every text field stripped |
| AddPartnerScreen.ValidFormGivesWellFormedRow | ui/add_partner_screen.py:151-160 | a form that passes yields a row with a 10- or 12-digit INN, non-blank texts and a rating in 0..10 |
| AddPartnerScreen.MalformedInnRefused | ui/add_partner_screen.py:194-204 | an INN with a non-digit, or of a length other than 10 or 12, is always refused |
| AddPartnerScreen.ClearedForm | ui/add_partner_screen.py:223-231 | after clearing, the combo shows a listed type and the first check to fail is the name |
| AddPartnerScreen.SavePartnerAsWritten | ui/add_partner_screen.py:146-175 | as written: an invalid form is rejected with nothing stored; a valid form inserts the row but ends in the unexpected-error box |
| AddPartnerScreen.SavePartner | ui/add_partner_screen.py:146-172 | corrected: the result is success iff the form is valid; the row is then inserted and found by its INN |
| AddPartnerScreen.SampleFormPasses | ui/add_partner_screen.py:177-221 | a concrete form passes every check and yields the expected row |
| AddPartnerScreen.SampleSaveAsWritten | ui/add_partner_screen.py:162-175 | on that form the written code stores the partner yet shows the unpacking error |
| EditPartnerScreen.ClampRating | ui/edit_partner_screen.py:199 | a rating already in 0..10 is kept, and values outside the range go to the nearest bound |
| EditPartnerScreen.FillFields | ui/edit_partner_screen.py:178-199 | the combo moves to the stored type only when it is one of the listed types; each of the six text fields (name, director, phone, e-mail, address, INN) shows its stored text, or "" for NULL; a NULL rating becomes 0, and a stored rating is clamped to 0..10 as the spin box does, so an in-range rating appears unchanged |
| EditPartnerScreen.LoadPartner | ui/edit_partner_screen.py:162-176 | the form is produced iff a partner with that INN exists, and shows that INN |
| EditPartnerScreen.UpdatedData | ui/edit_partner_screen.py:207-215 | `updated_data` carries the combo text and the rating as they are and the five text fields stripped, and has no INN |
| EditPartnerScreen.Validate | ui/edit_partner_screen.py:227-254 | checks name, director, phone, e-mail and address, in that order, and never the INN |
| EditPartnerScreen.AddChecksImplyEditChecks | ui/edit_partner_screen.py:227-254 | every form the add-partner checks accept passes the edit checks |
| EditPartnerScreen.InnFieldIgnored | ui/edit_partner_screen.py:207-215 | the INN field changes neither validation nor the update sent |
| EditPartnerScreen.UnchangedFormKeepsRow | ui/edit_partner_screen.py:178-215 | loading a well-formed partner and saving without edits passes and writes back exactly the stored row |
| EditPartnerScreen.SavePartner | ui/edit_partner_screen.py:201-225 | an invalid form changes nothing; a valid form updates the rows with the INN the screen was opened for, and reports success iff such a row exists |
| AddProductScreen.DictOf | ui/add_product_screen.py:18-23 | a dictionary literal holds every key, and maps each key to the value of some pair with that key |
| AddProductScreen.DictOfLookup | ui/add_product_screen.py:18-23 | with distinct keys, each key maps to its own value |
| AddProductScreen.KnownTypeIds | ui/add_product_screen.py:18-23 | the four type IDs are "1" to "4", and the type names are distinct |
| AddProductScreen.ComboData | ui/add_product_screen.py:71-73 | the placeholder carries "" and the entries after it carry the type IDs in order |
| AddProductScreen.CurrentData | ui/add_product_screen.py:71-73 | the current data is empty iff the index is not one of the type entries, and is otherwise that type's ID |
| AddProductScreen.Validate | ui/add_product_screen.py:156-177 | checks name, type chosen, article and price greater than 0, in that order; the first failure decides |
| AddProductScreen.PlaceholderRefused | ui/add_product_screen.py:162-165 | with the placeholder selected the form fails, on the name or the type |
| AddProductScreen.ValidFormGivesWellFormedProduct | ui/add_product_screen.py:121-127 | a form that passes yields a non-blank name and article, one of the four type IDs, and a price in (0, 999999.99] |
| AddProductScreen.ClearedForm | ui/add_product_screen.py:149-154 | after clearing, no type is selected and the first check to fail is the name |
| AddProductScreen.ProductDataFrom | ui/add_product_screen.py:121-127 | `product_data` carries the stripped name and article, the combo's current data as the type ID ("" or one of the four IDs) and the price as it is |
| AddProductScreen.SaveProduct | ui/add_product_screen.py:116-133 | the product is handed over iff the form is valid, with the stripped name and article, the current type ID (a chosen one), the form's positive price and the screen's partner INN |
| EditProductScreen.Inverse | ui/edit_product_screen.py:27 | the inverted dictionary holds every value, and maps each one to the key of a pair carrying it |
| EditProductScreen.InverseRoundTrip | ui/edit_product_screen.py:27 | with distinct values, each value maps back to its own key |
| EditProductScreen.InverseUndoesDict | ui/edit_product_screen.py:19-27 | with distinct keys and values, the inverse undoes the dictionary and the dictionary undoes the inverse |
| EditProductScreen.IdToTypeRoundTrip | ui/edit_product_screen.py:19-27 | `id_to_type` is the exact inverse of `product_types`: name to ID to name and ID to name to ID both round-trip |
| EditProductScreen.SelectedIndex | ui/edit_product_screen.py:148-152 | picks the first entry whose data equals the type ID, and keeps the current index when none does |
| EditProductScreen.SelectTypeIndex | ui/edit_product_screen.py:148-152 | the loop with its early exit computes that index |
| EditProductScreen.LoadProductData | ui/edit_product_screen.py:133-162 | the loaded form carries the stored name and article, the selected type entry and the price |
| EditProductScreen.LoadedTypeRoundTrip | ui/edit_product_screen.py:144-152 | a stored type ID that is one of the four is shown as the current type, and any other ID leaves the placeholder |
| EditProductScreen.LoadedFormPasses | ui/edit_product_screen.py:202-224 | saving a loaded product unedited passes iff its name and article are non-blank, its type ID is one of the four and its price is positive |
| EditProductScreen.SaveProduct | ui/edit_product_screen.py:170-191 | the update is sent iff the form is valid, keyed by the article the screen was opened with, carrying the stripped new name and article, the current type ID (a chosen one) and the form's positive price |
| AddSaleScreen.Entries | ui/add_sale_screen.py:136-149 | one combo entry per product, carrying that product |
| AddSaleScreen.LoadPartnerProducts | ui/add_sale_screen.py:121-149 | the loop builds the placeholder plus one entry per product, or the "no products" entry with saving disabled |
| AddSaleScreen.EveryProductSelectable | ui/add_sale_screen.py:143-149 | picking entry i+1 selects product i |
| AddSaleScreen.Validate | ui/add_sale_screen.py:212-236 | checks product chosen, product ID present, quantity greater than 0 and price greater than 0, in that order; the first failure decides |
| AddSaleScreen.EmptyListBlocksSaving | ui/add_sale_screen.py:128-134 | with no products, every selection fails on "Выберите продукцию" |
| AddSaleScreen.SpinRangesPassLastChecks | ui/add_sale_screen.py:227-235 | within the spin-box ranges the quantity and price checks never fail |
| AddSaleScreen.SaveSale | ui/add_sale_screen.py:179-196 | the sale is sent iff the form is valid and the partner ID is found; it carries the selected product's ID, that partner ID and the quantity |
| EditSaleScreen.SelectedIndex | ui/edit_sale_screen.py:155-167 | the index is one past the last product whose ID equals a truthy current ID, and 0 when none matches; it is always in 0..len(products) |
| EditSaleScreen.LoadPartnerProducts | ui/edit_sale_screen.py:144-171 | the loop builds the combo and selects that index when a sale is loaded |
| EditSaleScreen.LoadedSelection | ui/edit_sale_screen.py:155-169 | when the sale's product is listed the combo shows it, and when it is not the placeholder stays |
| EditSaleScreen.Validate | ui/edit_sale_screen.py:245-269 | checks index greater than 0, product data present, product ID present, quantity greater than 0 and price greater than 0, in that order |
| EditSaleScreen.SameAcceptanceAsAddSale | ui/edit_sale_screen.py:245-269 | the edit checks accept exactly the forms the add-sale checks accept |
| EditSaleScreen.SaveSale | ui/edit_sale_screen.py:217-231 | the update is sent iff the form is valid and the partner ID is found; it keeps the SaleID and carries the selected product and the quantity |
| EditSaleScreen.ReopenedSaleKeepsProduct | ui/edit_sale_screen.py:166-169 | reopening a sale whose product is listed and saving at once sends the same product back |

## Left out

- Widgets, layouts, signals, message boxes, styles and the window switching of the main window
  and the application entry point are not modelled. Only the decisions behind them are, with
  each warning represented by the check that raised it.
- SQLite connections, commits and the `except` branches that turn a failing statement into
  `False`, `None` or `[]` are not modelled. Every statement is taken to succeed, except the
  Users role CHECK, which the model does enforce.
- The schema's CreatedDate clock value, and therefore `get_all_users` (ordered by CreatedDate),
  are not modelled.
- The text after "Ошибка регистрации: " in the refused-role reply of `register_user` is
  SQLite's own message for a failed CHECK. It depends on the SQLite library version, and the
  model fixes the wording of current versions (`AuthStore.MsgRoleRefused`).
- The hex SHA-256 digest is an arbitrary function. Every property holds whatever the digest
  is, so none relies on collision resistance.
- `get_partner_products_by_inn` depends on which tables the database happens to contain
  (a `sqlite_master` query), so it is not modelled.
- The database calls the screens make but the repository does not define are taken as
  parameters or as the request values the screens build:
  - `add_product_with_partner_id`, `update_product`, `add_sale` and `update_sale`;
  - `get_sale_by_id`, `get_partner_id_by_inn` and `get_partner_products_for_sale`;
  - `get_product_by_article` (ui/partner_products_screen.py:244), whose result is the stored
    product that `EditProductScreen.LoadProductData` takes as its argument.
- Prices are modelled as whole kopecks. Parsing a minimum-price text into a float, the price
  pre-fill on product change (`on_product_changed`), the total-sum label and the
  `fill_form_with_current_data` price/quantity fill of the sale editor are left out.
- Repository.PartnerProducts: `%` and `_` typed into the search text are matched literally,
  not as LIKE wildcards.
- Common.AllDigits: only ASCII digits count. Python's `isdigit()` also accepts other Unicode
  digits.
- Repository.PartnerData: the Rating column is REAL in the schema and is modelled as a whole
  number, matching the integer spin boxes. The repository's columns are modelled as non-NULL,
  while the edit-partner form models NULL columns.
- EditPartnerScreen.FillFields: the REAL Rating column comes back from SQLite as a float.
  Under Python 3.10 and later, PyQt5's `QSpinBox.setValue` refuses a float with a TypeError
  (ui/edit_partner_screen.py:199). The load then ends in "Не удалось загрузить данные
  партнера" and the window closes (ui/edit_partner_screen.py:173-175). The model reads the
  rating as a whole number, so it does not capture this failure.
- EditSaleScreen.Message: the "ID продукта не найден" warning also prints the entry's data
  dictionary. The model keeps only the fixed prefix.
- Repository.AllPartners: rows with equal names may come back in any order; the model promises
  only sortedness and the same rows.

## Findings

| source | as written | input that shows it | evidently intended | confidence | as-written member | corrected member |
|---|---|---|---|---|---|---|
| ui/add_partner_screen.py:162 | `save_partner` unpacks `success, message = add_partner(...)`, but `add_partner` returns a single bool (database/db_manager.py:74), so the unpacking raises after the row was inserted and committed, and the screen shows "Непредвиденная ошибка: cannot unpack non-iterable bool object" and stays open | the valid form `AddPartnerScreen.SampleForm` (type ООО, INN 1234567890) | on success, show the information box, emit `partner_added` and close; on failure, warn | high, not executed | AddPartnerScreen.SavePartnerAsWritten | AddPartnerScreen.SavePartner |
