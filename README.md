# Bookstore backend: carts, checkout, payments, accounts and the vendor catalog

A Dafny model of the core of a Django REST bookstore: the customer and guest carts, the three
checkouts (account, guest, payment-provider session), the payment webhook, the account flows
(registration, vendor registration with a company access code, login, the address book with its
single default address, forgotten and reset passwords) and the product side (the public catalog
filters, the price and stock validators, the vendor permissions and the vendor product editing
endpoints).

The database is one object, `Store.Database`, with one field per table. Products, orders, vendor
companies and guest delivery addresses are maps keyed by primary key. Cart lines, order items,
accounts, addresses, reset tokens and payments are sequences of rows in table order. `Database.Valid()`
collects the schema's integrity rules: unique keys, the unique (cart, product, format) triple of cart
lines, at most one default address per user, one payment per order with a unique session id, and the
foreign keys. Every view is a method on that database. Its `ensures` gives the reply and the exact new
contents of every table it may write, in terms of functions that state the rules. Lemmas prove what
those rules promise:

- a cart's totals;
- a repeated add merges into the existing line;
- a failed request changes nothing;
- the order total equals the sum of the item snapshots;
- how stock is decremented;
- at most one live reset token, and a token works only once;
- a vendor can edit only the whitelisted fields of their own company's products.

Modelling conventions:
- Money is integer grosze.
- Time is a whole number of seconds, given as a parameter.
- Strings are `seq<char>`, and the regex classes `\d` and `\s` are taken over ASCII.
- The payment provider, the URL syntax check, the session-key generator and the new token's UUID are
  parameters. The provider's answer is `ProviderOutcome`, and a webhook event after signature
  verification is `Construct`.
- Error messages are reduced to status codes and a reason kind (`Http.Reply`).

## Model

| member | source | states |
|---|---|---|
| Http.Code | cart/views.py:69-72 | every reply maps to an HTTP status in 200..599, and to a 2xx code exactly for 200, 201 and 204 |
| ProductModels.GenreCode | products/models.py:10-18 | each of the seven genres has a non-empty stored code |
| ProductModels.GenreCodeInjective | products/models.py:10-18 | distinct genres have distinct codes, so a code names at most one genre |
| ProductModels.FormatCode | products/models.py:20-24 | each of the three formats has a non-empty stored code |
| ProductModels.FormatCodeInjective | products/models.py:20-24 | distinct formats have distinct codes |
| ProductModels.NewProduct | products/models.py:26-39 | a new product gets the field defaults: genre fantasy, format paperback, stock 0, no company, isbn or image |
| Permissions.IsVendor | products/permissions.py:8-9 | holds exactly for an authenticated user whose role is vendor; an anonymous request never passes |
| Permissions.IsVendorOwner | products/permissions.py:16-20 | holds exactly when the user has a company and it is the product's company; a user without a company or a product without one never matches |
| Permissions.OwnershipIsExclusive | products/permissions.py:16-20 | two users who both own a product belong to the same company |
| ProductSerializers.ValidatePrice | products/serializers.py:17-23 | a price passes exactly when it is positive, and it is returned unchanged |
| ProductSerializers.ValidateStock | products/serializers.py:25-31 | a stock passes exactly when it is non-negative (0 included), and it is returned unchanged |
| ProductViews.ProductList | products/views.py:16-27 | the list holds exactly the catalog products matching the genre filter and the format filter when given (a conjunction) |
| ProductViews.UnfilteredListIsCatalog | products/views.py:17-27 | with no non-empty parameter the list is the whole catalog in order |
| ProductViews.UnknownGenreListsNothing | products/views.py:21-22 | a genre parameter that names no genre lists nothing |
| ProductViews.BookList | products/views.py:38-45 | the book list holds exactly the paperback and both-format products, narrowed by genre when given |
| ProductViews.EbookList | products/views.py:56-63 | the ebook list holds exactly the ebook and both-format products, narrowed by genre when given |
| ProductViews.FormatListsPartition | products/views.py:39-43 | a both-format product is in both lists, any other product in exactly one, and the book list agrees with the format filter for paperback or both |
| VendorSerializers.Name | products/vendor_serializers.py:13-17 | every serializer field has a non-empty request key |
| VendorSerializers.AsText | products/vendor_serializers.py:13-17 | a CharField reads any non-null JSON value as text, and null as missing |
| VendorSerializers.CleanChar | products/vendor_serializers.py:13-17 | a CharField value passes null only when allowed, a blank one only when blank is allowed (as ""), and otherwise its stripped text within max_length and the field's validator |
| VendorSerializers.CleanInt | products/vendor_serializers.py:13-17 | an IntegerField passes an integer unchanged, a string of at most 1000 characters that parses as an integer, and null only when nullable |
| VendorSerializers.GenreOf | products/models.py:10-18 | a genre code is parsed to exactly the genre that has it |
| VendorSerializers.FormatOf | products/models.py:20-24 | a format code is parsed to exactly the format that has it |
| VendorSerializers.CleanField | products/vendor_serializers.py:13-18 | each writable column cleans its value as its field class and model options say: exact choice codes for genre and format, a required text for description, a non-null integer for stock, nullable integers, a 500-character URL, a 255-character publisher and a 13-character isbn no other product holds |
| VendorSerializers.FieldErrors | products/vendor_serializers.py:13-18 | the failing writable fields are exactly those given with a refused value plus, on a full update, a missing description; unknown and read-only keys are ignored |
| VendorSerializers.CleanedAttrs | products/vendor_serializers.py:13-18 | the validated attrs hold exactly the given writable fields, each with its cleaned value |
| VendorSerializers.FirstChanged | products/vendor_serializers.py:27-31 | finds the first field in order whose given value differs from the stored one, or reports that none does |
| VendorSerializers.Validate | products/vendor_serializers.py:20-32 | with no instance the attrs pass; on an update they pass unchanged exactly when title, author and price are absent or equal to the stored values; otherwise the error names the first changed one in title, author, price order |
| VendorSerializers.ProtectedCheckUnreachable | products/vendor_serializers.py:18-31 | because title, author and price are read-only, cleaned attrs never reach the protected-field refusal |
| VendorSerializers.RunValidation | products/vendor_serializers.py:13-32 | is_valid: field errors are reported exactly when some writable field fails, and success yields the cleaned attrs |
| VendorSerializers.RunValidationOnlyFieldProblems | products/vendor_serializers.py:13-32 | validation succeeds exactly when no writable field fails |
| VendorSerializers.Apply | products/vendor_serializers.py:5-18 | save() on an update writes each given writable field's cleaned value (null as none) and keeps every other column, including company, title, author and price |
| VendorSerializers.CleanedAttrsSaveable | products/vendor_serializers.py:13-18 | cleaned attrs only hold writable fields with cleaned values |
| VendorSerializers.ApplyStoresAttrs | products/vendor_serializers.py:13-18 | after save every given field reads back as the value the attrs gave it |
| VendorViews.Admit | products/vendor_views.py:19 | the permission classes pass exactly a vendor; an anonymous request is 401 and a non-vendor 403 |
| VendorViews.Scope | products/vendor_views.py:21-26 | the vendor queryset holds exactly the products of the user's company, unchanged, and is empty for a user without a company |
| VendorViews.ScopesDisjoint | products/vendor_views.py:38-43 | users of different companies see disjoint product sets |
| VendorViews.ListProducts | products/vendor_views.py:13-26 | the list is 200 with the vendor's scoped products exactly for a vendor, and otherwise the permission refusal with nothing listed |
| VendorViews.Retrieve | products/vendor_views.py:29-43 | a product is retrieved exactly by a vendor of its company; for other vendors it is 404, otherwise the permission refusal |
| VendorViews.AllowedOnly | products/vendor_views.py:66 | the filtered request keeps exactly the allowed keys, with their values |
| VendorViews.TakenIsbns | products/models.py:37 | the isbns taken are exactly those of the other products |
| VendorViews.Guard | products/vendor_views.py:36-63 | before any validation a PATCH is refused by permission, with 404 outside the vendor's scope, and with 403 when any key lies outside the four allowed ones; it passes exactly for the owner sending allowed keys only |
| VendorViews.SaveProduct | products/vendor_views.py:68-70 | the serializer saves exactly when no writable field fails |
| VendorViews.SavedProduct | products/vendor_views.py:68-70 | a saved product is the stored one with the cleaned attrs applied |
| VendorViews.Edit | products/vendor_views.py:45-72 | an edit that is not 200 leaves the products unchanged; a refusal of the guard is returned as is; after the guard, the reply is 200 exactly when no field fails and 400 otherwise |
| VendorViews.EditSaves | products/vendor_views.py:45-72 | a 200 edit passed the guard and replaced exactly that product by its saved version |
| VendorViews.EditKeepsKeys | products/vendor_views.py:45-72 | no edit adds or removes a product |
| VendorViews.AllowedKeysNameEditableFields | products/vendor_views.py:52 | the allowed keys name exactly description, image_url, page_count and publication_year |
| VendorViews.SaveTouchesOnlyAllowed | products/vendor_views.py:52-70 | a save from allowed keys only changes description, image url, page count and publication year |
| VendorViews.ApplyEditable | products/vendor_views.py:52-70 | applying attrs of the four editable fields changes no other column |
| VendorViews.SaveStoresCleanedValues | products/vendor_views.py:68-70 | every given writable field reads back as its cleaned value after the save |
| VendorViews.EditTouchesOnlyAllowed | products/vendor_views.py:45-72 | a 200 edit changes only the addressed product, only in the four editable columns, and each given field reads back as its cleaned value |
| VendorViews.EditApplies | products/vendor_views.py:45-72 | an edit that passes the guard and saves returns 200 with exactly that product replaced |
| VendorViews.EmptyPatchChangesNothing | products/vendor_views.py:45-72 | the owner's empty PATCH is 200 and changes nothing |
| VendorViews.SaveNothing | products/vendor_views.py:68-70 | a partial save with no data leaves the product as it was |
| VendorViews.PutAsWritten | products/vendor_views.py:29-43 | PUT as the code stands: permission, scope and field checks, but no key whitelist; title and price still cannot change |
| VendorViews.PutAsWrittenApplies | products/vendor_views.py:29-43 | the owner's PUT that saves replaces the product by its saved version |
| VendorViews.PutAsWrittenEditsStock | products/vendor_views.py:29-72 | concrete case: a PUT with description and stock -5 sets the stock to -5 as written, while the whitelisted edit refuses it with 403 |
| VendorViews.StockRequestSaves | products/vendor_views.py:29-43 | the example request saves and sets the stock to -5 |
| VendorViews.StockRequestClean | products/vendor_serializers.py:13-18 | every field of the example request is valid |
| VendorViews.Analytics | products/vendor_views.py:75-102 | analytics refuses by permission, is 400 exactly for a vendor without a company, answers "no products" exactly for an empty scope, and otherwise counts the scoped products |
| VendorViews.InStock | products/vendor_views.py:181 | the in-stock products are exactly the scoped ones with stock above 0 |
| VendorViews.OutOfStock | products/vendor_views.py:182 | the out-of-stock products are exactly the scoped ones with stock 0 |
| VendorViews.Dashboard | products/vendor_views.py:164-182 | the dashboard refuses by permission, is 400 exactly for a vendor without a company, and otherwise reports the scope's size and its in-stock and out-of-stock counts |
| VendorViews.StockCountsPartition | products/vendor_views.py:180-182 | with no negative stock the two counts add up to the total |
| VendorViews.NegativeStockUncounted | products/vendor_views.py:180-182 | a product with negative stock is in neither count, so they fall short of the total |
| VendorViews.Patch | products/vendor_views.py:45-72 | PATCH writes the products table exactly as the partial edit decides and keeps the database valid |
| VendorViews.Put | products/vendor_views.py:29-72 | PUT, with the whitelist applied, writes exactly what the full edit decides and keeps the database valid |
| UserModels.VerifyAccessCode | users/models.py:26-28 | the access code is accepted exactly when it equals the company's code |
| UserModels.CreateUser | users/models.py:35-47 | an empty e-mail is refused; otherwise the user has the normalized e-mail, the given password, and the role given or `user` by default |
| UserModels.CreateSuperuser | users/models.py:49-62 | the staff and superuser flags default to true and an explicit false for either is refused in that order; the role defaults to admin; otherwise it is create_user |
| UserModels.ClearOtherDefaults | users/models.py:121-126 | the bulk update clears the default flag of every other address of the same user and leaves everything else unchanged |
| UserModels.SaveToken | users/models.py:149-155 | saving sets the expiry to now plus one hour only when it is unset |
| UserModels.IssuedTokenLifetime | users/models.py:149-161 | a freshly saved token is valid at a later time exactly when less than an hour has passed |
| UserModels.MarkAsUsed | users/models.py:163-169 | marking records the use and time, after which the token is invalid at every time |
| UserSerializers.Required | users/serializers.py:23-27 | a required CharField passes exactly a non-blank value, stripped |
| UserSerializers.CleanPassword | users/serializers.py:115 | a password passes exactly when it is at least 8 characters after stripping |
| UserSerializers.FindEmail | users/serializers.py:48 | finds an account with that e-mail exactly when one exists |
| UserSerializers.RegistrationFlags | users/serializers.py:111-128 | the field error set names exactly the failing fields |
| UserSerializers.ValidateRegistration | users/serializers.py:111-128 | registration passes exactly for a present unused e-mail, a password of at least 8 and a matching confirmation; a taken e-mail is a field error, and a mismatch is reported only when every field passed |
| UserSerializers.NewCustomer | users/serializers.py:130-139 | the new account has the given e-mail and password, role user, no company, and is active and not staff |
| UserSerializers.VendorFlags | users/serializers.py:19-27 | the vendor field error set names exactly the failing fields |
| UserSerializers.ValidateVendor | users/serializers.py:19-52 | vendor registration passes exactly when the fields pass, the passwords match, the company exists and is active, the access code is its code and the e-mail is unused; each refusal implies the earlier checks passed |
| UserSerializers.NewVendor | users/serializers.py:54-73 | the vendor account has role vendor and the verified company |
| UserSerializers.WrongCodeNeverRegisters | users/serializers.py:43-45 | a wrong access code for an active company never registers |
| UserSerializers.CleanRecipientName | users/serializers.py:182-190 | a recipient name passes exactly when 2 to 200 characters after stripping, and is stored stripped |
| UserSerializers.RecipientNameChecksAgree | users/serializers.py:182-190 | the address book's recipient-name rule agrees with the guest checkout's |
| UserSerializers.ValidateAddress | users/serializers.py:170-231 | the address serializer accepts and stores exactly what the guest delivery-address serializer does |
| UserSerializers.CleanProfilePhone | users/serializers.py:154-167 | the profile phone accepts a blank value, and otherwise a phone-character string of at most 20 that keeps 9 to 15 characters once spaces, dashes and plus signs are removed (validate_phone as written) |
| UserSerializers.NormalizeResetEmail | users/serializers.py:238-244 | a non-blank e-mail is stored lower-cased and stripped |
| UserSerializers.NormalizeResetEmailIdempotent | users/serializers.py:240-244 | normalizing twice is the same as once |
| UserSerializers.ResetFlags | users/serializers.py:251-253 | the reset field error set names exactly the failing fields |
| UserSerializers.FindToken | users/serializers.py:265 | finds the token with that key, or reports that none has it |
| UserSerializers.ValidateReset | users/serializers.py:247-284 | a reset passes exactly for a given token, a password of at least 8 with a matching confirmation and a known valid token; a used token is refused as used and an unused invalid one as expired |
| UserViews.Authenticate | users/views.py:99 | a user is authenticated only by an active account with that e-mail and password; with unique e-mails, failure means no such account |
| UserViews.Login | users/views.py:89-114 | a missing e-mail or password is exactly the 400; a login succeeds only for matching active credentials, and is 401 exactly when none match |
| UserViews.NewAccountLogin | users/views.py:89-114 | a newly added account logs in with its own password and no other |
| UserViews.RegisteredCustomerCanLogIn | users/views.py:60-114 | a registered customer can log in with the e-mail and password the registration stored |
| UserViews.PaddedPasswordNeverLogsIn | users/views.py:60-114 | a password registered with surrounding white space cannot log in as typed, because registration stored it stripped |
| UserViews.NewUserKeepsUsers | users/models.py:75 | appending an account with a fresh id and unused e-mail keeps the user and token tables valid |
| UserViews.AddAccount | users/serializers.py:130-139 | an account insert appends the row and advances the key |
| UserViews.Register | users/views.py:60-80 | a refused registration is 400 and writes nothing; an accepted one is 201 and appends exactly the new customer |
| UserViews.VendorRegister | users/views.py:31-57 | a refused vendor registration is 400 and writes nothing; an accepted one is 201 and appends exactly the new vendor |
| UserViews.OwnAddresses | users/views.py:150-151 | the address list holds exactly the requesting user's addresses |
| UserViews.FindOwnAddress | users/views.py:167-169 | finds the address with that id among the user's own, or reports that none is |
| UserViews.SaveAddress | users/models.py:121-127 | Address.save stores the row; for a default address every other default of the same user loses its flag, and every other field and row is unchanged |
| UserViews.SaveKeepsAddresses | users/models.py:121-127 | saving an address keeps keys unique and at most one default per user |
| UserViews.NewAddress | users/views.py:153-154 | the new address belongs to the requesting user with the given default flag |
| UserViews.InsertAddress | users/models.py:121-127 | an insert saves the address and advances the key |
| UserViews.CreateAddress | users/views.py:141-154 | an invalid address is 400 and writes nothing; a valid one is 201 and saved for the requesting user |
| UserViews.PatchText | users/serializers.py:217-231 | a partial update keeps an absent field and validates a given one with the field's rule |
| UserViews.PatchName | users/serializers.py:182-190 | as PatchText for the recipient name |
| UserViews.PatchPostal | users/serializers.py:192-203 | a given postal code must validate, and what is stored is that code's cleaned form: the same five digits, with a dash |
| UserViews.PatchCountry | users/models.py:107 | a given country must be a non-blank text of at most 100 |
| UserViews.PatchPhone | users/serializers.py:205-215 | a given phone must pass validate_phone as written (phone characters, 9 to 15 characters left after removing spaces, dashes and plus signs) and is stored stripped |
| UserViews.PatchErrors | users/views.py:157-169 | the failing fields of a partial update are exactly the given ones whose rule refuses them |
| UserViews.Patched | users/views.py:157-169 | a partial update fails exactly with those field errors, and never changes id or owner |
| UserViews.PatchedNames | users/views.py:157-169 | a successful update takes each given name, street and city stripped and keeps the absent ones |
| UserViews.PatchedContact | users/views.py:157-169 | a successful update takes each given country, phone and default flag, and stores a given postal code as that code's cleaned form (its own five digits, dashed), keeping the absent ones |
| UserViews.EmptyPatchKeepsAddress | users/views.py:157-169 | an empty partial update leaves the address as it was |
| UserViews.FullPatch | users/serializers.py:170-180 | a full update gives every field |
| UserViews.FullPatchErrors | users/serializers.py:170-231 | a full update fails on exactly the fields creation would fail on |
| UserViews.FullPatchIsCreation | users/serializers.py:170-231 | a full update succeeds exactly when creation would, with the address creation would store |
| UserViews.UpdateAddress | users/views.py:157-169 | another user's or a missing address is 404; an invalid update is 400 and writes nothing; a valid one is 200 and saved through Address.save |
| UserViews.RemoveKeepsAddresses | users/views.py:157-169 | deleting an address keeps the address table valid |
| UserViews.DeleteAddress | users/views.py:157-169 | another user's or a missing address is 404; otherwise exactly that row is deleted (204) |
| UserViews.DeletedDefaultLeavesNone | users/views.py:157-169 | deleting the default address leaves its user with no default |
| UserViews.SetDefault | users/views.py:179-196 | another user's or a missing address is 404; otherwise it is saved as default, which clears the user's other defaults (200) |
| UserViews.SetDefaultIsUsedAtCheckout | orders/views.py:50 | after set-default, that address is the one the checkout picks |
| UserViews.ResetAccount | users/views.py:210-217 | the forgot-password lookup, when it finds an account, finds one of the table's rows |
| UserViews.ResetAccountFinds | users/views.py:210-217 | a found account has exactly the normalized e-mail, and no account is found only when no account has it |
| UserViews.MixedCaseAccountNeverReset | users/views.py:210-217 | an account whose stored e-mail has an upper-case letter can never be found, since the request is lower-cased |
| UserViews.Invalidated | users/views.py:220 | every token of the user becomes used and nothing else changes |
| UserViews.Issued | users/models.py:149-155 | a new token is unused and expires an hour after issue |
| UserViews.ForgotLeavesOneLiveToken | users/views.py:220-223 | afterwards the new token is the user's only unused one, and it is valid within the hour |
| UserViews.InvalidatedKeepsTokens | users/views.py:220 | invalidating keeps the token table valid |
| UserViews.ForgotPassword | users/views.py:206-234 | a blank e-mail is 400; an unknown one is 200 with no change; for a known account its tokens are invalidated and one new token is issued (200), or, when the new key collides, the invalidation stays and the reply is 500 |
| UserViews.ForgotFor | users/views.py:216-234 | the same flow once the account lookup is done |
| UserViews.RenewToken | users/views.py:220-223 | invalidation followed by issue, with the unique-key refusal |
| UserViews.IssueKeepsTokens | users/models.py:130-139 | a token with a fresh key for an existing user keeps the token table valid |
| UserViews.SetPassword | users/views.py:290-292 | exactly the token's user gets the new password |
| UserViews.ResetKeepsTables | users/views.py:290-295 | setting the password and marking the token keep the user and token tables valid |
| UserViews.ResetPassword | users/views.py:281-306 | a refused reset is 400 and writes nothing; an accepted one sets the password of the token's user and marks the token used (200) |
| UserViews.ApplyReset | users/views.py:290-295 | the two writes of a reset |
| UserViews.ResetIsOneShot | users/serializers.py:263-274 | after a reset the same token is refused at every later time |
| AddressValidators.CharInput | users/serializers.py:23-27 | a CharField passes exactly a non-blank stripped value within max_length, blank being its own error |
| AddressValidators.CharInputIsStable | users/serializers.py:23-27 | a cleaned value cleans to itself |
| AddressValidators.ValidateTrimmed | orders/serializers.py:116-126 | a value passes exactly when at least the minimum after stripping, and is returned stripped |
| AddressValidators.TrimmedIsStable | orders/serializers.py:116-126 | a trimmed value validates to itself |
| AddressValidators.ValidateRecipientName | users/serializers.py:182-190 | the recipient name passes exactly when at least 2 after stripping and at most 200 unstripped, returned stripped, with too-short checked first |
| AddressValidators.PostalCleaned | orders/serializers.py:96-98 | the cleaned postal code has no space and no dash |
| AddressValidators.ValidatePostalCode | orders/serializers.py:96-104 | empty passes; otherwise the cleaned value must be five digits; a value with a dash is kept, one without is rewritten with a dash, and both clean back to the same digits |
| AddressValidators.Dashed | orders/serializers.py:102-103 | the rewritten code has a dash, one more character, and the same cleaned digits |
| AddressValidators.PostalCodeIdempotent | users/serializers.py:192-203 | validating a validated postal code gives it back |
| AddressValidators.PostalCodeOfFiveDigits | orders/serializers.py:102-103 | five digits come back as two digits, a dash and the other three |
| AddressValidators.PhoneCleaned | orders/serializers.py:109 | the cleaned phone keeps exactly the characters other than space, dash and plus |
| AddressValidators.PhoneAsWritten | orders/serializers.py:106-114 | the phone check as written, which every serializer in the model uses: the allowed-characters pattern and 9 to 15 characters left after removing space, dash and plus |
| AddressValidators.PhoneAsWrittenBoundsDigits | orders/serializers.py:109-113 | a phone the check as written accepts has at most 15 digits |
| AddressValidators.PhoneAsWrittenAcceptsFiveDigits | users/serializers.py:205-215 | concrete case: five digits separated by tabs pass the check as written |
| AddressValidators.ValidatePhone | orders/serializers.py:106-114 | the phone check as intended: empty passes; otherwise the allowed characters and 9 to 15 digits |
| AddressValidators.ValidatePhoneRefusesFiveDigits | orders/serializers.py:106-114 | the same five tab-separated digits are refused for their digit count |
| AddressValidators.PhoneChecksAgree | users/serializers.py:154-167 | when the only white space is the plain space, the check as written and as intended agree |
| CartModels.LinesOf | cart/models.py:23-30 | a cart's lines are a sub-table of the line table |
| CartModels.LinesOfMembers | cart/models.py:42 | a cart's lines are exactly the table rows that belong to it |
| CartModels.TotalItems | cart/models.py:27-30 | an empty cart has 0 items |
| CartModels.LineWithinTotal | cart/models.py:27-30 | no line holds more items than the whole cart |
| CartModels.TotalItemsAppend | cart/models.py:27-30 | total_items of two tables together is the sum of their totals |
| CartModels.TotalPriceAppend | cart/models.py:22-25 | total_price of two tables together is the sum of their totals |
| CartModels.TotalPriceFollowsCatalog | cart/models.py:57-60 | a cart's total follows the live price: repricing a product shifts it by the price change times that product's quantity |
| CartModels.Only | cart/models.py:57-60 | a product's lines are exactly the lines of that product |
| CartModels.LinesOfAppend | cart/models.py:42 | a cart's lines of two tables are its lines of each, in order |
| CartModels.LinesOfAround | cart/models.py:42 | a cart's lines split around any row |
| CartModels.RemoveAt | cart/views.py:98-100 | deleting a row removes one line and adds none |
| CartModels.LinesOfSingle | cart/models.py:42-44 | a one-row table belongs to its own cart only, and totals its quantity |
| CartModels.RemoveAtCounts | cart/views.py:98-100 | deleting a cart's line lowers its item count by that line's quantity and leaves every other cart as it was |
| CartModels.ReplaceAtCounts | cart/guest_views.py:167-168 | replacing a line's quantity changes its cart's item count by the difference and no other cart |
| CartModels.DropCart | cart/guest_views.py:231 | clearing a cart keeps exactly the lines of the other carts |
| CartModels.DropCartEmpties | cart/guest_views.py:231 | after clearing, the cart has no lines |
| CartModels.DropCartKeepsOthers | cart/guest_views.py:231 | clearing one cart leaves every other cart's lines unchanged |
| CartModels.DropCartIdempotent | cart/guest_views.py:220-242 | clearing twice is clearing once |
| CartModels.DropCartDistinct | cart/models.py:51 | clearing keeps the line keys unique |
| CartModels.RemoveAtDistinct | cart/models.py:51 | deleting a line keeps the line keys unique |
| Store.NewDeliveryKeepsOrders | orders/models.py:56 | recording an existing order's delivery address keeps the order tables valid |
| Store.DeleteOrderKeepsOrders | payments/views.py:125 | deleting an order without address or payment, with its items, keeps the order tables valid |
| Store.NewPaymentKeepsOrders | payments/models.py:17-18 | a payment for an unpaid-for user order with a fresh session id keeps one payment per order and unique session ids |
| Store.NewOrderKeepsOrders | orders/views.py:53-58 | a new order under the next key keeps the order tables valid |
| Store.NewItemsKeepOrders | orders/models.py:81-82 | items that refer to existing orders and products keep the order tables valid |
| Store.SameCatalogKeys | orders/models.py:82 | changing product rows without adding or removing products keeps the cart and order tables valid |
| Store.CartProductsExist | cart/models.py:43 | every line of a stored cart names a listed product |
| Store.DropCartKeepsTable | cart/models.py:51 | clearing a cart keeps the line table valid |
| Store.Database.constructor | cart/models.py:7-119 | an empty store over a given catalog and company table is valid |
| CartSerializers.ValidateQuantity | cart/serializers.py:19-25 | a quantity passes exactly when positive, unchanged |
| CartSerializers.ValidateLine | cart/serializers.py:27-65 | without a product the attrs pass unchanged; with one, a both-format product needs paperback or ebook, a single-format product refuses any other choice and stores its own format, a non-zero quantity must not exceed the stock, and only the format may change |
| CartSerializers.ValidateLineIdempotent | cart/serializers.py:27-65 | validated attrs validate to themselves |
| CartSerializers.ParseChoice | cart/serializers.py:89 | the format choice accepts exactly paperback and ebook |
| CartSerializers.ValidateAdd | cart/serializers.py:83-98 | an add request passes exactly with a product id, a quantity of at least 1 and an absent, null or valid format choice, which it keeps |
| CartViews.FindKey | cart/views.py:51-56 | finds the line with a (cart, product, format) key, or reports that none has it |
| CartViews.FindKeyUnique | cart/models.py:51 | with unique keys, a line's key finds that line |
| CartViews.StoredFormat | cart/views.py:32-41 | a single-format product always gets its own format; a both-format product keeps the choice |
| CartViews.AddLine | cart/views.py:29-72 | an unknown product is 404; a both-format product without a choice is 400; a quantity above stock is 400; a refused add changes no line |
| CartViews.AppendedLine | cart/views.py:51-56 | appending a line raises its cart's item count by its quantity and leaves other carts alone |
| CartViews.AddLineEffect | cart/views.py:51-67 | a successful add leaves a line for the key within stock, raises the cart's item count by exactly the requested quantity, and touches no other cart |
| CartViews.AddAppends | cart/views.py:51-56 | the same for a new key, which is appended |
| CartViews.AddGrows | cart/views.py:58-67 | the same for an existing key, whose line grows |
| CartViews.GrownLine | cart/views.py:60-66 | growing a line raises its cart's count by the added quantity only |
| CartViews.GrownKeys | cart/views.py:60-66 | growing a line changes no key |
| CartViews.AddLineKeepsTable | cart/models.py:51 | an add keeps line keys unique and every line valid |
| CartViews.SerializerAndViewAgree | cart/serializers.py:27-65 | the line serializer and the add view accept the same adds and store the same format |
| CartViews.AddToCart | cart/views.py:17-72 | an invalid request is 400 and writes nothing; otherwise the user's cart exists afterwards and the line table is what AddLine decides |
| CartViews.StoreAdd | cart/views.py:51-67 | the add's write keeps the database valid |
| CartViews.ViewCart | cart/views.py:81-84 | the user's cart exists afterwards and its lines, all of listed products, are returned |
| CartViews.FindLineIn | cart/views.py:94-99 | finds the line with that id in the given cart, or reports that none is |
| CartViews.RemoveFromCart | cart/views.py:87-104 | a line not in the user's cart is 404; otherwise exactly it is deleted (200); no other cart changes |
| GuestCartViews.Session.constructor | cart/guest_views.py:11-17 | a session has the given key, if any |
| GuestCartViews.Session.EnsureKey | cart/guest_views.py:11-17 | an existing session key is reused and the new one is used only when none exists |
| GuestCartViews.GuestCart | cart/guest_views.py:20-34 | the session and guest cart exist afterwards and the cart's lines are returned (200) |
| GuestCartViews.GuestAdd | cart/guest_views.py:37-110 | an invalid request is 400 with no session created; otherwise the session and cart are created and the add rules of the user cart decide |
| GuestCartViews.Truncate | cart/guest_views.py:147 | int() of a float is the whole number between zero and the value that lies within one of it |
| GuestCartViews.ToInt | cart/guest_views.py:146-157 | int() of a JSON value: an integer unchanged, a float truncated toward zero, a string only when it parses, a list, object or null a type error |
| GuestCartViews.UpdateQuantity | cart/guest_views.py:139-175 | a falsy quantity is 400; the update is 200 exactly when int() of the value is 1 up to the stock, which replaces the quantity; anything else changes nothing |
| GuestCartViews.UpdateQuantityFloat | cart/guest_views.py:140-160 | a float quantity between 0 and 1 is refused as not positive; one of at least 1 counts by its whole part against the stock |
| GuestCartViews.UpdateQuantityEffect | cart/guest_views.py:160-168 | an update replaces rather than adds (repeating it changes nothing), shifts the cart's count by the difference and touches no other cart |
| GuestCartViews.GuestUpdate | cart/guest_views.py:120-175 | no session, no guest cart or a line outside it is 404 with no change; otherwise the table is what UpdateQuantity decides |
| GuestCartViews.GuestRemove | cart/guest_views.py:185-210 | no session, no cart or a foreign line is 404; otherwise exactly that line is deleted |
| GuestCartViews.GuestClear | cart/guest_views.py:220-242 | always 200; with no session or cart nothing changes, otherwise every line of the cart is deleted |
| OrderModels.NewUserOrder | orders/models.py:22-32 | a new user order is of type user, with the user, the total, status pending and so unpaid |
| OrderModels.NewGuestOrder | orders/guest_views.py:61-70 | a guest order has no user, the guest contact, the total and status pending |
| OrderModels.ItemsOf | orders/models.py:81 | an order's items are exactly the rows pointing at it |
| OrderModels.DropItemsOf | orders/models.py:81 | deleting an order's items keeps exactly the others |
| OrderModels.ItemsOfAppend | orders/models.py:81 | an order's items of two tables are its items of each |
| OrderModels.DropItemsOfAppend | orders/models.py:81 | deleting from two tables is deleting from each |
| OrderModels.ItemsOfOwn | orders/models.py:81 | rows all pointing at the order are all its items |
| OrderModels.DropItemsOfOwn | orders/models.py:81 | deleting rows all pointing at the order leaves none |
| OrderModels.DropItemsOfAbsent | orders/models.py:81 | rows of other orders are kept |
| OrderSerializers.ValidateItemQuantity | orders/serializers.py:19-25 | an item quantity passes exactly when positive, unchanged |
| OrderSerializers.ValidateTotalAmount | orders/serializers.py:42-48 | a total passes exactly when positive, unchanged |
| OrderSerializers.CleanText | orders/serializers.py:90-94 | a trimmed text field passes exactly when between the minimum and max_length after stripping, stored stripped |
| OrderSerializers.CleanPostal | orders/serializers.py:96-104 | a postal code field passes exactly for a non-blank value of at most 20 whose cleaned form is five digits, stored with a dash |
| OrderSerializers.CleanPhone | orders/serializers.py:106-114 | a phone field passes exactly for phone characters of at most 20 that keep 9 to 15 characters once spaces, dashes and plus signs are removed (the check as written, so tabs count), stored stripped |
| OrderSerializers.CleanPhoneDigits | orders/serializers.py:109-113 | what the check as written does bound: an accepted phone has at most 15 digits |
| OrderSerializers.CleanEmail | orders/serializers.py:136 | the e-mail field refuses exactly a blank value and stores it stripped, with no length bound |
| OrderSerializers.CleanCountry | orders/models.py:61 | an absent country defaults to Polska; a given one is a CharField of at most 100 |
| OrderSerializers.Flagged | orders/serializers.py:82-127 | the address error set names exactly the failing fields |
| OrderSerializers.AddressErrors | orders/serializers.py:82-127 | the failing address fields are exactly those whose rule refuses them |
| OrderSerializers.ValidateGuestAddress | orders/serializers.py:82-127 | a delivery address is refused exactly with its field errors; an accepted one is stripped, long enough, its postal code is the given code's cleaned form (the same five digits, dashed) and its phone is of phone characters keeping 9 to 15 characters once spaces, dashes and plus signs are removed |
| OrderSerializers.CleanTextIsStable | orders/serializers.py:90-94 | a cleaned text cleans to itself |
| OrderSerializers.CleanPhoneIsStable | orders/serializers.py:106-114 | a cleaned phone cleans to itself |
| OrderSerializers.DashedIsTrimmed | orders/serializers.py:102-103 | a rewritten code has no outer white space and fits the length |
| OrderSerializers.CleanPostalIsStable | orders/serializers.py:96-104 | a cleaned postal code cleans to itself |
| OrderSerializers.DashedIsStable | orders/serializers.py:96-104 | a rewritten code validates to itself |
| OrderSerializers.CleanCountryIsStable | orders/models.py:61 | a cleaned country cleans to itself |
| OrderSerializers.GuestAddressIsStable | orders/serializers.py:82-127 | resubmitting an accepted address gives the same address |
| OrderSerializers.FlaggedCheckout | orders/serializers.py:129-163 | the checkout error set names exactly the failing fields, with the nested address errors as one entry |
| OrderSerializers.CheckoutErrors | orders/serializers.py:129-163 | the failing checkout fields are exactly those whose rule refuses them: names under 2 after stripping or over 100, a blank e-mail, a phone refused by validate_phone as written, and the address's own errors |
| OrderSerializers.ValidateGuestCheckout | orders/serializers.py:129-163 | the checkout is refused exactly with its field errors; an accepted one has stripped names of at least 2, the stripped e-mail, the stripped phone passing validate_phone as written, and the validated address |
| OrderSerializers.ItemsFor | orders/serializers.py:77-78 | one item per entry, for the order, with the entry's fields |
| OrderSerializers.ItemsForRefer | orders/models.py:81-82 | the created items refer to the order and existing products |
| OrderSerializers.CreatedItems | orders/serializers.py:77-78 | the new order's items are exactly the created ones |
| OrderSerializers.OwnedAddress | orders/serializers.py:72 | finds the address only when it has that id and belongs to the user |
| OrderSerializers.AttachedAddress | orders/serializers.py:69-76 | the order gets the address exactly when an id other than 0 was given and the order's user owns that address; otherwise none, silently |
| OrderSerializers.CreateOrder | orders/serializers.py:62-79 | the order is created under the next key with the attached address, and its items are exactly one per entry |
| OrderSerializers.InsertOrder | orders/serializers.py:68 | an order insert under the next key, with no items yet |
| OrderSerializers.AddItems | orders/serializers.py:77-78 | the item loop appends one row per entry |
| OrderViews.CheckStock | orders/views.py:39-44 | the loop answers exactly whether every line's quantity is within its product's stock |
| OrderViews.Snapshot | orders/views.py:61-68 | one item per cart line with the same product, quantity and format and the product's current price |
| OrderViews.SnapshotTotal | orders/views.py:47 | the items' subtotals add up to the cart's total_price |
| OrderViews.SnapshotIgnoresLaterPrices | orders/models.py:95-98 | the snapshot total is the total at order time, whatever the product price later becomes |
| OrderViews.Decremented | orders/views.py:71-73 | stock drops by the quantity and nothing else changes |
| OrderViews.StaleDecrement | orders/views.py:70-73 | the per-line save of a stale product copy changes no product key |
| OrderViews.Accumulated | orders/guest_views.py:89-91 | the re-fetching decrement changes no product key |
| OrderViews.StaleLastLineWins | orders/views.py:70-73 | with stale copies, a product keeps only its last line's decrement |
| OrderViews.AccumulatedStock | orders/guest_views.py:89-91 | re-fetching, a product's stock drops by the sum of its lines' quantities |
| OrderViews.OneLineDecrement | orders/views.py:70-73 | a product with exactly one line drops by that line's quantity either way |
| OrderViews.DecrementsAgree | orders/views.py:70-73 | with one line per product the two decrements agree |
| OrderViews.DefaultAddress | orders/views.py:50 | the picked address is a default one of the user, and there is none only when the user has no default |
| OrderViews.DefaultAddressIsTheDefault | orders/views.py:50 | with one default per user, the pick is that default |
| OrderViews.PlaceItemsStale | orders/views.py:61-73 | the loop appends the snapshot and leaves the stale decrement, keeping the database valid |
| OrderViews.WriteItemsStale | orders/views.py:61-73 | the loop itself, against the same two functions |
| OrderViews.OpenOrder | orders/views.py:53-73 | order, items and stock written as the checkout decides |
| OrderViews.PlaceUserOrder | orders/views.py:47-76 | the whole successful checkout: a pending order with the cart's total and the default address, the snapshot items, the decrement, and the cart emptied |
| OrderViews.CartRefusal | orders/views.py:22-44 | no cart or an empty cart is 400 cart-empty; a line above stock is 400 out-of-stock; otherwise no refusal |
| OrderViews.CreateOrderView | orders/views.py:19-80 | a refused checkout writes nothing; a successful one is 201 with exactly the writes above |
| OrderViews.OrderList | orders/views.py:90-91 | the list holds exactly the user's orders |
| OrderViews.OrderDetail | orders/views.py:94-102 | a detail request succeeds exactly for one of the user's orders, and is otherwise 404 |
| GuestOrderViews.PlaceItemsAccumulated | orders/guest_views.py:80-91 | the loop appends the snapshot and decrements stock cumulatively, keeping the database valid |
| GuestOrderViews.WriteItemsAccumulated | orders/guest_views.py:80-91 | the loop itself, against the same two functions |
| GuestOrderViews.RecordGuestOrder | orders/guest_views.py:61-77 | a pending guest order with the cart total and its one delivery address |
| GuestOrderViews.OpenGuestOrder | orders/guest_views.py:61-91 | order, delivery address, items and stock as the guest checkout writes them |
| GuestOrderViews.PlaceGuestOrder | orders/guest_views.py:58-94 | the whole successful guest checkout, with the guest cart emptied |
| GuestOrderViews.GuestRefusal | orders/guest_views.py:22-55 | invalid details are 400 first; no session, no cart or an empty cart is 400 cart-empty; a line above stock is 400 out-of-stock |
| GuestOrderViews.CheckoutValidated | orders/guest_views.py:20-116 | a refusal or a failure inside the transaction writes nothing (400 or 500); success is 201 with exactly the guest checkout's writes |
| GuestOrderViews.GuestOrderTotal | orders/guest_views.py:68-91 | the guest order's total equals the sum of its items' subtotals |
| PaymentModels.FindSession | payments/views.py:173 | finds the payment with that session id, or reports that none has it |
| PaymentModels.SessionLookupUnique | payments/models.py:18 | with unique session ids the lookup finds the one payment |
| PaymentViews.BuildLineItems | payments/views.py:78-91 | one provider line per cart line with the product's price in grosze and the line's quantity, charging exactly the cart total |
| PaymentViews.DeleteOrder | payments/views.py:125 | the order and its items are deleted |
| PaymentViews.OpenThenDelete | payments/views.py:53-68 | deleting a just-created order with its items restores the order and item tables |
| PaymentViews.RecordPayment | payments/views.py:108-113 | a pending payment with the session id and amount is appended |
| PaymentViews.OpenSession | payments/views.py:53-129 | provider success: order, items, decrement, pending payment and empty cart (200); provider failure: the order is gone but the stock decrement stays (400); a reused session id is 500 with nothing written |
| PaymentViews.AbandonOrder | payments/views.py:123-129 | after a provider failure only the stock decrement and the used key remain |
| PaymentViews.RollBack | payments/views.py:25 | a failure inside the atomic request undoes every write |
| PaymentViews.OpenAndBuild | payments/views.py:53-91 | the sent line items charge the cart total |
| PaymentViews.RecordSession | payments/views.py:107-121 | provider success writes exactly order, items, decrement, payment and empty cart |
| PaymentViews.CreateCheckoutSession | payments/views.py:26-129 | a refused cart writes nothing; otherwise the provider is sent the cart total, and: a new session gives 200 with the pending order under the next key, its snapshot items, the stock decrement, a pending payment of the total and the emptied cart; a provider error gives 400 with the order gone but the stock decrement and the consumed key kept; a reused session id gives 500 with nothing written |
| PaymentViews.CompletePayment | payments/views.py:176-177 | the payment becomes completed and nothing else changes |
| PaymentViews.MarkPaid | payments/views.py:180-182 | the order becomes paid and nothing else changes |
| PaymentViews.StripeWebhook | payments/views.py:139-193 | a missing signature, bad payload or bad signature is 400; other events are 200; a completion event for an unknown session is 404; for a known one the payment is completed and its order paid; nothing else changes |
| PaymentViews.CompletionKeepsOrders | payments/views.py:176-182 | completion keeps the order tables valid |
| PaymentViews.CompletionIdempotent | payments/views.py:168-182 | a redelivered completion leaves the same state |
| Text.Strip | users/serializers.py:190 | str.strip: the result is the contiguous middle of the input with no white space at either end |
| Text.StripIdempotent | users/serializers.py:244 | stripping twice is stripping once |
| Text.Lower | users/serializers.py:244 | str.lower keeps the length and leaves no upper-case letter, changing no white space |
| Text.LowerOfLowered | users/serializers.py:244 | a string with no upper-case letter is its own lower case |
| Text.ParseInt | cart/guest_views.py:147 | int() of a string: a plain digit string parses to its value; a parsed value comes from non-blank text and is negative only with a leading minus |
| Text.ParseShow | cart/guest_views.py:147 | int(str(i)) == i for every integer |
| Text.Remove | orders/serializers.py:109 | removing a character keeps exactly the other characters |
| Text.RemoveKeepsDigits | orders/serializers.py:109 | removing a non-digit keeps the digit count |

## Left out

- The JSON body beyond what the views read. Floats and booleans in vendor requests are not modelled there; a vendor value is text, an integer or null. The guest cart's quantity does take floats (GuestCartViews.JsonValue).
- Unicode. The regex classes `\d` and `\s`, `str.strip` and `str.lower` act on ASCII only.
- E-mail, UUID and URL syntax. The URL check is the parameter `isUrl`, and e-mail syntax is not checked.
- VendorSerializers.CleanInt: does not accept the ".0" float spelling DRF's IntegerField accepts in a string, since JSON floats are not modelled.
- The database integer range validators DRF adds to IntegerField (32-bit bounds), and the NUL-character check of CharField.
- Vendor analytics and dashboard aggregations: sales sums, revenue, monthly and 30-day figures. They rely on the clock and on floats; only their guards and product counts are modelled.
- The payment provider and e-mail. Stripe session creation and webhook signature verification are parameters (`ProviderOutcome`, `Construct`). Sent e-mails do not touch the database and are not modelled; their failures are swallowed in the source.
- JWT issuance and authentication middleware. An anonymous request to a vendor endpoint is taken to be 401, as the authentication classes are not part of this model.
- Password hashing. A password is stored as the value given to set_password.
- Concurrency between requests (the stock race between checkouts); one request at a time.
- List ordering beyond table order (`-created_at`), and response bodies other than status and reason.
- Order.user_address: the model does not declare it. The order's `userAddress` records which address the view attached; no property relies on it being stored.
- UserSerializer.create/update, UserProfileView, MeView and VendorCompanyListView: plain ModelSerializer and retrieval code with no rule of its own. The profile phone check (UserSerializers.CleanProfilePhone) is modelled.
- GuestOrderViews.CheckoutValidated: takes the checkout serializer's result and whether the transaction failed as inputs, rather than running the request parsing itself.
- PaymentViews.OpenSession: when the provider fails, the order key is consumed (the next key moves on) although the order is deleted, as a database sequence does.
- PUT on addresses behaves as a full PATCH (UserViews.FullPatch); its "required field missing" errors are not modelled separately.
- Boolean parsing of `is_default` in address requests: the flag arrives as a boolean.

## Findings

| source | as written | input that shows it | evidently intended | confidence | as-written member | corrected member |
|---|---|---|---|---|---|---|
| orders/serializers.py:106-114, 154-162; users/serializers.py:154-167, 205-215 | the phone length check counts every character left after removing space, dash and plus, and the pattern admits any white space | "1\t2\t3\t4\t5" (five digits separated by tabs) passes as a phone number | 9 to 15 digits | not executed | AddressValidators.PhoneAsWritten, AddressValidators.PhoneAsWrittenAcceptsFiveDigits | AddressValidators.ValidatePhone, AddressValidators.ValidatePhoneRefusesFiveDigits, AddressValidators.PhoneChecksAgree |
| products/vendor_views.py:29-43, 45-72 | the field whitelist is applied in `patch` only; PUT goes to the generic update, which accepts stock, genre, format, isbn and publisher, and the vendor serializer has no stock check | PUT {"description": "d", "stock": -5} by the owning vendor sets the stock to -5 | a vendor edits only description, image_url, page_count and publication_year, whatever the method | not executed | VendorViews.PutAsWritten, VendorViews.PutAsWrittenEditsStock | VendorViews.Put, VendorViews.Edit, VendorViews.EditTouchesOnlyAllowed |

The serializers and views keep the phone check as written (`OrderSerializers.CleanPhone`,
`UserSerializers.CleanProfilePhone` and every validation and view built on them), so their replies are
the code's own. The corrected check, `AddressValidators.ValidatePhone`, is stated beside it.
`AddressValidators.PhoneChecksAgree` proves that the two coincide whenever the plain space is the only
white space in the number.
