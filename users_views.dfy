/**
 * users/views.py: login, customer and vendor registration, the address book, and the forgot- and
 * reset-password flow, over the shared Database. The JWT pair a successful call returns and the
 * e-mails the password views send do not reach the database and are not modelled.
 */
module UserViews {
  import opened Wrappers
  import opened Text
  import opened UserModels
  import opened AddressValidators
  import opened OrderModels
  import opened OrderSerializers
  import opened Http
  import opened Store
  import UserSerializers
  import OrderViews

  // ---- LoginView ----

  /** `request.data.get(name)` is truthy: present and not the empty string. */
  predicate Given(v: Option<string>) {
    v.Some? && v.value != ""
  }

  /** No two accounts share an e-mail (the unique constraint on CustomUser.email). */
  ghost predicate EmailsUnique(users: seq<User>) {
    forall i, j :: 0 <= i < j < |users| ==> users[i].email != users[j].email
  }

  /**
   * ModelBackend.authenticate with the e-mail as username: the account with exactly that e-mail,
   * provided the password matches and the account is active.
   */
  function Authenticate(users: seq<User>, email: string, password: string): (r: Option<UserId>)
    ensures r.Some? ==>
      exists i :: 0 <= i < |users| && users[i].id == r.value && users[i].email == email &&
                  users[i].password == password && users[i].isActive
    ensures EmailsUnique(users) && r.None? ==>
      forall i :: 0 <= i < |users| && users[i].email == email ==> users[i].password != password || !users[i].isActive
  {
    var found := UserSerializers.FindEmail(users, email);
    if found.Some? && users[found.value].password == password && users[found.value].isActive
    then Some(users[found.value].id)
    else None
  }

  datatype LoginOutcome = LoggedIn(user: UserId) | LoginRefused(reply: Reply)

  /** LoginView.post: both fields must be given (400), then the credentials must authenticate (401). */
  function Login(users: seq<User>, email: Option<string>, password: Option<string>): (r: LoginOutcome)
    ensures !Given(email) || !Given(password) <==> r == LoginRefused(BadRequest(MissingCredentials))
    ensures r.LoginRefused? ==> r.reply == BadRequest(MissingCredentials) || r.reply == Unauthorized
    ensures r.LoggedIn? ==>
      Given(email) && Given(password) &&
      exists i :: 0 <= i < |users| && users[i].id == r.user && users[i].email == email.value &&
                  users[i].password == password.value && users[i].isActive
    ensures EmailsUnique(users) && Given(email) && Given(password) ==>
      (r == LoginRefused(Unauthorized) <==>
        forall i :: 0 <= i < |users| && users[i].email == email.value ==>
          users[i].password != password.value || !users[i].isActive)
  {
    if !Given(email) || !Given(password) then LoginRefused(BadRequest(MissingCredentials))
    else
      var user := Authenticate(users, email.value, password.value);
      if user.None? then LoginRefused(Unauthorized) else LoggedIn(user.value)
  }

  /** Once an account is added under an unused e-mail, logging in with that e-mail succeeds exactly for its password. */
  lemma NewAccountLogin(users: seq<User>, u: User, password: string)
    requires EmailsUnique(users) && !UserSerializers.EmailTaken(users, u.email)
    requires u.email != "" && password != "" && u.isActive
    ensures Login(users + [u], Some(u.email), Some(password)) == if password == u.password then LoggedIn(u.id) else LoginRefused(Unauthorized)
  {
    var after := users + [u];
    assert after[|users|].email == u.email;
    assert UserSerializers.FindEmail(after, u.email) == Some(|users|);
  }

  /** A customer who has just registered can log in with the e-mail and password the serializer accepted. */
  lemma RegisteredCustomerCanLogIn(users: seq<User>, next: UserId, input: UserSerializers.RegistrationInput)
    requires EmailsUnique(users)
    requires UserSerializers.ValidateRegistration(users, input).Success?
    ensures
      var c := UserSerializers.ValidateRegistration(users, input).value;
      Login(users + [UserSerializers.NewCustomer(next, c)], Some(c.email), Some(c.password)) == LoggedIn(next)
  {
    var c := UserSerializers.ValidateRegistration(users, input).value;
    NewAccountLogin(users, UserSerializers.NewCustomer(next, c), c.password);
  }

  /**
   * Registration stores the stripped password while login compares the raw one: a password typed
   * with a leading or trailing space registers, and the same string then never logs in.
   */
  lemma PaddedPasswordNeverLogsIn(users: seq<User>, next: UserId, input: UserSerializers.RegistrationInput)
    requires EmailsUnique(users)
    requires UserSerializers.ValidateRegistration(users, input).Success?
    requires input.password != Strip(input.password)
    ensures
      var c := UserSerializers.ValidateRegistration(users, input).value;
      Login(users + [UserSerializers.NewCustomer(next, c)], Some(c.email), Some(input.password)) == LoginRefused(Unauthorized)
  {
    var c := UserSerializers.ValidateRegistration(users, input).value;
    NewAccountLogin(users, UserSerializers.NewCustomer(next, c), input.password);
  }

  // ---- RegisterView and VendorRegisterView ----

  /** A new account with a fresh key and an unused e-mail keeps the user table and the token references sound. */
  lemma NewUserKeepsUsers(users: seq<User>, next: UserId, companies: map<CompanyId, VendorCompany>,
                          tokens: seq<ResetToken>, u: User)
    requires UsersValid(users, next, companies) && TokensValid(tokens, users)
    requires u.id == next && !UserSerializers.EmailTaken(users, u.email)
    requires u.company.Some? ==> u.company.value in companies
    ensures UsersValid(users + [u], next + 1, companies) && TokensValid(tokens, users + [u])
  {
    var after := users + [u];
    forall t | t in tokens ensures UserExists(after, t.user) {
      var i :| 0 <= i < |users| && users[i].id == t.user;
      assert after[i] == users[i];
    }
  }

  /** serializer.save() for an account the serializer accepted: one more row under the next key. */
  method AddAccount(db: Database, u: User)
    requires db.Valid()
    requires u.id == db.nextUserId && !UserSerializers.EmailTaken(db.users, u.email)
    requires u.company.Some? ==> u.company.value in db.companies
    modifies db`users, db`nextUserId
    ensures db.Valid()
    ensures db.users == old(db.users) + [u] && db.nextUserId == old(db.nextUserId) + 1
  {
    NewUserKeepsUsers(db.users, db.nextUserId, db.companies, db.tokens, u);
    db.users, db.nextUserId := db.users + [u], db.nextUserId + 1;
  }

  /** RegisterView.create: 400 on any serializer error; otherwise a customer account is added (201). */
  method Register(db: Database, input: UserSerializers.RegistrationInput) returns (reply: Reply)
    requires db.Valid()
    modifies db`users, db`nextUserId
    ensures db.Valid()
    ensures UserSerializers.ValidateRegistration(old(db.users), input).Failure? ==>
      reply == BadRequest(InvalidInput) && db.users == old(db.users) && db.nextUserId == old(db.nextUserId)
    ensures UserSerializers.ValidateRegistration(old(db.users), input).Success? ==>
      reply == Created && db.nextUserId == old(db.nextUserId) + 1 &&
      db.users == old(db.users) + [UserSerializers.NewCustomer(old(db.nextUserId), UserSerializers.ValidateRegistration(old(db.users), input).value)]
  {
    var checked := UserSerializers.ValidateRegistration(db.users, input);
    if checked.Failure? {
      return BadRequest(InvalidInput);
    }
    AddAccount(db, UserSerializers.NewCustomer(db.nextUserId, checked.value));
    reply := Created;
  }

  /** VendorRegisterView.create: 400 on any serializer error; otherwise a vendor of the verified company (201). */
  method VendorRegister(db: Database, input: UserSerializers.VendorInput) returns (reply: Reply)
    requires db.Valid()
    modifies db`users, db`nextUserId
    ensures db.Valid()
    ensures UserSerializers.ValidateVendor(old(db.users), db.companies, input).Failure? ==>
      reply == BadRequest(InvalidInput) && db.users == old(db.users) && db.nextUserId == old(db.nextUserId)
    ensures UserSerializers.ValidateVendor(old(db.users), db.companies, input).Success? ==>
      reply == Created && db.nextUserId == old(db.nextUserId) + 1 &&
      db.users == old(db.users) + [UserSerializers.NewVendor(old(db.nextUserId), UserSerializers.ValidateVendor(old(db.users), db.companies, input).value)]
  {
    var checked := UserSerializers.ValidateVendor(db.users, db.companies, input);
    if checked.Failure? {
      return BadRequest(InvalidInput);
    }
    AddAccount(db, UserSerializers.NewVendor(db.nextUserId, checked.value));
    reply := Created;
  }

  // ---- The address book ----

  /** The querysets of the address views: the addresses of the requesting user. */
  function OwnAddresses(addresses: seq<Address>, user: UserId): (r: seq<Address>)
    ensures forall a :: a in r <==> a in addresses && a.user == user
  {
    if addresses == [] then []
    else
      var a := addresses[|addresses| - 1];
      var rest := OwnAddresses(addresses[..|addresses| - 1], user);
      assert forall b :: b in addresses <==> b in addresses[..|addresses| - 1] || b == a;
      if a.user == user then rest + [a] else rest
  }

  /** `get_object` on the user's own queryset: the index of the address with this key, if it is theirs. */
  function FindOwnAddress(addresses: seq<Address>, id: AddressId, user: UserId): (r: Option<nat>)
    ensures r.Some? ==> r.value < |addresses| && addresses[r.value].id == id && addresses[r.value].user == user
    ensures r.None? ==> forall i :: 0 <= i < |addresses| ==> addresses[i].id != id || addresses[i].user != user
  {
    if addresses == [] then None
    else if addresses[|addresses| - 1].id == id && addresses[|addresses| - 1].user == user then Some(|addresses| - 1)
    else FindOwnAddress(addresses[..|addresses| - 1], id, user)
  }

  /**
   * Address.save: a default address first takes the flag from every other default address of its
   * user (the address itself is excluded by key, and a new address has no key yet), then is
   * inserted (`at` is None) or written over its row `at`.
   */
  function SaveAddress(addresses: seq<Address>, a: Address, at: Option<nat>): (r: seq<Address>)
    requires at.Some? ==> at.value < |addresses|
    ensures |r| == if at.None? then |addresses| + 1 else |addresses|
    ensures at.None? ==> r[|addresses|] == a
    ensures at.Some? ==> r[at.value] == a
    ensures forall i :: 0 <= i < |addresses| && at != Some(i) ==>
      r[i] == addresses[i].(isDefault := r[i].isDefault) &&
      (r[i].isDefault <==>
        addresses[i].isDefault && !(a.isDefault && addresses[i].user == a.user && (at.None? || addresses[i].id != a.id)))
  {
    var kept := if at.None? then None else Some(a.id);
    var cleared := if a.isDefault then ClearOtherDefaults(addresses, a.user, kept) else addresses;
    if at.None? then cleared + [a] else cleared[at.value := a]
  }

  /** Saving an address under a fresh key, or over its own row, keeps keys unique and one default per user. */
  lemma SaveKeepsAddresses(addresses: seq<Address>, next: AddressId, a: Address, at: Option<nat>)
    requires AddressesValid(addresses, next)
    requires at.None? ==> a.id == next
    requires at.Some? ==> at.value < |addresses| && addresses[at.value].id == a.id
    ensures AddressesValid(SaveAddress(addresses, a, at), if at.None? then next + 1 else next)
  {
    var r := SaveAddress(addresses, a, at);
    var slot := if at.None? then |addresses| else at.value;
    assert forall i :: 0 <= i < |r| && i != slot ==> i < |addresses| && r[i].id == addresses[i].id && r[i].user == addresses[i].user;
    assert at.Some? ==> forall j :: 0 <= j < |addresses| && j != at.value ==> addresses[j].id != a.id;
    assert forall j :: 0 <= j < |addresses| && j != slot && r[j].isDefault && addresses[j].user == a.user ==> !a.isDefault;
    forall b | b in r ensures b.id < (if at.None? then next + 1 else next) {
      var i :| 0 <= i < |r| && r[i] == b;
      if i != slot {
        assert addresses[i] in addresses;
      }
    }
  }

  /** A new address row from the validated fields. */
  function NewAddress(id: AddressId, user: UserId, d: DeliveryAddress, isDefault: bool): (a: Address)
    ensures a.id == id && a.user == user && a.isDefault == isDefault
  {
    Address(id, user, d.recipientName, d.street, d.postalCode, d.city, d.country, d.phone, isDefault)
  }

  /** perform_create's save of a new address under the next key. */
  method InsertAddress(db: Database, a: Address)
    requires db.Valid() && a.id == db.nextAddressId
    modifies db`addresses, db`nextAddressId
    ensures db.Valid()
    ensures db.addresses == SaveAddress(old(db.addresses), a, None) && db.nextAddressId == old(db.nextAddressId) + 1
  {
    SaveKeepsAddresses(db.addresses, db.nextAddressId, a, None);
    db.addresses, db.nextAddressId := SaveAddress(db.addresses, a, None), db.nextAddressId + 1;
  }

  /** AddressListCreateView's create: 400 on a field error, otherwise the address is saved for the user (201). */
  method CreateAddress(db: Database, user: UserId, input: AddressInput, isDefault: bool) returns (reply: Reply)
    requires db.Valid()
    modifies db`addresses, db`nextAddressId
    ensures db.Valid()
    ensures UserSerializers.ValidateAddress(input).Failure? ==>
      reply == BadRequest(InvalidInput) && db.addresses == old(db.addresses) && db.nextAddressId == old(db.nextAddressId)
    ensures UserSerializers.ValidateAddress(input).Success? ==>
      reply == Created && db.nextAddressId == old(db.nextAddressId) + 1 &&
      db.addresses == SaveAddress(old(db.addresses),
        NewAddress(old(db.nextAddressId), user, UserSerializers.ValidateAddress(input).value, isDefault), None)
  {
    var checked := UserSerializers.ValidateAddress(input);
    if checked.Failure? {
      return BadRequest(InvalidInput);
    }
    InsertAddress(db, NewAddress(db.nextAddressId, user, checked.value, isDefault));
    reply := Created;
  }

  /** The fields of a PATCH on an address; a field left out is None. */
  datatype AddressPatch = AddressPatch(
    recipientName: Option<string>,
    street: Option<string>,
    postalCode: Option<string>,
    city: Option<string>,
    country: Option<string>,
    phone: Option<string>,
    isDefault: Option<bool>)

  /** A name-like field of a partial update: kept when left out, otherwise its cleaned value. */
  function PatchText(current: string, given: Option<string>, maxLength: nat, min: nat): (r: Result<string, FieldProblem>)
    requires min >= 1
    ensures r.Failure? <==> given.Some? && CleanText(given.value, maxLength, min).Failure?
    ensures r.Success? ==> r.value == if given.None? then current else Strip(given.value)
  {
    if given.None? then Success(current) else CleanText(given.value, maxLength, min)
  }

  function PatchName(current: string, given: Option<string>): (r: Result<string, FieldProblem>)
    ensures r.Failure? <==> given.Some? && UserSerializers.CleanRecipientName(given.value).Failure?
    ensures r.Success? ==> r.value == if given.None? then current else Strip(given.value)
  {
    if given.None? then Success(current) else UserSerializers.CleanRecipientName(given.value)
  }

  function PatchPostal(current: string, given: Option<string>): (r: Result<string, FieldProblem>)
    ensures r.Failure? <==> given.Some? && CleanPostal(given.value).Failure?
    ensures r.Success? && given.None? ==> r.value == current
    ensures r.Success? && given.Some? ==>
      r.value == CleanPostal(given.value).value && '-' in r.value && FiveDigits(PostalCleaned(r.value)) &&
      PostalCleaned(r.value) == PostalCleaned(Strip(given.value))
  {
    if given.None? then Success(current) else CleanPostal(given.value)
  }

  function PatchCountry(current: string, given: Option<string>): (r: Result<string, FieldProblem>)
    ensures r.Failure? <==> given.Some? && CleanCountry(given).Failure?
    ensures r.Success? ==> r.value == if given.None? then current else Strip(given.value)
  {
    if given.None? then Success(current) else CleanCountry(given)
  }

  function PatchPhone(current: string, given: Option<string>): (r: Result<string, FieldProblem>)
    ensures r.Failure? <==> given.Some? && CleanPhone(given.value).Failure?
    ensures r.Success? ==> r.value == if given.None? then current else Strip(given.value)
  {
    if given.None? then Success(current) else CleanPhone(given.value)
  }

  /** The field errors of a partial update: only the fields it gives are validated. */
  function PatchErrors(p: AddressPatch): (errors: set<AddressField>)
    ensures RecipientName in errors <==> p.recipientName.Some? && UserSerializers.CleanRecipientName(p.recipientName.value).Failure?
    ensures Street in errors <==> p.street.Some? && CleanText(p.street.value, 255, 3).Failure?
    ensures PostalCode in errors <==> p.postalCode.Some? && CleanPostal(p.postalCode.value).Failure?
    ensures City in errors <==> p.city.Some? && CleanText(p.city.value, 100, 2).Failure?
    ensures Country in errors <==> p.country.Some? && CleanCountry(p.country).Failure?
    ensures Phone in errors <==> p.phone.Some? && CleanPhone(p.phone.value).Failure?
  {
    Flagged(PatchName("", p.recipientName).Failure?, PatchText("", p.street, 255, 3).Failure?,
            PatchPostal("", p.postalCode).Failure?, PatchText("", p.city, 100, 2).Failure?,
            PatchCountry("", p.country).Failure?, PatchPhone("", p.phone).Failure?)
  }

  /**
   * The serializer's partial update: each given field is replaced by its cleaned value, key and
   * owner are kept, and any field error refuses the whole patch.
   */
  function Patched(a: Address, p: AddressPatch): (r: Result<Address, set<AddressField>>)
    ensures r.Failure? <==> PatchErrors(p) != {}
    ensures r.Failure? ==> r.error == PatchErrors(p)
    ensures r.Success? ==> r.value.id == a.id && r.value.user == a.user
  {
    var errors := PatchErrors(p);
    if errors != {} then Failure(errors)
    else
      assert RecipientName !in errors && Street !in errors && PostalCode !in errors;
      assert City !in errors && Country !in errors && Phone !in errors;
      var isDefault := if p.isDefault.None? then a.isDefault else p.isDefault.value;
      Success(Address(a.id, a.user, PatchName(a.recipientName, p.recipientName).value, PatchText(a.street, p.street, 255, 3).value,
                      PatchPostal(a.postalCode, p.postalCode).value, PatchText(a.city, p.city, 100, 2).value,
                      PatchCountry(a.country, p.country).value, PatchPhone(a.phone, p.phone).value, isDefault))
  }

  /** What an accepted patch stores in the name fields: a field left out keeps its value, a given one is stripped. */
  lemma PatchedNames(a: Address, p: AddressPatch)
    requires Patched(a, p).Success?
    ensures
      var b := Patched(a, p).value;
      b.recipientName == (if p.recipientName.None? then a.recipientName else Strip(p.recipientName.value)) &&
      b.street == (if p.street.None? then a.street else Strip(p.street.value)) &&
      b.city == (if p.city.None? then a.city else Strip(p.city.value))
  {
    var errors := PatchErrors(p);
    assert RecipientName !in errors && Street !in errors && City !in errors;
  }

  /**
   * What an accepted patch stores in the other fields: the country and phone stripped, a given
   * postal code in its dashed five-digit form, the default flag as given; left-out fields kept.
   */
  lemma PatchedContact(a: Address, p: AddressPatch)
    requires Patched(a, p).Success?
    ensures
      var b := Patched(a, p).value;
      b.country == (if p.country.None? then a.country else Strip(p.country.value)) &&
      b.phone == (if p.phone.None? then a.phone else Strip(p.phone.value)) &&
      b.isDefault == (if p.isDefault.None? then a.isDefault else p.isDefault.value) &&
      (p.postalCode.None? ==> b.postalCode == a.postalCode) &&
      (p.postalCode.Some? ==>
        b.postalCode == CleanPostal(p.postalCode.value).value && '-' in b.postalCode &&
        FiveDigits(PostalCleaned(b.postalCode)) && PostalCleaned(b.postalCode) == PostalCleaned(Strip(p.postalCode.value)))
  {
    var errors := PatchErrors(p);
    assert PostalCode !in errors && Country !in errors && Phone !in errors;
  }

  /** An empty patch changes nothing. */
  lemma EmptyPatchKeepsAddress(a: Address)
    ensures Patched(a, AddressPatch(None, None, None, None, None, None, None)) == Success(a)
  {
  }

  /** The patch a full form submits: every field given, the country included. */
  function FullPatch(input: AddressInput, isDefault: bool): (p: AddressPatch)
    ensures p.recipientName == Some(input.recipientName) && p.street == Some(input.street) && p.city == Some(input.city)
    ensures p.postalCode == Some(input.postalCode) && p.country == input.country && p.phone == Some(input.phone)
    ensures p.isDefault == Some(isDefault)
  {
    AddressPatch(Some(input.recipientName), Some(input.street), Some(input.postalCode), Some(input.city),
                 input.country, Some(input.phone), Some(isDefault))
  }

  /** A full patch (with a country) is refused for exactly the fields a new address would be refused for. */
  lemma FullPatchErrors(input: AddressInput, isDefault: bool)
    requires input.country.Some?
    ensures PatchErrors(FullPatch(input, isDefault)) == AddressErrors(input)
  {
    UserSerializers.RecipientNameChecksAgree(input.recipientName);
  }

  /** A full patch is held to exactly the checks of creating an address, and stores the same values. */
  lemma FullPatchIsCreation(a: Address, input: AddressInput, isDefault: bool)
    requires input.country.Some?
    ensures Patched(a, FullPatch(input, isDefault)).Success? <==> UserSerializers.ValidateAddress(input).Success?
    ensures Patched(a, FullPatch(input, isDefault)).Success? ==>
      Patched(a, FullPatch(input, isDefault)).value == NewAddress(a.id, a.user, UserSerializers.ValidateAddress(input).value, isDefault)
  {
    var p := FullPatch(input, isDefault);
    FullPatchErrors(input, isDefault);
    if Patched(a, p).Success? {
      UserSerializers.RecipientNameChecksAgree(input.recipientName);
      var d := ValidateGuestAddress(input).value;
      assert d.postalCode == CleanPostal(input.postalCode).value;
      assert Patched(a, p).value.postalCode == CleanPostal(input.postalCode).value;
    }
  }

  /** AddressDetailView's PATCH: 404 for an address that is not the user's, 400 on a field error, else saved (200). */
  method UpdateAddress(db: Database, user: UserId, id: AddressId, patch: AddressPatch) returns (reply: Reply)
    requires db.Valid()
    modifies db`addresses
    ensures db.Valid()
    ensures FindOwnAddress(old(db.addresses), id, user).None? ==> reply == NotFound && db.addresses == old(db.addresses)
    ensures FindOwnAddress(old(db.addresses), id, user).Some? ==>
      var k := FindOwnAddress(old(db.addresses), id, user).value;
      var r := Patched(old(db.addresses)[k], patch);
      (r.Failure? ==> reply == BadRequest(InvalidInput) && db.addresses == old(db.addresses)) &&
      (r.Success? ==> reply == Ok && db.addresses == SaveAddress(old(db.addresses), r.value, Some(k)))
  {
    var found := FindOwnAddress(db.addresses, id, user);
    if found.None? {
      return NotFound;
    }
    var k := found.value;
    var r := Patched(db.addresses[k], patch);
    if r.Failure? {
      return BadRequest(InvalidInput);
    }
    SaveKeepsAddresses(db.addresses, db.nextAddressId, r.value, Some(k));
    db.addresses := SaveAddress(db.addresses, r.value, Some(k));
    reply := Ok;
  }

  /** Removing a row keeps keys unique and at most one default per user. */
  lemma RemoveKeepsAddresses(addresses: seq<Address>, next: AddressId, k: nat)
    requires AddressesValid(addresses, next) && k < |addresses|
    ensures AddressesValid(addresses[..k] + addresses[k + 1..], next)
  {
    var r := addresses[..k] + addresses[k + 1..];
    assert forall i :: 0 <= i < |r| ==> r[i] == addresses[if i < k then i else i + 1];
    forall b | b in r ensures b in addresses {
      var i :| 0 <= i < |r| && r[i] == b;
    }
  }

  /** AddressDetailView's DELETE: 404 for an address that is not the user's, otherwise the row goes (204). */
  method DeleteAddress(db: Database, user: UserId, id: AddressId) returns (reply: Reply)
    requires db.Valid()
    modifies db`addresses
    ensures db.Valid()
    ensures FindOwnAddress(old(db.addresses), id, user).None? ==> reply == NotFound && db.addresses == old(db.addresses)
    ensures FindOwnAddress(old(db.addresses), id, user).Some? ==>
      var k := FindOwnAddress(old(db.addresses), id, user).value;
      reply == NoContent && db.addresses == old(db.addresses)[..k] + old(db.addresses)[k + 1..]
  {
    var found := FindOwnAddress(db.addresses, id, user);
    if found.None? {
      return NotFound;
    }
    RemoveKeepsAddresses(db.addresses, db.nextAddressId, found.value);
    db.addresses := db.addresses[..found.value] + db.addresses[found.value + 1..];
    reply := NoContent;
  }

  /**
   * Deleting the default address promotes no other one: the user's next order is placed without a
   * delivery address until they choose a new default.
   */
  lemma DeletedDefaultLeavesNone(addresses: seq<Address>, next: AddressId, k: nat)
    requires AddressesValid(addresses, next) && k < |addresses| && addresses[k].isDefault
    ensures OrderViews.DefaultAddress(addresses[..k] + addresses[k + 1..], addresses[k].user).None?
  {
    var r := addresses[..k] + addresses[k + 1..];
    var user := addresses[k].user;
    forall b | b in r ensures !(b.user == user && b.isDefault) {
      var i :| 0 <= i < |r| && r[i] == b;
      var j := if i < k then i else i + 1;
      assert addresses[j] == b;
    }
  }

  /** AddressSetDefaultView.patch: 404 for an address that is not the user's, otherwise it becomes the default (200). */
  method SetDefault(db: Database, user: UserId, id: AddressId) returns (reply: Reply)
    requires db.Valid()
    modifies db`addresses
    ensures db.Valid()
    ensures FindOwnAddress(old(db.addresses), id, user).None? ==> reply == NotFound && db.addresses == old(db.addresses)
    ensures FindOwnAddress(old(db.addresses), id, user).Some? ==>
      var k := FindOwnAddress(old(db.addresses), id, user).value;
      reply == Ok && db.addresses == SaveAddress(old(db.addresses), old(db.addresses)[k].(isDefault := true), Some(k))
  {
    var found := FindOwnAddress(db.addresses, id, user);
    if found.None? {
      return NotFound;
    }
    var k := found.value;
    SaveKeepsAddresses(db.addresses, db.nextAddressId, db.addresses[k].(isDefault := true), Some(k));
    db.addresses := SaveAddress(db.addresses, db.addresses[k].(isDefault := true), Some(k));
    reply := Ok;
  }

  /** After setting a default, the next order of that user is delivered to exactly that address. */
  lemma SetDefaultIsUsedAtCheckout(addresses: seq<Address>, next: AddressId, k: nat)
    requires AddressesValid(addresses, next) && k < |addresses|
    ensures
      OrderViews.DefaultAddress(SaveAddress(addresses, addresses[k].(isDefault := true), Some(k)), addresses[k].user)
        == Some(addresses[k].id)
  {
    var a := addresses[k].(isDefault := true);
    SaveKeepsAddresses(addresses, next, a, Some(k));
    var r := SaveAddress(addresses, a, Some(k));
    assert r[k] in r;
    OrderViews.DefaultAddressIsTheDefault(r, a.user, a);
  }

  // ---- ForgotPasswordView and ResetPasswordView ----

  /** `CustomUser.objects.get(email=...)` after the serializer's lower().strip(): the account a reset is sent to. */
  function ResetAccount(users: seq<User>, raw: string): (r: Option<nat>)
    ensures r.Some? ==> r.value < |users|
  {
    var email := UserSerializers.NormalizeResetEmail(raw);
    if email.Failure? then None else UserSerializers.FindEmail(users, email.value)
  }

  /** The account found is the one whose stored e-mail equals the normalised input; none is found only when no account has it. */
  lemma ResetAccountFinds(users: seq<User>, raw: string)
    ensures ResetAccount(users, raw).Some? ==>
      UserSerializers.NormalizeResetEmail(raw).Success? &&
      users[ResetAccount(users, raw).value].email == UserSerializers.NormalizeResetEmail(raw).value
    ensures UserSerializers.NormalizeResetEmail(raw).Success? && ResetAccount(users, raw).None? ==>
      !UserSerializers.EmailTaken(users, UserSerializers.NormalizeResetEmail(raw).value)
  {
  }

  /**
   * The lookup is exact while the address is lower-cased first: an account whose stored e-mail has
   * an upper-case letter never receives a reset link, whatever is typed.
   */
  lemma MixedCaseAccountNeverReset(users: seq<User>, raw: string, i: nat, j: nat)
    requires i < |users| && j < |users[i].email| && 'A' <= users[i].email[j] <= 'Z'
    ensures ResetAccount(users, raw) != Some(i)
  {
    ResetAccountFinds(users, raw);
    var email := UserSerializers.NormalizeResetEmail(raw);
    if email.Success? {
      assert forall c :: c in email.value ==> !('A' <= c <= 'Z');
      assert users[i].email[j] in users[i].email;
    }
  }

  /** The bulk update of ForgotPasswordView: every unused token of the user is flagged used (used_at is left unset). */
  function Invalidated(tokens: seq<ResetToken>, user: UserId): (r: seq<ResetToken>)
    ensures |r| == |tokens|
    ensures forall i :: 0 <= i < |r| ==> r[i] == tokens[i].(isUsed := r[i].isUsed)
    ensures forall i :: 0 <= i < |r| ==> (r[i].isUsed <==> tokens[i].isUsed || tokens[i].user == user)
  {
    seq(|tokens|, i requires 0 <= i < |tokens| =>
      if tokens[i].user == user && !tokens[i].isUsed then tokens[i].(isUsed := true) else tokens[i])
  }

  /** PasswordResetToken.objects.create(user=...): a fresh token whose expiry save() sets. */
  function Issued(key: string, user: UserId, now: int): (t: ResetToken)
    ensures t.key == key && t.user == user && !t.isUsed && t.usedAt.None?
    ensures t.expiresAt == Some(now + TokenLifetime)
  {
    SaveToken(UserModels.ResetToken.ResetToken(key, user, None, false, None), now)
  }

  /**
   * After a successful request the user holds exactly one unused token, the new one, and it stays
   * valid for the hour that follows.
   */
  lemma ForgotLeavesOneLiveToken(tokens: seq<ResetToken>, user: UserId, key: string, now: int, time: int)
    requires now <= time < now + TokenLifetime
    ensures
      var after := Invalidated(tokens, user) + [Issued(key, user, now)];
      (forall i :: 0 <= i < |after| && after[i].user == user && !after[i].isUsed ==> i == |tokens|) &&
      IsValid(after[|tokens|], time)
  {
  }

  /** Marking the other tokens keeps every token's key, expiry and user. */
  lemma InvalidatedKeepsTokens(tokens: seq<ResetToken>, users: seq<User>, user: UserId)
    requires TokensValid(tokens, users)
    ensures TokensValid(Invalidated(tokens, user), users)
  {
    var r := Invalidated(tokens, user);
    forall t | t in r ensures t.expiresAt.Some? && UserExists(users, t.user) {
      var i :| 0 <= i < |r| && r[i] == t;
      assert tokens[i] in tokens;
    }
  }

  /**
   * ForgotPasswordView.post: 400 when the e-mail field is blank; the same 200 whether or not an
   * account has that e-mail; for an account, its unused tokens are invalidated and a new one is
   * issued under `key` (the generated UUID). The unique constraint refuses a key already in use
   * (500), and as nothing runs in a transaction the invalidation stays.
   */
  method ForgotPassword(db: Database, email: string, key: string, now: int) returns (reply: Reply)
    requires db.Valid()
    modifies db`tokens
    ensures db.Valid()
    ensures UserSerializers.NormalizeResetEmail(email).Failure? ==>
      reply == BadRequest(InvalidInput) && db.tokens == old(db.tokens)
    ensures UserSerializers.NormalizeResetEmail(email).Success? && ResetAccount(db.users, email).None? ==>
      reply == Ok && db.tokens == old(db.tokens)
    ensures ResetAccount(db.users, email).Some? ==>
      var user := db.users[ResetAccount(db.users, email).value].id;
      var cleared := Invalidated(old(db.tokens), user);
      (UserSerializers.FindToken(cleared, key).Some? ==> reply == InternalError && db.tokens == cleared) &&
      (UserSerializers.FindToken(cleared, key).None? ==> reply == Ok && db.tokens == cleared + [Issued(key, user, now)])
  {
    var normalized := UserSerializers.NormalizeResetEmail(email);
    if normalized.Failure? {
      return BadRequest(InvalidInput);
    }
    reply := ForgotFor(db, ResetAccount(db.users, email), key, now);
  }

  /** The same 200 whether or not an account was found; for an account, its tokens are renewed. */
  method ForgotFor(db: Database, found: Option<nat>, key: string, now: int) returns (reply: Reply)
    requires db.Valid() && (found.Some? ==> found.value < |db.users|)
    modifies db`tokens
    ensures db.Valid()
    ensures found.None? ==> reply == Ok && db.tokens == old(db.tokens)
    ensures found.Some? ==>
      var user := db.users[found.value].id;
      var cleared := Invalidated(old(db.tokens), user);
      (UserSerializers.FindToken(cleared, key).Some? ==> reply == InternalError && db.tokens == cleared) &&
      (UserSerializers.FindToken(cleared, key).None? ==> reply == Ok && db.tokens == cleared + [Issued(key, user, now)])
  {
    if found.None? {
      return Ok;
    }
    reply := RenewToken(db, db.users[found.value].id, key, now);
  }

  /**
   * The part of ForgotPasswordView for an existing account `k`: its unused tokens are invalidated,
   * then a token under `key` is created, unless the key is taken (500, the invalidation kept).
   */
  method RenewToken(db: Database, user: UserId, key: string, now: int) returns (reply: Reply)
    requires db.Valid() && UserExists(db.users, user)
    modifies db`tokens
    ensures db.Valid()
    ensures
      var cleared := Invalidated(old(db.tokens), user);
      (UserSerializers.FindToken(cleared, key).Some? ==> reply == InternalError && db.tokens == cleared) &&
      (UserSerializers.FindToken(cleared, key).None? ==> reply == Ok && db.tokens == cleared + [Issued(key, user, now)])
  {
    InvalidatedKeepsTokens(db.tokens, db.users, user);
    db.tokens := Invalidated(db.tokens, user);
    if UserSerializers.FindToken(db.tokens, key).Some? {
      return InternalError;
    }
    IssueKeepsTokens(db.tokens, db.users, user, key, now);
    db.tokens := db.tokens + [Issued(key, user, now)];
    reply := Ok;
  }

  /** A token under an unused key for an existing account keeps the token table sound. */
  lemma IssueKeepsTokens(tokens: seq<ResetToken>, users: seq<User>, user: UserId, key: string, now: int)
    requires TokensValid(tokens, users) && UserExists(users, user) && UserSerializers.FindToken(tokens, key).None?
    ensures TokensValid(tokens + [Issued(key, user, now)], users)
  {
  }

  /** user.set_password on the account with this key. */
  function SetPassword(users: seq<User>, id: UserId, password: string): (r: seq<User>)
    ensures |r| == |users|
    ensures forall i :: 0 <= i < |r| ==> r[i] == users[i].(password := r[i].password)
    ensures forall i :: 0 <= i < |r| ==> r[i].password == if users[i].id == id then password else users[i].password
  {
    seq(|users|, i requires 0 <= i < |users| => if users[i].id == id then users[i].(password := password) else users[i])
  }

  /** A password change and a used token keep accounts and tokens sound. */
  lemma ResetKeepsTables(users: seq<User>, next: UserId, companies: map<CompanyId, VendorCompany>,
                         tokens: seq<ResetToken>, k: nat, password: string, now: int)
    requires UsersValid(users, next, companies) && TokensValid(tokens, users) && k < |tokens|
    ensures
      var after := SetPassword(users, tokens[k].user, password);
      UsersValid(after, next, companies) &&
      TokensValid(tokens[k := MarkAsUsed(tokens[k], now)], after)
  {
    var after := SetPassword(users, tokens[k].user, password);
    forall u | u in after ensures u.id < next && (u.company.Some? ==> u.company.value in companies) {
      var i :| 0 <= i < |after| && after[i] == u;
      assert users[i] in users;
    }
    var marked := tokens[k := MarkAsUsed(tokens[k], now)];
    forall t | t in marked ensures t.expiresAt.Some? && UserExists(after, t.user) {
      var i :| 0 <= i < |marked| && marked[i] == t;
      assert tokens[i] in tokens;
      var j :| 0 <= j < |users| && users[j].id == tokens[i].user;
      assert after[j].id == users[j].id;
    }
  }

  /**
   * ResetPasswordView.post: 400 on any serializer error; otherwise the token's account gets the new
   * password and the token is marked used (200).
   */
  method ResetPassword(db: Database, input: UserSerializers.ResetInput, now: int) returns (reply: Reply)
    requires db.Valid()
    modifies db`users, db`tokens
    ensures db.Valid()
    ensures UserSerializers.ValidateReset(old(db.tokens), input, now).Failure? ==>
      reply == BadRequest(InvalidInput) && db.users == old(db.users) && db.tokens == old(db.tokens)
    ensures UserSerializers.ValidateReset(old(db.tokens), input, now).Success? ==>
      var req := UserSerializers.ValidateReset(old(db.tokens), input, now).value;
      var t := old(db.tokens)[req.token];
      reply == Ok && db.tokens == old(db.tokens)[req.token := MarkAsUsed(t, now)] &&
      db.users == SetPassword(old(db.users), t.user, req.password)
  {
    var checked := UserSerializers.ValidateReset(db.tokens, input, now);
    if checked.Failure? {
      return BadRequest(InvalidInput);
    }
    ApplyReset(db, checked.value.token, checked.value.password, now);
    reply := Ok;
  }

  /** set_password on the token's account, then mark_as_used on the token. */
  method ApplyReset(db: Database, k: nat, password: string, now: int)
    requires db.Valid() && k < |db.tokens|
    modifies db`users, db`tokens
    ensures db.Valid()
    ensures db.tokens == old(db.tokens)[k := MarkAsUsed(old(db.tokens)[k], now)]
    ensures db.users == SetPassword(old(db.users), old(db.tokens)[k].user, password)
  {
    var t := db.tokens[k];
    ResetKeepsTables(db.users, db.nextUserId, db.companies, db.tokens, k, password, now);
    db.users := SetPassword(db.users, t.user, password);
    db.tokens := db.tokens[k := MarkAsUsed(t, now)];
  }

  /** A reset link works once: after it has been used, the same token is refused at any later time. */
  lemma ResetIsOneShot(tokens: seq<ResetToken>, users: seq<User>, k: nat, input: UserSerializers.ResetInput, now: int, later: int)
    requires TokensValid(tokens, users) && k < |tokens| && input.token == tokens[k].key
    ensures
      var after := tokens[k := MarkAsUsed(tokens[k], now)];
      (forall t :: t in after ==> t.expiresAt.Some?) &&
      UserSerializers.ValidateReset(after, input, later).Failure?
  {
    var after := tokens[k := MarkAsUsed(tokens[k], now)];
    forall t | t in after ensures t.expiresAt.Some? {
      var i :| 0 <= i < |after| && after[i] == t;
      assert tokens[i] in tokens;
    }
    var found := UserSerializers.FindToken(after, input.token);
    if found.Some? {
      assert found.value == k;
    }
  }
}
