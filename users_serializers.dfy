/**
 * users/serializers.py: registration (customer and vendor), the address and profile field
 * validators, and the forgot- and reset-password serializers. Every CharField strips its value
 * and refuses a blank one before any validate_<field> runs; field errors are reported together,
 * and validate() runs only when every field passed. E-mail syntax checks are not modelled.
 */
module UserSerializers {
  import opened Wrappers
  import opened Text
  import opened UserModels
  import opened AddressValidators
  import opened OrderModels
  import opened OrderSerializers

  /** A CharField without max_length: stripped, and refused when blank. */
  function Required(raw: string): (r: Result<string, FieldProblem>)
    ensures r.Success? <==> Strip(raw) != ""
    ensures r.Success? ==> r.value == Strip(raw)
  {
    if Strip(raw) == "" then Failure(Blank) else Success(Strip(raw))
  }

  /** A password CharField with min_length=8: the stripped value must have at least 8 characters. */
  function CleanPassword(raw: string): (r: Result<string, FieldProblem>)
    ensures r.Success? <==> |Strip(raw)| >= 8
    ensures r.Success? ==> r.value == Strip(raw)
  {
    var c := Required(raw);
    if c.Failure? then c else if |c.value| < 8 then Failure(TooShort) else c
  }

  /** True when some account already has exactly this e-mail (the lookups are case-sensitive). */
  predicate EmailTaken(users: seq<User>, email: string) {
    exists i :: 0 <= i < |users| && users[i].email == email
  }

  function FindEmail(users: seq<User>, email: string): (r: Option<nat>)
    ensures r.Some? ==> r.value < |users| && users[r.value].email == email
    ensures r.None? <==> !EmailTaken(users, email)
  {
    if users == [] then None
    else if users[|users| - 1].email == email then Some(|users| - 1)
    else
      var r := FindEmail(users[..|users| - 1], email);
      assert r.None? ==> forall i :: 0 <= i < |users| - 1 ==> users[..|users| - 1][i] == users[i];
      r
  }

  // ---- UserRegistrationSerializer ----

  datatype RegistrationInput = RegistrationInput(email: string, password: string, passwordConfirm: string)

  datatype RegistrationField = RegEmail | RegPassword | RegConfirm

  datatype RegistrationProblem = RegistrationFields(fields: set<RegistrationField>) | RegistrationMismatch

  /** What the registration accepted: the stripped e-mail and password. */
  datatype Credentials = Credentials(email: string, password: string)

  function RegistrationFlags(email: bool, password: bool, confirm: bool): (errors: set<RegistrationField>)
    ensures RegEmail in errors <==> email
    ensures RegPassword in errors <==> password
    ensures RegConfirm in errors <==> confirm
  {
    (if email then {RegEmail} else {}) + (if password then {RegPassword} else {}) + (if confirm then {RegConfirm} else {})
  }

  /**
   * UserRegistrationSerializer.is_valid: the model's e-mail field (at most 255, unique), the
   * password (at least 8) and its confirmation are checked together; then the two passwords must match.
   */
  function ValidateRegistration(users: seq<User>, input: RegistrationInput): (r: Result<Credentials, RegistrationProblem>)
    ensures r.Success? <==>
      Strip(input.email) != "" && |Strip(input.email)| <= 255 && !EmailTaken(users, Strip(input.email)) &&
      |Strip(input.password)| >= 8 && Strip(input.password) == Strip(input.passwordConfirm)
    ensures r.Success? ==> r.value == Credentials(Strip(input.email), Strip(input.password))
    ensures EmailTaken(users, Strip(input.email)) ==> r.Failure? && r.error.RegistrationFields? && RegEmail in r.error.fields
    ensures r == Failure(RegistrationMismatch) <==>
      CharInput(input.email, 255).Success? && !EmailTaken(users, Strip(input.email)) &&
      |Strip(input.password)| >= 8 && Strip(input.passwordConfirm) != "" && Strip(input.password) != Strip(input.passwordConfirm)
  {
    var email := CharInput(input.email, 255);
    var emailBad := email.Failure? || EmailTaken(users, email.value);
    var password := CleanPassword(input.password);
    var confirm := Required(input.passwordConfirm);
    var errors := RegistrationFlags(emailBad, password.Failure?, confirm.Failure?);
    if errors != {} then Failure(RegistrationFields(errors))
    else if password.value != confirm.value then Failure(RegistrationMismatch)
    else Success(Credentials(email.value, password.value))
  }

  /** UserRegistrationSerializer.create: a customer account (model defaults) with the accepted credentials. */
  function NewCustomer(id: UserId, c: Credentials): (u: User)
    ensures u.id == id && u.email == c.email && u.password == c.password
    ensures u.role == Customer && u.company.None? && u.isActive && !u.isStaff && !u.isSuperuser
  {
    User(id, c.email, c.password, Customer, None, true, false, false)
  }

  // ---- VendorRegistrationSerializer ----

  datatype VendorInput = VendorInput(email: string, password: string, passwordConfirm: string, companyId: int, accessCode: string)

  datatype VendorField = VendorEmail | VendorPassword | VendorConfirm | VendorAccessCode

  /** The field errors, then the checks of validate() in the order it makes them. */
  datatype VendorProblem = VendorFields(fields: set<VendorField>) | VendorMismatch | UnknownCompany | WrongAccessCode | VendorEmailTaken

  datatype VendorRegistration = VendorRegistration(email: string, password: string, company: CompanyId)

  function VendorFlags(email: bool, password: bool, confirm: bool, code: bool): (errors: set<VendorField>)
    ensures VendorEmail in errors <==> email
    ensures VendorPassword in errors <==> password
    ensures VendorConfirm in errors <==> confirm
    ensures VendorAccessCode in errors <==> code
  {
    (if email then {VendorEmail} else {}) + (if password then {VendorPassword} else {}) +
    (if confirm then {VendorConfirm} else {}) + (if code then {VendorAccessCode} else {})
  }

  /** VendorCompany.objects.get(id=..., is_active=True) succeeds. */
  predicate ActiveCompany(companies: map<CompanyId, VendorCompany>, id: int) {
    id >= 0 && id in companies && companies[id].isActive
  }

  /**
   * VendorRegistrationSerializer.is_valid: field checks (e-mail, password of at least 8, its
   * confirmation, an access code of at most 100), then the passwords must match, the company must
   * exist and be active, the access code must be the company's, and the e-mail must be unused,
   * each check reached only when the previous one passed.
   */
  function ValidateVendor(users: seq<User>, companies: map<CompanyId, VendorCompany>, input: VendorInput): (r: Result<VendorRegistration, VendorProblem>)
    ensures r.Success? <==>
      Strip(input.email) != "" && |Strip(input.password)| >= 8 && Strip(input.password) == Strip(input.passwordConfirm) &&
      CharInput(input.accessCode, 100).Success? && ActiveCompany(companies, input.companyId) &&
      VerifyAccessCode(companies[input.companyId], Strip(input.accessCode)) && !EmailTaken(users, Strip(input.email))
    ensures r.Success? ==>
      r.value == VendorRegistration(Strip(input.email), Strip(input.password), input.companyId)
    ensures r.Failure? && !r.error.VendorFields? ==>
      Strip(input.email) != "" && |Strip(input.password)| >= 8 && Strip(input.passwordConfirm) != "" && CharInput(input.accessCode, 100).Success?
    ensures r == Failure(VendorMismatch) ==> Strip(input.password) != Strip(input.passwordConfirm)
    ensures r == Failure(UnknownCompany) ==> Strip(input.password) == Strip(input.passwordConfirm) && !ActiveCompany(companies, input.companyId)
    ensures r == Failure(WrongAccessCode) ==>
      Strip(input.password) == Strip(input.passwordConfirm) &&
      ActiveCompany(companies, input.companyId) && companies[input.companyId].accessCode != Strip(input.accessCode)
    ensures r == Failure(VendorEmailTaken) ==>
      Strip(input.password) == Strip(input.passwordConfirm) &&
      ActiveCompany(companies, input.companyId) && companies[input.companyId].accessCode == Strip(input.accessCode) &&
      EmailTaken(users, Strip(input.email))
  {
    var email := Required(input.email);
    var password := CleanPassword(input.password);
    var confirm := Required(input.passwordConfirm);
    var code := CharInput(input.accessCode, 100);
    var errors := VendorFlags(email.Failure?, password.Failure?, confirm.Failure?, code.Failure?);
    if errors != {} then Failure(VendorFields(errors))
    else if password.value != confirm.value then Failure(VendorMismatch)
    else if !ActiveCompany(companies, input.companyId) then Failure(UnknownCompany)
    else if !VerifyAccessCode(companies[input.companyId], code.value) then Failure(WrongAccessCode)
    else if EmailTaken(users, email.value) then Failure(VendorEmailTaken)
    else Success(VendorRegistration(email.value, password.value, input.companyId))
  }

  /** VendorRegistrationSerializer.create: a vendor account attached to the verified company. */
  function NewVendor(id: UserId, reg: VendorRegistration): (u: User)
    ensures u.id == id && u.email == reg.email && u.password == reg.password
    ensures u.role == Vendor && u.company == Some(reg.company) && u.isActive && !u.isStaff && !u.isSuperuser
  {
    User(id, reg.email, reg.password, Vendor, Some(reg.company), true, false, false)
  }

  /** Whatever the company, an access code other than its own never registers a vendor. */
  lemma WrongCodeNeverRegisters(users: seq<User>, companies: map<CompanyId, VendorCompany>, input: VendorInput)
    requires ActiveCompany(companies, input.companyId) && companies[input.companyId].accessCode != Strip(input.accessCode)
    ensures ValidateVendor(users, companies, input).Failure?
  {
  }

  // ---- AddressSerializer and UserProfileSerializer ----

  /**
   * AddressSerializer's recipient name: the CharField (max_length 200, on the stripped value), then
   * validate_recipient_name, whose own length check sees the stripped value again.
   */
  function CleanRecipientName(raw: string): (r: Result<string, FieldProblem>)
    ensures r.Success? <==> 2 <= |Strip(raw)| <= 200
    ensures r.Success? ==> r.value == Strip(raw)
  {
    var c := CharInput(raw, 200);
    if c.Failure? then c
    else
      StripIdempotent(raw);
      ValidateRecipientName(c.value)
  }

  /**
   * The address serializers of the two apps accept the same recipient names: the extra
   * 200-character check of validate_recipient_name can never fail after the field's own max_length.
   */
  lemma RecipientNameChecksAgree(raw: string)
    ensures CleanRecipientName(raw).Success? <==> CleanText(raw, 200, 2).Success?
    ensures CleanRecipientName(raw).Success? ==> CleanRecipientName(raw) == CleanText(raw, 200, 2)
  {
  }

  /**
   * AddressSerializer.is_valid for a new address: the recipient name through its own validator, the
   * other fields with the same limits and validators as the guest delivery address; so an address a
   * customer saves and one a guest types in are held to exactly the same rules.
   */
  function ValidateAddress(input: AddressInput): (r: Result<DeliveryAddress, set<AddressField>>)
    ensures r == ValidateGuestAddress(input)
  {
    var name := CleanRecipientName(input.recipientName);
    var errors := Flagged(name.Failure?, CleanText(input.street, 255, 3).Failure?, CleanPostal(input.postalCode).Failure?,
                          CleanText(input.city, 100, 2).Failure?, CleanCountry(input.country).Failure?, CleanPhone(input.phone).Failure?);
    RecipientNameChecksAgree(input.recipientName);
    if errors != {} then Failure(errors)
    else
      Success(DeliveryAddress(name.value, CleanText(input.street, 255, 3).value, CleanPostal(input.postalCode).value,
                              CleanText(input.city, 100, 2).value, CleanCountry(input.country).value, CleanPhone(input.phone).value))
  }

  /**
   * UserProfileSerializer's phone: the model field allows blank, so an empty (or all-space) value is
   * kept as the empty string; anything else must have at most 20 characters and pass validate_phone
   * as written.
   */
  function CleanProfilePhone(raw: string): (r: Result<string, FieldProblem>)
    ensures Strip(raw) == "" ==> r == Success("")
    ensures Strip(raw) != "" ==> (r.Success? <==> |Strip(raw)| <= 20 && PhonePattern(Strip(raw)) && 9 <= |PhoneCleaned(Strip(raw))| <= 15)
    ensures r.Success? ==> r.value == Strip(raw)
  {
    var v := Strip(raw);
    if v == "" then Success("")
    else if |v| > 20 then Failure(TooLong)
    else PhoneAsWritten(v)
  }

  // ---- ForgotPasswordSerializer ----

  /** ForgotPasswordSerializer: the e-mail field (stripped, not blank), then validate_email's lower().strip(). */
  function NormalizeResetEmail(raw: string): (r: Result<string, FieldProblem>)
    ensures r.Success? <==> Strip(raw) != ""
    ensures r.Success? ==> r.value == Lower(Strip(raw)) && r.value != ""
  {
    var v := Strip(raw);
    if v == "" then Failure(Blank)
    else
      StripOfTrimmed(Lower(v));
      Success(Strip(Lower(v)))
  }

  /** A normalised address is its own normal form. */
  lemma NormalizeResetEmailIdempotent(raw: string)
    requires NormalizeResetEmail(raw).Success?
    ensures NormalizeResetEmail(NormalizeResetEmail(raw).value) == NormalizeResetEmail(raw)
  {
    var v := NormalizeResetEmail(raw).value;
    StripOfTrimmed(v);
    assert forall c :: c in v ==> LowerChar(c) == c by {
      forall c | c in v ensures LowerChar(c) == c {
        var i :| 0 <= i < |v| && v[i] == c;
      }
    }
    LowerOfLowered(v);
  }

  // ---- ResetPasswordSerializer ----

  datatype ResetInput = ResetInput(token: string, password: string, passwordConfirm: string)

  datatype ResetField = ResetToken | ResetPassword | ResetConfirm

  /** The field errors, then the checks of validate() in the order it makes them. */
  datatype ResetProblem = ResetFields(fields: set<ResetField>) | ResetMismatch | UnknownToken | TokenUsed | TokenExpired

  datatype ResetRequest = ResetRequest(token: nat, password: string)

  function ResetFlags(token: bool, password: bool, confirm: bool): (errors: set<ResetField>)
    ensures ResetField.ResetToken in errors <==> token
    ensures ResetField.ResetPassword in errors <==> password
    ensures ResetConfirm in errors <==> confirm
  {
    (if token then {ResetField.ResetToken} else {}) + (if password then {ResetField.ResetPassword} else {}) +
    (if confirm then {ResetConfirm} else {})
  }

  /** PasswordResetToken.objects.get(token=...): the index of the token with that value. */
  function FindToken(tokens: seq<UserModels.ResetToken>, key: string): (r: Option<nat>)
    ensures r.Some? ==> r.value < |tokens| && tokens[r.value].key == key
    ensures r.None? ==> forall i :: 0 <= i < |tokens| ==> tokens[i].key != key
  {
    if tokens == [] then None
    else if tokens[|tokens| - 1].key == key then Some(|tokens| - 1)
    else FindToken(tokens[..|tokens| - 1], key)
  }

  /**
   * ResetPasswordSerializer.is_valid at time `now`: the token (an empty one is not a UUID), the
   * password (at least 8 once stripped; validate_password's own check of 8 then always passes) and
   * its confirmation; then the passwords must match, the token must exist, and it must be valid,
   * a used one being reported as used and an unused one as expired.
   */
  function ValidateReset(tokens: seq<UserModels.ResetToken>, input: ResetInput, now: int): (r: Result<ResetRequest, ResetProblem>)
    requires forall t :: t in tokens ==> t.expiresAt.Some?
    ensures r.Success? ==>
      r.value.token < |tokens| && tokens[r.value.token].key == input.token &&
      IsValid(tokens[r.value.token], now) && r.value.password == Strip(input.password) && |r.value.password| >= 8
    ensures r.Success? <==>
      input.token != "" && |Strip(input.password)| >= 8 &&
      Strip(input.password) == Strip(input.passwordConfirm) && FindToken(tokens, input.token).Some? &&
      IsValid(tokens[FindToken(tokens, input.token).value], now)
    ensures r == Failure(TokenUsed) <==>
      input.token != "" && |Strip(input.password)| >= 8 &&
      Strip(input.password) == Strip(input.passwordConfirm) && FindToken(tokens, input.token).Some? &&
      tokens[FindToken(tokens, input.token).value].isUsed
    ensures r == Failure(TokenExpired) ==>
      FindToken(tokens, input.token).Some? &&
      !tokens[FindToken(tokens, input.token).value].isUsed && now >= tokens[FindToken(tokens, input.token).value].expiresAt.value
  {
    var password := CleanPassword(input.password);
    var confirm := Required(input.passwordConfirm);
    var errors := ResetFlags(input.token == "", password.Failure?, confirm.Failure?);
    if errors != {} then Failure(ResetFields(errors))
    else if password.value != confirm.value then Failure(ResetMismatch)
    else
      var found := FindToken(tokens, input.token);
      if found.None? then Failure(UnknownToken)
      else
        var t := tokens[found.value];
        assert t in tokens;
        if !IsValid(t, now) then (if t.isUsed then Failure(TokenUsed) else Failure(TokenExpired))
        else Success(ResetRequest(found.value, password.value))
  }
}
