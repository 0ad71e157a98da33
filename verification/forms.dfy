/** The three-step form: per-step validation with its patterns, step
    navigation, the file-size check and the submission sequence. */
module Forms {
  import Text
  import Chaos
  import opened Wrappers

  /** The form fields; `fileSize` stands for the chosen file. */
  datatype FormData = FormData(
    firstName: string,
    lastName: string,
    email: string,
    phone: string,
    address: string,
    city: string,
    postalCode: string,
    country: string,
    hasCompany: bool,
    companyName: string,
    companyVAT: string,
    hasFile: bool,
    fileSize: Option<nat>)

  const EmptyForm: FormData := FormData("", "", "", "", "", "", "", "", false, "", "", false, None)

  /** Field name to error message. */
  type Errors = map<string, string>

  type FormStep = s: int | 1 <= s <= 3 witness 1

  // ------------------------------------------------------------- patterns

  /** A match of `\S+@\S+\.\S+` with its `@` at `at` and its `.` at `dot`:
      the shortest match takes one non-space before `@` and one after `.`. */
  predicate EmailAt(s: string, at: int, dot: int) {
    && 0 < at && at + 1 < dot && dot + 1 < |s|
    && s[at] == '@' && s[dot] == '.'
    && !Text.IsSpace(s[at - 1]) && !Text.IsSpace(s[dot + 1])
    && forall k :: at < k < dot ==> !Text.IsSpace(s[k])
  }

  /** `/\S+@\S+\.\S+/.test(s)`: the pattern is unanchored. */
  predicate EmailLike(s: string) {
    exists at, dot | 0 <= at < |s| && 0 <= dot < |s| :: EmailAt(s, at, dot)
  }

  /** A single left-to-right scan deciding `EmailLike`: for each `@` preceded
      by a non-space, walk the non-space run after it looking for a `.` that
      is followed by a non-space. */
  method MatchEmail(s: string) returns (b: bool)
    ensures b == EmailLike(s)
  {
    var at := 1;
    while at < |s|
      invariant 1 <= at <= |s| || |s| == 0
      invariant forall a, d :: 0 <= a < at && 0 <= d < |s| ==> !EmailAt(s, a, d)
    {
      if s[at] == '@' && !Text.IsSpace(s[at - 1]) {
        var dot := at + 1;
        while dot + 1 < |s| && !Text.IsSpace(s[dot])
          invariant at + 1 <= dot <= |s|
          invariant forall k :: at < k < dot ==> !Text.IsSpace(s[k])
          invariant forall d :: 0 <= d < dot ==> !EmailAt(s, at, d)
        {
          if dot > at + 1 && s[dot] == '.' && !Text.IsSpace(s[dot + 1]) {
            assert EmailAt(s, at, dot);
            return true;
          }
          dot := dot + 1;
        }
        forall d | 0 <= d < |s| ensures !EmailAt(s, at, d) {
          if d >= dot && dot + 1 < |s| {
            assert Text.IsSpace(s[dot]);
          }
        }
      }
      at := at + 1;
    }
    return false;
  }

  predicate PhoneChar(c: char) {
    Text.IsAsciiDigit(c) || c == '+' || c == '-' || c == '(' || c == ')' || Text.IsSpace(c)
  }

  /** `/^[0-9+\-\s()]+$/.test(s)`. */
  predicate PhoneLike(s: string) {
    |s| > 0 && forall i :: 0 <= i < |s| ==> PhoneChar(s[i])
  }

  /** `/^\d{5}$/.test(s)`. */
  predicate PostalLike(s: string) {
    |s| == 5 && forall i :: 0 <= i < |s| ==> Text.IsAsciiDigit(s[i])
  }

  /** `/^[A-Z]{2}\d+$/.test(s)`. */
  predicate VatLike(s: string) {
    && |s| >= 3
    && Text.IsAsciiUpper(s[0]) && Text.IsAsciiUpper(s[1])
    && forall i :: 2 <= i < |s| ==> Text.IsAsciiDigit(s[i])
  }

  // ----------------------------------------------------------- validation

  const FirstNameRequired: string := "Le prénom est requis"
  const LastNameRequired: string := "Le nom est requis"
  const EmailRequired: string := "L'email est requis"
  const EmailInvalid: string := "Email invalide"
  const PhoneRequired: string := "Le téléphone est requis"
  const PhoneInvalid: string := "Format de téléphone invalide"
  const AddressRequired: string := "L'adresse est requise"
  const CityRequired: string := "La ville est requise"
  const PostalRequired: string := "Le code postal est requis"
  const PostalInvalid: string := "Code postal invalide (5 chiffres)"
  const CountryRequired: string := "Le pays est requis"
  const CompanyRequired: string := "Le nom de l'entreprise est requis"
  const VatInvalid: string := "Format TVA invalide (ex: FR12345678901)"
  const FileTooLarge: string := "Le fichier ne doit pas dépasser 5MB"

  /** Adds `key: message` when `failed`. */
  function Flag(errors: Errors, failed: bool, key: string, message: string): (r: Errors)
    ensures failed ==> r == errors[key := message]
    ensures !failed ==> r == errors
  {
    if failed then errors[key := message] else errors
  }

  function ValidatePersonal(d: FormData): (r: Errors)
    ensures r.Keys <= {"firstName", "lastName", "email", "phone"}
    ensures "firstName" in r <==> d.firstName == ""
    ensures "lastName" in r <==> d.lastName == ""
    ensures "email" in r <==> d.email == "" || !EmailLike(d.email)
    ensures "phone" in r <==> d.phone == "" || !PhoneLike(d.phone)
    ensures "email" in r ==> r["email"] == if d.email == "" then EmailRequired else EmailInvalid
    ensures "phone" in r ==> r["phone"] == if d.phone == "" then PhoneRequired else PhoneInvalid
    ensures "firstName" in r ==> r["firstName"] == FirstNameRequired
    ensures "lastName" in r ==> r["lastName"] == LastNameRequired
  {
    var e := Flag(map[], d.firstName == "", "firstName", FirstNameRequired);
    var e := Flag(e, d.lastName == "", "lastName", LastNameRequired);
    var e := if d.email == "" then e["email" := EmailRequired]
             else Flag(e, !EmailLike(d.email), "email", EmailInvalid);
    if d.phone == "" then e["phone" := PhoneRequired]
    else Flag(e, !PhoneLike(d.phone), "phone", PhoneInvalid)
  }

  function ValidateAddress(d: FormData): (r: Errors)
    ensures r.Keys <= {"address", "city", "postalCode", "country"}
    ensures "address" in r <==> d.address == ""
    ensures "city" in r <==> d.city == ""
    ensures "postalCode" in r <==> !PostalLike(d.postalCode)
    ensures "country" in r <==> d.country == ""
    ensures "postalCode" in r ==> r["postalCode"] == if d.postalCode == "" then PostalRequired else PostalInvalid
    ensures "address" in r ==> r["address"] == AddressRequired
    ensures "city" in r ==> r["city"] == CityRequired
    ensures "country" in r ==> r["country"] == CountryRequired
  {
    var e := Flag(map[], d.address == "", "address", AddressRequired);
    var e := Flag(e, d.city == "", "city", CityRequired);
    var e := if d.postalCode == "" then e["postalCode" := PostalRequired]
             else Flag(e, !PostalLike(d.postalCode), "postalCode", PostalInvalid);
    Flag(e, d.country == "", "country", CountryRequired)
  }

  /** Company checks apply only when the company box is ticked; an empty VAT
      number is accepted. */
  function ValidateCompany(d: FormData): (r: Errors)
    ensures r.Keys <= {"companyName", "companyVAT"}
    ensures "companyName" in r <==> d.hasCompany && d.companyName == ""
    ensures "companyVAT" in r <==> d.hasCompany && d.companyVAT != "" && !VatLike(d.companyVAT)
    ensures "companyName" in r ==> r["companyName"] == CompanyRequired
    ensures "companyVAT" in r ==> r["companyVAT"] == VatInvalid
  {
    var e := Flag(map[], d.hasCompany && d.companyName == "", "companyName", CompanyRequired);
    Flag(e, d.hasCompany && d.companyVAT != "" && !VatLike(d.companyVAT), "companyVAT", VatInvalid)
  }

  /** What each step demands of the fields, stated without error maps. */
  predicate PersonalOk(d: FormData) {
    d.firstName != "" && d.lastName != "" && d.email != "" && EmailLike(d.email)
    && d.phone != "" && PhoneLike(d.phone)
  }

  predicate AddressOk(d: FormData) {
    d.address != "" && d.city != "" && PostalLike(d.postalCode) && d.country != ""
  }

  predicate CompanyOk(d: FormData) {
    d.hasCompany ==> d.companyName != "" && (d.companyVAT == "" || VatLike(d.companyVAT))
  }

  /** `validateStep`: the new error map, valid when it is empty. */
  function ValidateStep(step: FormStep, d: FormData): (r: Errors)
    ensures step == 1 ==> r == ValidatePersonal(d)
    ensures step == 2 ==> r == ValidateAddress(d)
    ensures step == 3 ==> r == ValidateCompany(d)
    ensures |r| == 0 <==> if step == 1 then PersonalOk(d) else if step == 2 then AddressOk(d) else CompanyOk(d)
  {
    if step == 1 then
      var r := ValidatePersonal(d);
      assert |r| == 0 <==> r.Keys == {};
      r
    else if step == 2 then
      var r := ValidateAddress(d);
      assert |r| == 0 <==> r.Keys == {};
      r
    else
      var r := ValidateCompany(d);
      assert |r| == 0 <==> r.Keys == {};
      r
  }

  predicate StepValid(step: FormStep, d: FormData) {
    |ValidateStep(step, d)| == 0
  }

  /** A valid first step has a non-empty name and an address of at least
      five characters with an `@` followed later by a `.`. */
  lemma PersonalValidMeans(d: FormData)
    requires StepValid(1, d)
    ensures d.firstName != "" && d.lastName != "" && d.phone != ""
    ensures |d.email| >= 5
    ensures exists at, dot | 0 <= at < |d.email| && 0 <= dot < |d.email| ::
              at < dot && d.email[at] == '@' && d.email[dot] == '.'
  {
    var r := ValidatePersonal(d);
    assert "email" !in r;
    var at, dot :| 0 <= at < |d.email| && 0 <= dot < |d.email| && EmailAt(d.email, at, dot);
    assert at < dot && d.email[at] == '@' && d.email[dot] == '.';
  }

  /** A valid second step has a postal code that reads as a number below
      100000. */
  lemma AddressValidMeans(d: FormData)
    requires StepValid(2, d)
    ensures PostalLike(d.postalCode)
    ensures Text.ParseDigits(d.postalCode) < 100000
  {
    var r := ValidateAddress(d);
    assert "postalCode" !in r;
    ParseDigitsBound(d.postalCode);
  }

  function Pow10(n: nat): (p: nat)
    ensures p >= 1
  {
    if n == 0 then 1 else 10 * Pow10(n - 1)
  }

  /** A string of n digits reads as a number below 10^n. */
  lemma {:induction false} ParseDigitsBound(s: string)
    requires forall i :: 0 <= i < |s| ==> Text.IsAsciiDigit(s[i])
    ensures Text.ParseDigits(s) < Pow10(|s|)
  {
    if |s| > 0 {
      ParseDigitsBound(s[..|s| - 1]);
    }
  }

  /** Without a company the third step always passes. */
  lemma CompanyOptional(d: FormData)
    requires !d.hasCompany
    ensures StepValid(3, d)
  {
    assert ValidateCompany(d).Keys == {};
  }

  // ----------------------------------------------------------- navigation

  /** `handleNext`: the step advances, up to 3, only when the current step
      validates; the errors shown are replaced by the step's errors. */
  function HandleNext(step: FormStep, d: FormData): (r: (FormStep, Errors))
    ensures r.1 == ValidateStep(step, d)
    ensures StepValid(step, d) && step < 3 ==> r.0 == step + 1
    ensures !StepValid(step, d) || step == 3 ==> r.0 == step
  {
    var errors := ValidateStep(step, d);
    if |errors| == 0 then (if step + 1 > 3 then 3 else step + 1, errors) else (step, errors)
  }

  /** `handlePrevious`: back one step, never below 1. */
  function HandlePrevious(step: FormStep): (r: FormStep)
    ensures step > 1 ==> r == step - 1
    ensures step == 1 ==> r == 1
  {
    if step - 1 < 1 then 1 else step - 1
  }

  /** Going back after a successful "next" returns to the same step. */
  lemma PreviousUndoesNext(step: FormStep, d: FormData)
    requires StepValid(step, d) && step < 3
    ensures HandlePrevious(HandleNext(step, d).0) == step
  {
  }

  // ----------------------------------------------------------------- file

  const MaxFileSize: nat := 5 * 1024 * 1024

  /** `handleFileChange`: no file changes nothing; a file over 5 MiB only sets
      the file error; otherwise the file is kept and its error cleared. */
  function HandleFileChange(d: FormData, errors: Errors, fileSize: Option<nat>): (r: (FormData, Errors))
    ensures fileSize.None? ==> r == (d, errors)
    // Only the file fields of the form and the file error can change.
    ensures r.0 == d.(fileSize := r.0.fileSize, hasFile := r.0.hasFile)
    ensures forall k :: k in r.1 && k != "file" <==> k in errors && k != "file"
    ensures forall k :: k in r.1 && k != "file" ==> r.1[k] == errors[k]
    // A chosen file is stored exactly when it is within the limit; the file
    // error then names the size exactly when it is over.
    ensures fileSize.Some? ==> "file" in r.1 && (r.1["file"] == FileTooLarge <==> fileSize.value > MaxFileSize)
    ensures fileSize.Some? && fileSize.value <= MaxFileSize ==> r.0.fileSize == fileSize && r.0.hasFile
    ensures r.0.fileSize != d.fileSize ==> r.0.fileSize == fileSize && fileSize.value <= MaxFileSize
    ensures fileSize.Some? && fileSize.value > MaxFileSize ==> r.0 == d
  {
    match fileSize
    case None => (d, errors)
    case Some(size) =>
      if size > MaxFileSize then (d, errors["file" := FileTooLarge])
      else (d.(fileSize := fileSize, hasFile := true), errors["file" := ""])
  }

  /** A form whose stored file, if any, is within 5 MiB keeps that property
      through every file change. */
  lemma FileChangeKeepsLimit(d: FormData, errors: Errors, fileSize: Option<nat>)
    requires d.fileSize.None? || d.fileSize.value <= MaxFileSize
    ensures var f := HandleFileChange(d, errors, fileSize).0.fileSize;
            f.None? || f.value <= MaxFileSize
  {
  }

  /** The file's presence never decides a step's validity. */
  lemma FileIrrelevantToValidation(step: FormStep, d: FormData, errors: Errors, fileSize: Option<nat>)
    ensures ValidateStep(step, HandleFileChange(d, errors, fileSize).0) == ValidateStep(step, d)
  {
  }

  // --------------------------------------------------------------- submit

  /** The fixed pause after the chaos wait. */
  const SendMs: real := 1000.0

  datatype Submit = Rejected(errors: Errors) | Sent(wait: Chaos.Wait, sendMs: real)

  /** `handleSubmit`: step 3 must validate; then the chaos wait at index 1 and
      the fixed one-second send. */
  function HandleSubmit(unit: Chaos.UnitMap, cfg: Chaos.ChaosConfig, d: FormData): (r: Submit)
    ensures r.Rejected? <==> !StepValid(3, d)
    ensures r.Rejected? ==> r.errors == ValidateCompany(d)
    ensures r.Sent? ==> r.wait == Chaos.SimulateNetworkDelay(unit, cfg.seed, cfg, 1) && r.sendMs == SendMs
  {
    var errors := ValidateStep(3, d);
    if |errors| == 0 then Sent(Chaos.SimulateNetworkDelay(unit, cfg.seed, cfg, 1), SendMs)
    else Rejected(errors)
  }
}
