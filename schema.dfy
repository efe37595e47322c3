/**
 * The input schema of the bid form and the response record of the letter
 * generator (src/app/schema.ts).
 *
 * The input schema is a table of per-field rules (`Issues`); `Validate` runs
 * every rule, as a Zod object schema does, and either builds the typed
 * `BidRequest` or reports, under each failing field's name, the list of its
 * messages (the `fieldErrors` of a flattened Zod error).
 *
 * Two conversions happen before a rule sees a value and are not visible in
 * the repository: JavaScript's `Number(...)` behind `z.coerce.number()`, and
 * `new Date(...)` on the due date. The first is the parameter `coerce`; the
 * second has already produced the `JsDate` held in the input.
 */
module BidSchema {
  import opened Wrappers
  import opened JsText

  /** The fields of the input schema, in the order the schema declares them. */
  datatype Field =
    | ClientName | ProjectName | AgencyName | CreativeSynopsis | ShootDays
    | ShootLocations | KeyDeliverables | TotalBudget | BidDueDate | Assumptions
    | ContactName | ContactRole | CompanyName

  const Fields: seq<Field> :=
    [ClientName, ProjectName, AgencyName, CreativeSynopsis, ShootDays,
     ShootLocations, KeyDeliverables, TotalBudget, BidDueDate, Assumptions,
     ContactName, ContactRole, CompanyName]

  /** The property name of each field, which is also its key in the form data
      and in the reported field errors. */
  function Key(f: Field): string {
    match f
    case ClientName => "clientName"
    case ProjectName => "projectName"
    case AgencyName => "agencyName"
    case CreativeSynopsis => "creativeSynopsis"
    case ShootDays => "shootDays"
    case ShootLocations => "shootLocations"
    case KeyDeliverables => "keyDeliverables"
    case TotalBudget => "totalBudget"
    case BidDueDate => "bidDueDate"
    case Assumptions => "assumptions"
    case ContactName => "contactName"
    case ContactRole => "contactRole"
    case CompanyName => "companyName"
  }

  /** A JavaScript number as `z.coerce.number()` can produce it. The value of
      a finite number is kept as an exact real. */
  datatype JsNumber = NaN | Finite(value: real) | PositiveInfinity | NegativeInfinity

  /** `Number.isInteger`. */
  predicate IsInteger(x: JsNumber) {
    x.Finite? && x.value.Floor as real == x.value
  }

  /** `x > 0`. */
  predicate IsPositive(x: JsNumber) {
    (x.Finite? && x.value > 0.0) || x.PositiveInfinity?
  }

  /** A JavaScript `Date`: a time value in milliseconds, or an invalid date. */
  datatype JsDate = ValidDate(time: int) | InvalidDate

  /** Messages that Zod supplies itself when the schema gives none. Their
      wording belongs to Zod, not to this repository. */
  datatype DefaultIssue = Required | InvalidType | NotInteger | InvalidDateValue

  /** One entry of a field's message list. */
  datatype Message = Literal(text: string) | ZodDefault(issue: DefaultIssue)

  /** The literal messages of the schema. */
  const ClientNameMessage: string := "Client name is required."
  const ProjectNameMessage: string := "Project name is required."
  const SynopsisMessage: string := "Synopsis must be at least 20 characters."
  const ShootDaysMessage: string := "Must be a positive number."
  const LocationsMessage: string := "Locations are required."
  const DeliverablesMessage: string := "Deliverables are required."
  const BudgetMessage: string := "Budget must be a positive number."
  const DueDateMessage: string := "A bid due date is required."
  const AssumptionsMessage: string := "Please list at least one assumption."
  const ContactNameMessage: string := "Your name is required."
  const ContactRoleMessage: string := "Your role is required."
  const CompanyNameMessage: string := "Your company name is required."

  /** What the schema is given: the string entries of the form, and the due
      date that replaces whatever string the form held under `bidDueDate`. */
  datatype ValidationInput = ValidationInput(fields: map<string, string>, bidDueDate: Option<JsDate>)

  /** `Number(v)` where the entry may be missing: `Number(undefined)` is NaN. */
  function CoerceEntry(fields: map<string, string>, key: string, coerce: string -> JsNumber): JsNumber {
    if key in fields then coerce(fields[key]) else NaN
  }

  /** `fields[key]`, or nothing when the form had no such string entry. */
  function Lookup(fields: map<string, string>, key: string): Option<string> {
    if key in fields then Some(fields[key]) else None
  }

  /** `z.string().min(min, { message })`: a missing value is Zod's "required"
      type error; a present one must have `min` UTF-16 code units. */
  function StringIssues(v: Option<string>, min: nat, message: string): (r: seq<Message>)
    ensures r == [] <==> v.Some? && Utf16Length(v.value) >= min
    ensures v.None? ==> r == [ZodDefault(Required)]
    ensures v.Some? && Utf16Length(v.value) < min ==> r == [Literal(message)]
  {
    if v.None? then [ZodDefault(Required)]
    else if Utf16Length(v.value) < min then [Literal(message)]
    else []
  }

  /** `z.coerce.number().int().positive({ message })` after coercion: NaN is
      a type error alone, otherwise each failed check adds its message. */
  function IntegerIssues(x: JsNumber, message: string): (r: seq<Message>)
    ensures r == [] <==> IsInteger(x) && IsPositive(x)
    ensures x.NaN? ==> r == [ZodDefault(InvalidType)]
    ensures !x.NaN? && !IsInteger(x) && !IsPositive(x) ==> r == [ZodDefault(NotInteger), Literal(message)]
    ensures IsInteger(x) && !IsPositive(x) ==> r == [Literal(message)]
    ensures !x.NaN? && !IsInteger(x) && IsPositive(x) ==> r == [ZodDefault(NotInteger)]
  {
    if x.NaN? then [ZodDefault(InvalidType)]
    else (if IsInteger(x) then [] else [ZodDefault(NotInteger)])
         + (if IsPositive(x) then [] else [Literal(message)])
  }

  /** `z.coerce.number().positive({ message })` after coercion. */
  function NumberIssues(x: JsNumber, message: string): (r: seq<Message>)
    ensures r == [] <==> IsPositive(x)
    ensures x.NaN? ==> r == [ZodDefault(InvalidType)]
    ensures !x.NaN? && !IsPositive(x) ==> r == [Literal(message)]
  {
    if x.NaN? then [ZodDefault(InvalidType)]
    else if IsPositive(x) then [] else [Literal(message)]
  }

  /** `z.date({ required_error: message })`. */
  function DateIssues(d: Option<JsDate>, message: string): (r: seq<Message>)
    ensures r == [] <==> d.Some? && d.value.ValidDate?
    ensures d.None? ==> r == [Literal(message)]
    ensures d == Some(InvalidDate) ==> r == [ZodDefault(InvalidDateValue)]
  {
    match d
    case None => [Literal(message)]
    case Some(InvalidDate) => [ZodDefault(InvalidDateValue)]
    case Some(ValidDate(_)) => []
  }

  /** The schema itself: the messages each field produces, empty when the
      field is accepted. */
  function Issues(f: Field, input: ValidationInput, coerce: string -> JsNumber): (r: seq<Message>)
    ensures |r| <= 2
    ensures |r| == 2 ==> f == ShootDays
    ensures f == AgencyName ==> r == []
  {
    var m := input.fields;
    match f
    case ClientName => StringIssues(Lookup(m, "clientName"), 2, ClientNameMessage)
    case ProjectName => StringIssues(Lookup(m, "projectName"), 2, ProjectNameMessage)
    case AgencyName => []  // z.string().optional(): every form value is a string
    case CreativeSynopsis => StringIssues(Lookup(m, "creativeSynopsis"), 20, SynopsisMessage)
    case ShootDays => IntegerIssues(CoerceEntry(m, "shootDays", coerce), ShootDaysMessage)
    case ShootLocations => StringIssues(Lookup(m, "shootLocations"), 3, LocationsMessage)
    case KeyDeliverables => StringIssues(Lookup(m, "keyDeliverables"), 10, DeliverablesMessage)
    case TotalBudget => NumberIssues(CoerceEntry(m, "totalBudget", coerce), BudgetMessage)
    case BidDueDate => DateIssues(input.bidDueDate, DueDateMessage)
    case Assumptions => StringIssues(Lookup(m, "assumptions"), 10, AssumptionsMessage)
    case ContactName => StringIssues(Lookup(m, "contactName"), 2, ContactNameMessage)
    case ContactRole => StringIssues(Lookup(m, "contactRole"), 2, ContactRoleMessage)
    case CompanyName => StringIssues(Lookup(m, "companyName"), 2, CompanyNameMessage)
  }

  /** The output of a successful parse. */
  datatype BidRequest = BidRequest(
    clientName: string,
    projectName: string,
    agencyName: Option<string>,
    creativeSynopsis: string,
    shootDays: int,
    shootLocations: string,
    keyDeliverables: string,
    totalBudget: JsNumber,
    bidDueDate: int,
    assumptions: string,
    contactName: string,
    contactRole: string,
    companyName: string)

  /** The invariant of a validated request, written out from the schema. */
  predicate Conforms(b: BidRequest) {
    Utf16Length(b.clientName) >= 2 && Utf16Length(b.projectName) >= 2
    && Utf16Length(b.creativeSynopsis) >= 20 && b.shootDays > 0
    && Utf16Length(b.shootLocations) >= 3 && Utf16Length(b.keyDeliverables) >= 10
    && IsPositive(b.totalBudget) && Utf16Length(b.assumptions) >= 10
    && Utf16Length(b.contactName) >= 2 && Utf16Length(b.contactRole) >= 2
    && Utf16Length(b.companyName) >= 2
  }

  /** The request carries exactly the values it was built from. */
  predicate BuiltFrom(b: BidRequest, input: ValidationInput, coerce: string -> JsNumber) {
    var m := input.fields;
    Lookup(m, "clientName") == Some(b.clientName) && Lookup(m, "projectName") == Some(b.projectName)
    && Lookup(m, "agencyName") == b.agencyName
    && Lookup(m, "creativeSynopsis") == Some(b.creativeSynopsis)
    && CoerceEntry(m, "shootDays", coerce) == Finite(b.shootDays as real)
    && Lookup(m, "shootLocations") == Some(b.shootLocations)
    && Lookup(m, "keyDeliverables") == Some(b.keyDeliverables)
    && "totalBudget" in m && CoerceEntry(m, "totalBudget", coerce) == b.totalBudget
    && input.bidDueDate == Some(ValidDate(b.bidDueDate))
    && Lookup(m, "assumptions") == Some(b.assumptions) && Lookup(m, "contactName") == Some(b.contactName)
    && Lookup(m, "contactRole") == Some(b.contactRole) && Lookup(m, "companyName") == Some(b.companyName)
  }

  /** The parse result: the typed request, or the flattened field errors. */
  datatype Validation = Valid(bid: BidRequest) | Invalid(fieldErrors: map<string, seq<Message>>)

  /** Different fields have different keys. */
  lemma KeyInjective(f: Field, g: Field)
    ensures Key(f) == Key(g) ==> f == g
  {
    if f != g {
      var a, b := Key(f), Key(g);
      assert |a| != |b| || (exists i :: 0 <= i < |a| && a[i] != b[i]) by {
        if |a| == |b| { DifferentKeysDiffer(f, g); }
      }
    }
  }

  /** Helper for `KeyInjective`: two keys of equal length differ somewhere
      among their first eight characters. */
  lemma DifferentKeysDiffer(f: Field, g: Field)
    requires f != g && |Key(f)| == |Key(g)|
    ensures exists i :: 0 <= i < |Key(f)| && i < 8 && Key(f)[i] != Key(g)[i]
  {
    var a, b := Key(f), Key(g);
    if a[0] != b[0] { assert a[0] != b[0]; }
    else if a[1] != b[1] { assert a[1] != b[1]; }
    else if a[2] != b[2] { assert a[2] != b[2]; }
    else if a[3] != b[3] { assert a[3] != b[3]; }
    else if a[4] != b[4] { assert a[4] != b[4]; }
    else if a[5] != b[5] { assert a[5] != b[5]; }
    else if a[6] != b[6] { assert a[6] != b[6]; }
    else { assert a[7] != b[7]; }
  }

  /** The flattened field errors: one entry per failing field, under the
      field's key, holding that field's messages. */
  function FieldErrors(input: ValidationInput, coerce: string -> JsNumber): (r: map<string, seq<Message>>)
    ensures forall f :: Key(f) in r <==> Issues(f, input, coerce) != []
    ensures forall f :: Key(f) in r ==> r[Key(f)] == Issues(f, input, coerce)
  {
    forall f, g | Key(f) == Key(g) ensures f == g { KeyInjective(f, g); }
    assert forall f :: f in Fields by {
      forall f ensures f in Fields { EveryFieldListed(f); }
    }
    map f | f in Fields && Issues(f, input, coerce) != [] :: Key(f) := Issues(f, input, coerce)
  }

  lemma EveryFieldListed(f: Field)
    ensures f in Fields
  {
  }

  // ---------------------------------------------------------------------------
  // The schema written out field by field, as an independent statement of
  // what `Validate` accepts.

  predicate LongEnough(m: map<string, string>, key: string, min: nat) {
    key in m && Utf16Length(m[key]) >= min
  }

  predicate PositiveIntegerAt(m: map<string, string>, key: string, coerce: string -> JsNumber) {
    key in m && IsInteger(coerce(m[key])) && IsPositive(coerce(m[key]))
  }

  predicate PositiveAt(m: map<string, string>, key: string, coerce: string -> JsNumber) {
    key in m && IsPositive(coerce(m[key]))
  }

  predicate MeetsSchema(input: ValidationInput, coerce: string -> JsNumber) {
    var m := input.fields;
    LongEnough(m, "clientName", 2) && LongEnough(m, "projectName", 2)
    && LongEnough(m, "creativeSynopsis", 20) && PositiveIntegerAt(m, "shootDays", coerce)
    && LongEnough(m, "shootLocations", 3) && LongEnough(m, "keyDeliverables", 10)
    && PositiveAt(m, "totalBudget", coerce)
    && input.bidDueDate.Some? && input.bidDueDate.value.ValidDate?
    && LongEnough(m, "assumptions", 10) && LongEnough(m, "contactName", 2)
    && LongEnough(m, "contactRole", 2) && LongEnough(m, "companyName", 2)
  }

  /** Every rule of the table passes exactly when the written-out schema
      holds; `agencyName` takes no part. */
  lemma AcceptedIffMeetsSchema(input: ValidationInput, coerce: string -> JsNumber)
    ensures (forall f :: Issues(f, input, coerce) == []) <==> MeetsSchema(input, coerce)
  {
    if MeetsSchema(input, coerce) {
      forall f ensures Issues(f, input, coerce) == [] { FieldAcceptedUnderSchema(f, input, coerce); }
    } else if forall f :: Issues(f, input, coerce) == [] {
      assert Issues(ClientName, input, coerce) == [] && Issues(ProjectName, input, coerce) == [];
      assert Issues(CreativeSynopsis, input, coerce) == [] && Issues(ShootLocations, input, coerce) == [];
      assert Issues(KeyDeliverables, input, coerce) == [] && Issues(Assumptions, input, coerce) == [];
      assert Issues(ContactName, input, coerce) == [] && Issues(ContactRole, input, coerce) == [];
      assert Issues(CompanyName, input, coerce) == [];
      LengthsFromAccepted(input, coerce);
      NumbersFromAccepted(input, coerce);
      assert false;
    }
  }

  /** Helper: each field's rule passes on an input meeting the schema. */
  lemma FieldAcceptedUnderSchema(f: Field, input: ValidationInput, coerce: string -> JsNumber)
    requires MeetsSchema(input, coerce)
    ensures Issues(f, input, coerce) == []
  {
    var m := input.fields;
    match f
    case ShootDays => assert coerce(m["shootDays"]) != NaN;
    case TotalBudget => assert coerce(m["totalBudget"]) != NaN;
    case _ =>
  }

  /** Helper: the length conjuncts of the schema follow from the rules. */
  lemma LengthsFromAccepted(input: ValidationInput, coerce: string -> JsNumber)
    requires Issues(ClientName, input, coerce) == [] && Issues(ProjectName, input, coerce) == []
    requires Issues(CreativeSynopsis, input, coerce) == [] && Issues(ShootLocations, input, coerce) == []
    requires Issues(KeyDeliverables, input, coerce) == [] && Issues(Assumptions, input, coerce) == []
    requires Issues(ContactName, input, coerce) == [] && Issues(ContactRole, input, coerce) == []
    requires Issues(CompanyName, input, coerce) == []
    ensures var m := input.fields;
      LongEnough(m, "clientName", 2) && LongEnough(m, "projectName", 2)
      && LongEnough(m, "creativeSynopsis", 20) && LongEnough(m, "shootLocations", 3)
      && LongEnough(m, "keyDeliverables", 10) && LongEnough(m, "assumptions", 10)
      && LongEnough(m, "contactName", 2) && LongEnough(m, "contactRole", 2)
      && LongEnough(m, "companyName", 2)
  {
    ProjectLengthsFromAccepted(input, coerce);
    ScopeLengthsFromAccepted(input, coerce);
    ContactLengthsFromAccepted(input, coerce);
  }

  /** Helper: the length conjuncts for the client, project and synopsis. */
  lemma ProjectLengthsFromAccepted(input: ValidationInput, coerce: string -> JsNumber)
    requires Issues(ClientName, input, coerce) == [] && Issues(ProjectName, input, coerce) == [] && Issues(CreativeSynopsis, input, coerce) == []
    ensures LongEnough(input.fields, "clientName", 2) && LongEnough(input.fields, "projectName", 2) && LongEnough(input.fields, "creativeSynopsis", 20)
  {
    StringAccepted(input.fields, "clientName", 2, ClientNameMessage);
    StringAccepted(input.fields, "projectName", 2, ProjectNameMessage);
    StringAccepted(input.fields, "creativeSynopsis", 20, SynopsisMessage);
  }

  /** Helper: the length conjuncts for the locations, deliverables and assumptions. */
  lemma ScopeLengthsFromAccepted(input: ValidationInput, coerce: string -> JsNumber)
    requires Issues(ShootLocations, input, coerce) == [] && Issues(KeyDeliverables, input, coerce) == [] && Issues(Assumptions, input, coerce) == []
    ensures LongEnough(input.fields, "shootLocations", 3) && LongEnough(input.fields, "keyDeliverables", 10) && LongEnough(input.fields, "assumptions", 10)
  {
    StringAccepted(input.fields, "shootLocations", 3, LocationsMessage);
    StringAccepted(input.fields, "keyDeliverables", 10, DeliverablesMessage);
    StringAccepted(input.fields, "assumptions", 10, AssumptionsMessage);
  }

  /** Helper: the length conjuncts for the contact and company. */
  lemma ContactLengthsFromAccepted(input: ValidationInput, coerce: string -> JsNumber)
    requires Issues(ContactName, input, coerce) == [] && Issues(ContactRole, input, coerce) == [] && Issues(CompanyName, input, coerce) == []
    ensures LongEnough(input.fields, "contactName", 2) && LongEnough(input.fields, "contactRole", 2) && LongEnough(input.fields, "companyName", 2)
  {
    StringAccepted(input.fields, "contactName", 2, ContactNameMessage);
    StringAccepted(input.fields, "contactRole", 2, ContactRoleMessage);
    StringAccepted(input.fields, "companyName", 2, CompanyNameMessage);
  }

  /** Helper: a string rule with no messages saw a long enough value. */
  lemma StringAccepted(m: map<string, string>, key: string, min: nat, message: string)
    ensures StringIssues(Lookup(m, key), min, message) == [] ==> LongEnough(m, key, min)
  {
  }

  /** Helper: the number and date conjuncts of the schema follow from the rules. */
  lemma NumbersFromAccepted(input: ValidationInput, coerce: string -> JsNumber)
    requires forall f :: Issues(f, input, coerce) == []
    ensures PositiveIntegerAt(input.fields, "shootDays", coerce)
    ensures PositiveAt(input.fields, "totalBudget", coerce)
    ensures input.bidDueDate.Some? && input.bidDueDate.value.ValidDate?
  {
    assert Issues(ShootDays, input, coerce) == [];
    assert Issues(TotalBudget, input, coerce) == [];
    assert Issues(BidDueDate, input, coerce) == [];
  }

  /** `bidLetterSchema.parse`: accepts iff the written-out schema holds, and
      then yields a conforming request carrying the input's values; otherwise
      every failing field, and nothing else, appears in the field errors,
      each with that field's messages. */
  function Validate(input: ValidationInput, coerce: string -> JsNumber): (r: Validation)
    ensures r.Valid? <==> MeetsSchema(input, coerce)
    ensures r.Valid? <==> forall f :: Issues(f, input, coerce) == []
    ensures r.Valid? ==> Conforms(r.bid) && BuiltFrom(r.bid, input, coerce)
    ensures r.Invalid? ==> r.fieldErrors != map[]
    ensures r.Invalid? ==> forall f :: (Key(f) in r.fieldErrors <==> Issues(f, input, coerce) != [])
    ensures r.Invalid? ==> forall f :: Key(f) in r.fieldErrors ==> r.fieldErrors[Key(f)] == Issues(f, input, coerce)
  {
    AcceptedIffMeetsSchema(input, coerce);
    if MeetsSchema(input, coerce) then
      Valid(Build(input, coerce))
    else
      var errors := FieldErrors(input, coerce);
      var f :| Issues(f, input, coerce) != [];
      assert Key(f) in errors;
      Invalid(errors)
  }

  /** Builds the typed request once the schema holds. */
  function Build(input: ValidationInput, coerce: string -> JsNumber): (b: BidRequest)
    requires MeetsSchema(input, coerce)
    ensures Conforms(b) && BuiltFrom(b, input, coerce)
  {
    var m := input.fields;
    BidRequest(
      m["clientName"], m["projectName"],
      if "agencyName" in m then Some(m["agencyName"]) else None,
      m["creativeSynopsis"], coerce(m["shootDays"]).value.Floor, m["shootLocations"],
      m["keyDeliverables"], coerce(m["totalBudget"]), input.bidDueDate.value.time,
      m["assumptions"], m["contactName"], m["contactRole"], m["companyName"])
  }

  /** How one field shows in the parse result: accepted fields are absent
      from the field errors, rejected ones are present with their messages. */
  lemma FieldReport(f: Field, input: ValidationInput, coerce: string -> JsNumber)
    ensures var r := Validate(input, coerce);
      (Issues(f, input, coerce) == [] ==> r.Valid? || Key(f) !in r.fieldErrors)
      && (Issues(f, input, coerce) != [] ==>
            r.Invalid? && Key(f) in r.fieldErrors && r.fieldErrors[Key(f)] == Issues(f, input, coerce))
  {
  }

  /** The minimum-length rules: the threshold and the literal message. */
  function MinimumLength(f: Field): Option<(nat, string)> {
    match f
    case ClientName => Some((2, ClientNameMessage))
    case ProjectName => Some((2, ProjectNameMessage))
    case CreativeSynopsis => Some((20, SynopsisMessage))
    case ShootLocations => Some((3, LocationsMessage))
    case KeyDeliverables => Some((10, DeliverablesMessage))
    case Assumptions => Some((10, AssumptionsMessage))
    case ContactName => Some((2, ContactNameMessage))
    case ContactRole => Some((2, ContactRoleMessage))
    case CompanyName => Some((2, CompanyNameMessage))
    case _ => None
  }

  /** A minimum-length field is accepted iff its value has at least the
      minimum number of UTF-16 code units; a short value is reported under its
      own key with exactly its literal message, a missing one with Zod's
      "required" message. */
  lemma MinLengthReport(f: Field, input: ValidationInput, coerce: string -> JsNumber)
    requires MinimumLength(f).Some?
    ensures var (min, message) := MinimumLength(f).value;
      var r := Validate(input, coerce);
      var k := Key(f);
      (k !in input.fields ==> r.Invalid? && k in r.fieldErrors && r.fieldErrors[k] == [ZodDefault(Required)])
      && (k in input.fields && Utf16Length(input.fields[k]) < min ==>
            r.Invalid? && k in r.fieldErrors && r.fieldErrors[k] == [Literal(message)])
      && (k in input.fields && Utf16Length(input.fields[k]) >= min ==> r.Valid? || k !in r.fieldErrors)
  {
    MinLengthIssues(f, input, coerce);
    FieldReport(f, input, coerce);
  }

  /** Helper: a minimum-length field's messages come from its table entry. */
  lemma MinLengthIssues(f: Field, input: ValidationInput, coerce: string -> JsNumber)
    requires MinimumLength(f).Some?
    ensures var (min, message) := MinimumLength(f).value;
      Issues(f, input, coerce) == StringIssues(Lookup(input.fields, Key(f)), min, message)
  {
  }

  /** `shootDays`: reported under its key exactly when the coerced value is
      not a positive integer, with the messages of the integer rule (a
      non-number is a type error alone; otherwise "not an integer" and the
      literal positivity message each appear when their check fails). */
  lemma ShootDaysReport(input: ValidationInput, coerce: string -> JsNumber)
    ensures var r := Validate(input, coerce);
      var x := CoerceEntry(input.fields, "shootDays", coerce);
      (IsInteger(x) && IsPositive(x) ==> r.Valid? || "shootDays" !in r.fieldErrors)
      && (!(IsInteger(x) && IsPositive(x)) ==>
            r.Invalid? && "shootDays" in r.fieldErrors
            && r.fieldErrors["shootDays"] == IntegerIssues(x, ShootDaysMessage))
  {
    assert Issues(ShootDays, input, coerce) == IntegerIssues(CoerceEntry(input.fields, "shootDays", coerce), ShootDaysMessage);
    assert Key(ShootDays) == "shootDays";
    FieldReport(ShootDays, input, coerce);
  }

  /** `totalBudget` accepts every positive number, fractional ones included. */
  lemma TotalBudgetReport(input: ValidationInput, coerce: string -> JsNumber)
    ensures var r := Validate(input, coerce);
      var x := CoerceEntry(input.fields, "totalBudget", coerce);
      (IsPositive(x) ==> r.Valid? || "totalBudget" !in r.fieldErrors)
      && (x.NaN? ==>
            r.Invalid? && "totalBudget" in r.fieldErrors && r.fieldErrors["totalBudget"] == [ZodDefault(InvalidType)])
      && (!x.NaN? && !IsPositive(x) ==>
            r.Invalid? && "totalBudget" in r.fieldErrors && r.fieldErrors["totalBudget"] == [Literal(BudgetMessage)])
  {
    assert Issues(TotalBudget, input, coerce) == NumberIssues(CoerceEntry(input.fields, "totalBudget", coerce), BudgetMessage);
    assert Key(TotalBudget) == "totalBudget";
    FieldReport(TotalBudget, input, coerce);
  }

  /** `Number(undefined)` is NaN: a missing shoot-days or budget entry is
      reported with Zod's type error alone. */
  lemma MissingNumberReport(input: ValidationInput, coerce: string -> JsNumber)
    ensures var r := Validate(input, coerce);
      ("shootDays" !in input.fields ==>
         r.Invalid? && "shootDays" in r.fieldErrors && r.fieldErrors["shootDays"] == [ZodDefault(InvalidType)])
      && ("totalBudget" !in input.fields ==>
         r.Invalid? && "totalBudget" in r.fieldErrors && r.fieldErrors["totalBudget"] == [ZodDefault(InvalidType)])
  {
    ShootDaysReport(input, coerce);
    TotalBudgetReport(input, coerce);
  }

  /** Characters above U+FFFF count twice: a one-emoji client name passes
      its two-unit minimum. */
  lemma AstralCharCountsTwice(input: ValidationInput, coerce: string -> JsNumber)
    requires Lookup(input.fields, "clientName") == Some("\U{1F600}")
    ensures Issues(ClientName, input, coerce) == []
  {
    Utf16LengthOfChar('\U{1F600}');
  }

  /** A missing due date has its own literal message, and an unparseable
      one gets Zod's "invalid date". */
  lemma DueDateReport(input: ValidationInput, coerce: string -> JsNumber)
    ensures var r := Validate(input, coerce);
      (input.bidDueDate.None? ==>
         r.Invalid? && "bidDueDate" in r.fieldErrors && r.fieldErrors["bidDueDate"] == [Literal(DueDateMessage)])
      && (input.bidDueDate == Some(InvalidDate) ==>
         r.Invalid? && "bidDueDate" in r.fieldErrors && r.fieldErrors["bidDueDate"] == [ZodDefault(InvalidDateValue)])
      && (input.bidDueDate.Some? && input.bidDueDate.value.ValidDate? ==> r.Valid? || "bidDueDate" !in r.fieldErrors)
  {
    assert Issues(BidDueDate, input, coerce) == DateIssues(input.bidDueDate, DueDateMessage);
    assert Key(BidDueDate) == "bidDueDate";
    FieldReport(BidDueDate, input, coerce);
  }

  /** Nothing but a field's key is ever reported. */
  lemma OnlyFieldsReported(input: ValidationInput, coerce: string -> JsNumber)
    ensures var r := Validate(input, coerce);
      r.Invalid? ==> forall k :: k in r.fieldErrors ==> exists f :: Key(f) == k && Issues(f, input, coerce) != []
  {
  }

  /** `agencyName` is never reported, whatever the form holds. */
  lemma AgencyNeverReported(input: ValidationInput, coerce: string -> JsNumber)
    ensures var r := Validate(input, coerce);
      r.Invalid? ==> "agencyName" !in r.fieldErrors
  {
    OnlyFieldsReported(input, coerce);
    forall f | Key(f) == "agencyName" ensures f == AgencyName { KeyInjective(f, AgencyName); }
  }

  /** The validator never reads the form's own `bidDueDate` string. */
  lemma IgnoresDueDateString(fields: map<string, string>, s: string, d: Option<JsDate>, coerce: string -> JsNumber)
    ensures Validate(ValidationInput(fields["bidDueDate" := s], d), coerce)
         == Validate(ValidationInput(fields, d), coerce)
  {
    var a := ValidationInput(fields["bidDueDate" := s], d);
    var b := ValidationInput(fields, d);
    forall f ensures Issues(f, a, coerce) == Issues(f, b, coerce) {
      IssuesIgnoreDueDateString(f, fields, s, d, coerce);
    }
    AcceptedIffMeetsSchema(a, coerce);
    AcceptedIffMeetsSchema(b, coerce);
    if MeetsSchema(a, coerce) {
      BuildIgnoresDueDateString(fields, s, d, coerce);
    } else {
      FieldErrorsAgree(a, b, coerce);
    }
  }

  /** Helper: field errors are determined by the fields' messages. */
  lemma FieldErrorsAgree(a: ValidationInput, b: ValidationInput, coerce: string -> JsNumber)
    requires forall f :: Issues(f, a, coerce) == Issues(f, b, coerce)
    ensures FieldErrors(a, coerce) == FieldErrors(b, coerce)
  {
  }

  /** Helper: the built request does not read the `bidDueDate` form entry. */
  lemma BuildIgnoresDueDateString(fields: map<string, string>, s: string, d: Option<JsDate>, coerce: string -> JsNumber)
    requires MeetsSchema(ValidationInput(fields["bidDueDate" := s], d), coerce)
    requires MeetsSchema(ValidationInput(fields, d), coerce)
    ensures Build(ValidationInput(fields["bidDueDate" := s], d), coerce)
         == Build(ValidationInput(fields, d), coerce)
  {
  }

  /** Helper: no field's rule reads the `bidDueDate` form entry. */
  lemma IssuesIgnoreDueDateString(f: Field, fields: map<string, string>, s: string, d: Option<JsDate>,
                                  coerce: string -> JsNumber)
    ensures Issues(f, ValidationInput(fields["bidDueDate" := s], d), coerce)
         == Issues(f, ValidationInput(fields, d), coerce)
  {
    KeyInjective(f, BidDueDate);
    match f
    case BidDueDate =>
    case AgencyName =>
    case _ => assert Key(f) != "bidDueDate";
  }

  // ---------------------------------------------------------------------------
  // The response schema: the structured letter the generator returns.

  /** `BidLetterData`: the fifteen string fields of `bidLetterResponseSchema`. */
  datatype BidLetterData = BidLetterData(
    date: string,
    recipientName: string,
    subjectLine: string,
    salutation: string,
    openingParagraph: string,
    projectUnderstandingParagraph: string,
    methodologyTeaser: string,
    budgetSummary: string,
    keyAssumptions: string,
    keyDeliverables: string,
    closingParagraph: string,
    signOff: string,
    senderName: string,
    senderRole: string,
    senderCompany: string)
}
