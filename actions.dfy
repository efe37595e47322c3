/**
 * The server action behind the bid form (src/app/actions.ts): it copies the
 * string entries of the submitted form, derives the due date, validates, and
 * only when validation succeeds makes its one call to the generation
 * service, whose outcome it maps to the form state the page renders.
 *
 * The generation service is outside this model: its outcome is a parameter,
 * `CallOutcome`, and the request it would receive is returned as `sent`.
 */
module BidActions {
  import opened Wrappers
  import opened BidSchema

  /** A value of a `FormData` entry: a string, or an uploaded file. */
  datatype FormEntryValue = StringValue(s: string) | FileValue

  /** One `[name, value]` pair of `formData.entries()`, in submission order. */
  datatype FormEntry = FormEntry(name: string, value: FormEntryValue)

  /** The one name a plain object cannot take as an own property by
      assignment: `obj["__proto__"] = v` runs the inherited `__proto__`
      setter, which ignores a string. */
  const ProtoKey: string := "__proto__"

  /** The dictionary the copy loop builds from the entries: string entries
      only, a later entry overwriting an earlier one of that name, and never
      the `__proto__` name. */
  function StringRecord(entries: seq<FormEntry>): (raw: map<string, string>)
    ensures ProtoKey !in raw
  {
    if entries == [] then map[]
    else
      var last := entries[|entries| - 1];
      var before := StringRecord(entries[..|entries| - 1]);
      if Copied(last) then before[last.name := last.value.s] else before
  }

  /** An entry the copy loop stores: a string value under an ordinary name. */
  predicate Copied(e: FormEntry) {
    e.value.StringValue? && e.name != ProtoKey
  }

  /** The copy keeps exactly the names other than `__proto__` that have a
      string entry, and each holds the value of the LAST string entry of
      that name. */
  lemma {:induction false} StringRecordLastWins(entries: seq<FormEntry>, name: string)
    ensures var raw := StringRecord(entries);
      (name in raw <==> name != ProtoKey
                        && exists i :: 0 <= i < |entries| && entries[i].name == name && entries[i].value.StringValue?)
      && (name in raw ==>
            exists i :: 0 <= i < |entries| && entries[i] == FormEntry(name, StringValue(raw[name]))
                     && forall j :: i < j < |entries| ==> !(entries[j].name == name && entries[j].value.StringValue?))
  {
    if entries != [] {
      var n := |entries| - 1;
      var before := entries[..n];
      StringRecordLastWins(before, name);
      var raw := StringRecord(entries);
      var last := entries[n];
      assert forall i :: 0 <= i < n ==> before[i] == entries[i];
      if last.name == name && Copied(last) {
        assert entries[n] == FormEntry(name, StringValue(raw[name]));
      } else if name in raw {
        assert raw[name] == StringRecord(before)[name];
        var i :| 0 <= i < n && before[i] == FormEntry(name, StringValue(raw[name]))
               && forall j :: i < j < n ==> !(before[j].name == name && before[j].value.StringValue?);
        assert entries[i] == before[i];
      }
    }
  }

  /** The copy loop of the action: every string entry is written into the
      dictionary in order, file entries are skipped (and so, silently, is a
      string under `__proto__`). */
  method CollectStringEntries(entries: seq<FormEntry>) returns (raw: map<string, string>)
    ensures raw == StringRecord(entries)
  {
    raw := map[];
    var i := 0;
    while i < |entries|
      invariant 0 <= i <= |entries|
      invariant raw == StringRecord(entries[..i])
    {
      var entry := entries[i];
      assert entries[..i + 1][..i] == entries[..i];
      if entry.value.StringValue? && entry.name != ProtoKey {
        raw := raw[entry.name := entry.value.s];
      }
      i := i + 1;
    }
    assert entries[..i] == entries;
  }

  /** `formData.get(name)`: the FIRST entry of that name, if any. */
  function FirstValue(entries: seq<FormEntry>, name: string): (r: Option<FormEntryValue>)
    ensures r.None? <==> forall i :: 0 <= i < |entries| ==> entries[i].name != name
    ensures r.Some? ==> exists i :: 0 <= i < |entries| && entries[i] == FormEntry(name, r.value)
                                    && forall j :: 0 <= j < i ==> entries[j].name != name
  {
    if entries == [] then None
    else if entries[0].name == name then Some(entries[0].value)
    else
      var r := FirstValue(entries[1..], name);
      assert forall i :: 1 <= i < |entries| ==> entries[i] == entries[1..][i - 1];
      if r.Some? then
        var i :| 0 <= i < |entries[1..]| && entries[1..][i] == FormEntry(name, r.value)
                 && forall j :: 0 <= j < i ==> entries[1..][j].name != name;
        assert entries[i + 1] == FormEntry(name, r.value);
        r
      else
        r
  }

  /** The string JavaScript makes of a file object passed to `new Date`. */
  const FileAsString: string := "[object File]"

  /** The due date handed to the validator: `new Date(v)` when the first
      `bidDueDate` entry is truthy (a non-empty string or a file), otherwise
      undefined. `parseDate` stands for `new Date(string)`. */
  function DueDate(entries: seq<FormEntry>, parseDate: string -> JsDate): (d: Option<JsDate>)
    ensures d.Some? <==> exists i :: 0 <= i < |entries| && entries[i].name == "bidDueDate"
                                     && entries[i].value != StringValue("")
                                     && forall j :: 0 <= j < i ==> entries[j].name != "bidDueDate"
    ensures d.Some? ==> exists i :: 0 <= i < |entries| && entries[i].name == "bidDueDate"
                                   && (forall j :: 0 <= j < i ==> entries[j].name != "bidDueDate")
                                   && d.value == parseDate(if entries[i].value.FileValue? then FileAsString
                                                           else entries[i].value.s)
  {
    var first := FirstValue(entries, "bidDueDate");
    if first.Some? && first.value.StringValue? && first.value.s != "" then Some(parseDate(first.value.s))
    else if first.Some? && first.value.FileValue? then Some(parseDate(FileAsString))
    else None
  }

  /** What the generation service did, as far as the action can tell. */
  datatype Thrown = ZodFailure(fieldErrors: map<string, seq<Message>>) | OtherFailure
  datatype CallOutcome = Parsed(letter: BidLetterData) | NoOutput | Threw(error: Thrown)

  /** `BidLetterFormState` (a non-null one: the action never returns null). */
  datatype GeneratedData = GeneratedData(generatedLetter: BidLetterData)
  datatype FormState = FormState(
    message: string,
    errors: Option<map<string, seq<Message>>>,
    data: Option<GeneratedData>,
    submittedData: Option<map<string, string>>)

  const ValidationFailedMessage: string := "Validation failed. Please check the fields below."
  const UnexpectedErrorMessage: string := "An unexpected error occurred. Please check the server console."
  const NoOutputMessage: string := "Error: AI failed to generate a valid response. Please try again."
  const SuccessMessage: string := "Success! Your bid letter has been generated below."

  /** The catch block: a Zod error, whatever threw it, becomes the
      validation-failure state with its field errors; anything else the
      generic message; both keep the submitted strings and carry no letter. */
  function Caught(error: Thrown, raw: map<string, string>): (r: FormState)
    ensures r.data.None? && r.submittedData == Some(raw)
    ensures error.ZodFailure? ==> r.message == ValidationFailedMessage && r.errors == Some(error.fieldErrors)
    ensures error.OtherFailure? ==> r.message == UnexpectedErrorMessage && r.errors == Some(map[])
  {
    match error
    case ZodFailure(fieldErrors) => FormState(ValidationFailedMessage, Some(fieldErrors), None, Some(raw))
    case OtherFailure => FormState(UnexpectedErrorMessage, Some(map[]), None, Some(raw))
  }

  /** The state once the call has been made. */
  function AfterCall(outcome: CallOutcome, raw: map<string, string>): (r: FormState)
    ensures r.data.Some? <==> outcome.Parsed?
    ensures r.submittedData.Some? <==> outcome.Threw?
    ensures outcome.Parsed? ==>
      r.message == SuccessMessage && r.data == Some(GeneratedData(outcome.letter)) && r.errors == Some(map[])
    ensures outcome.NoOutput? ==> r.message == NoOutputMessage && r.errors == Some(map[])
    ensures outcome.Threw? ==> r.submittedData == Some(raw)
  {
    match outcome
    case Parsed(letter) => FormState(SuccessMessage, Some(map[]), Some(GeneratedData(letter)), None)
    case NoOutput => FormState(NoOutputMessage, Some(map[]), None, None)
    case Threw(error) => Caught(error, raw)
  }

  /** The value the user prompt shows for the agency: the name when it is a
      non-empty string, "Not provided" when it is absent or empty. */
  function AgencyShown(agencyName: Option<string>): (shown: string)
    ensures shown != ""
    ensures agencyName.Some? && agencyName.value != "" ==> shown == agencyName.value
    ensures agencyName.None? || agencyName.value == "" ==> shown == "Not provided"
  {
    if agencyName.Some? && agencyName.value != "" then agencyName.value else "Not provided"
  }

  /** `generateBidLetterAction`. `coerce` stands for `Number(...)` and
      `parseDate` for `new Date(...)`; `outcome` is what the generation
      service does if it is called. `sent` is the request the one call
      carries, and is nothing when no call is made. */
  method GenerateBidLetterAction(
    entries: seq<FormEntry>, coerce: string -> JsNumber, parseDate: string -> JsDate, outcome: CallOutcome)
    returns (state: FormState, sent: Option<BidRequest>)
    ensures var raw := StringRecord(entries);
      var v := Validate(ValidationInput(raw, DueDate(entries, parseDate)), coerce);
      (sent.Some? <==> v.Valid?)
      && (v.Valid? ==> sent == Some(v.bid) && state == AfterCall(outcome, raw))
      && (v.Invalid? ==> state == FormState(ValidationFailedMessage, Some(v.fieldErrors), None, Some(raw)))
    ensures state.errors.Some?
    ensures state.data.Some? <==> sent.Some? && outcome.Parsed?
  {
    var raw := CollectStringEntries(entries);
    var dataToValidate := ValidationInput(raw, DueDate(entries, parseDate));
    var validation := Validate(dataToValidate, coerce);
    if validation.Invalid? {
      // parse throws before the call is reached
      state := Caught(ZodFailure(validation.fieldErrors), raw);
      sent := None;
    } else {
      sent := Some(validation.bid);
      state := AfterCall(outcome, raw);
    }
  }
}
