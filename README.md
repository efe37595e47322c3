# Bid letter generator: a verified model of its core

This project models the core of a small web application. A producer fills in
a bid form. The application validates it and asks a text-generation service
for a structured bid letter. It then shows that letter as paragraphs and
bullet lists, with a plain-text copy for the clipboard.

Three things are modelled, plus the JavaScript string operations they rely on.

**The input schema** (`src/app/schema.ts`, module `BidSchema`). Each of the
thirteen fields has a rule: `Issues` gives the messages a field produces.
`Validate` runs every rule, as a Zod object schema does. It then either
builds the typed `BidRequest` or reports the flattened field errors: each
failing field's key mapped to that field's list of messages.

- Messages written in the schema are `Literal` values. Messages Zod supplies
  itself (a missing value, a non-number, a non-integer, an invalid date) are
  named `ZodDefault` values; their wording belongs to Zod.
- Lengths are UTF-16 code units, as JavaScript counts them.
- `Number(...)`, which runs inside `z.coerce.number()`, is the parameter
  `coerce`.

**The server action** (`src/app/actions.ts`, module `BidActions`).
`GenerateBidLetterAction` runs these steps in order:

1. The copy loop copies the string entries of the form data into a
   dictionary; a later entry of the same name wins.
2. It derives the due date from the first `bidDueDate` entry. `new Date(...)`
   is the parameter `parseDate`.
3. It validates.
4. Only on success does it make its single call to the generation service.
   What that service does is the parameter `outcome`, and the request it
   would receive is returned as `sent`.
5. It maps the outcome onto the form state the page renders.

**The letter helpers** (`src/components/ui/bid-letter-display.tsx`, module
`BidLetterDisplay`).

- `FormatLetterAsText` joins the seventeen blocks of the letter with blank
  lines.
- `ListFromString` splits a multi-line field into lines, trims each line,
  removes one leading marker and the whitespace after it, and keeps the
  non-empty lines as list items keyed by their line index.

Four behaviours of the code are easy to miss, and the model keeps them:

- **The bullet marker.** The list helper's marker pattern is a hyphen or the
  three characters "â€¢" (U+00E2 U+20AC U+00A2). That is how the UTF-8 bytes
  of "•" read in Windows-1252. A line that starts with the real bullet U+2022
  keeps it (`RealBulletKept`).
- **Zod errors from the service.** A Zod error thrown while the generation
  service's output is parsed is caught by the same branch as a validation
  failure. The page therefore gets "Validation failed…" with that error's
  field errors, not the generic message (`Caught`).
- **One due-date entry, two rules.** `formData.get` reads the FIRST
  `bidDueDate` entry, while the copy loop keeps the LAST entry of each name.
  The validator never reads the copied `bidDueDate` string
  (`IgnoresDueDateString`).
- **The `__proto__` name.** The copy loop assigns into a plain object. A
  string entry named `__proto__` therefore runs the inherited `__proto__`
  setter, which ignores strings, so that name is never copied
  (`StringRecord`).

The Zod rules are those of Zod 3: the `required_error` option, one issue per
failed check in the order the checks are chained, and `z.number()` accepting
the infinities.

## Model

| member | source | states |
|---|---|---|
| BidSchema.IntegerIssues | src/app/schema.ts:14-17 | the shoot-days rule passes exactly on a positive integer; NaN gives the type error alone; a non-positive integer gives exactly the literal message; a positive non-integer (such as 2.5 or Infinity) gives exactly the not-integer error; a value that is neither gives the not-integer error followed by the literal message |
| BidSchema.StringIssues | src/app/schema.ts:6 | a string rule passes exactly when the value is present and has at least the minimum number of UTF-16 code units; a missing value gives Zod's "required" error alone, a short one exactly the literal message |
| BidSchema.NumberIssues | src/app/schema.ts:23-25 | the budget rule passes exactly on a positive number; NaN gives the type error alone; a non-positive number, negative infinity included, gives exactly the literal message |
| BidSchema.DateIssues | src/app/schema.ts:26 | the date rule passes exactly on a valid date; a missing date gives exactly the required-error literal, an invalid one Zod's invalid-date error |
| BidSchema.Issues | src/app/schema.ts:5-35 | each field yields at most two messages, only shoot days can yield two, and the optional agency name yields none; which messages each field gives is stated by the report lemmas below and by the rule functions above |
| BidSchema.Validate | src/app/schema.ts:5-35 | accepts exactly when the schema written out field by field holds (`MeetsSchema`), equivalently when every field's rule passes; an accepted request satisfies the schema's invariant and carries exactly the input's values (shoot days as the integer it coerces to, agency present iff it was submitted); a rejected input has a non-empty error map holding every failing field's key, each with that field's messages, and no accepted field's key (that it holds no other key at all is `OnlyFieldsReported`) |
| BidSchema.Build | src/app/schema.ts:5-35 | on an input meeting the schema, the request conforms to the schema and is built from the input's values |
| BidSchema.FieldErrors | src/app/schema.ts:5-35 | a field's key is present exactly when the field fails, and maps to that field's messages |
| BidSchema.AcceptedIffMeetsSchema | src/app/schema.ts:5-35 | every rule passes iff the written-out schema holds; the agency name takes no part |
| BidSchema.KeyInjective | src/app/schema.ts:5-35 | distinct fields have distinct keys, so no field's errors can overwrite another's |
| BidSchema.FieldReport | src/app/schema.ts:5-35 | an accepted field never appears in the field errors; a rejected field always appears, with its own messages |
| BidSchema.MinLengthReport | src/app/schema.ts:6-34 | for each of the nine minimum-length fields (thresholds 2, 2, 20, 3, 10, 10, 2, 2, 2): a missing value is reported with Zod's "required" message, a value shorter than the minimum in UTF-16 code units with exactly its literal message, and a long-enough value not at all |
| BidSchema.ShootDaysReport | src/app/schema.ts:14-17 | shoot days is reported exactly when the coerced value is not a positive integer, with the integer rule's messages |
| BidSchema.TotalBudgetReport | src/app/schema.ts:23-25 | any positive budget is accepted, fractional or infinite included; NaN gives the type error; any other non-positive value, negative infinity included, gives exactly "Budget must be a positive number." |
| BidSchema.DueDateReport | src/app/schema.ts:26 | a missing due date gives exactly "A bid due date is required."; an invalid date gives Zod's invalid-date error; a valid date is not reported |
| BidSchema.MissingNumberReport | src/app/schema.ts:14-25 | `CoerceEntry` turns a missing entry into NaN, as `Number(undefined)` does, so a missing shoot-days or budget entry is reported with Zod's type error alone |
| BidSchema.AstralCharCountsTwice | src/app/schema.ts:6 | a client name made of one character above U+FFFF is two UTF-16 code units and passes its minimum of 2 |
| BidSchema.OnlyFieldsReported | src/app/schema.ts:5-35 | every reported key is the key of a field that failed |
| BidSchema.AgencyNeverReported | src/app/schema.ts:8 | the optional agency name never appears in the field errors |
| BidSchema.IgnoresDueDateString | src/app/actions.ts:29-34 | the date put in place of the form's `bidDueDate` string makes that string irrelevant: changing it changes nothing in the parse result |
| JsText.Utf16Length | src/app/schema.ts:6 | the UTF-16 length lies between the number of characters and twice it, and equals the number of characters when every character is in the Basic Multilingual Plane; its exact value follows from `Utf16LengthOfChar` and `Utf16LengthAppend` |
| JsText.Utf16LengthOfChar | src/app/schema.ts:6 | one character is one code unit up to U+FFFF and two above it |
| JsText.Utf16LengthAppend | src/app/schema.ts:6 | the length of a concatenation is the sum of the lengths |
| JsText.TrimStart | src/components/ui/bid-letter-display.tsx:45 | the result is a suffix of the input that does not start with whitespace, and everything removed is whitespace |
| JsText.TrimEnd | src/components/ui/bid-letter-display.tsx:45 | the result is a prefix of the input that does not end with whitespace, and everything removed is whitespace |
| JsText.Trim | src/components/ui/bid-letter-display.tsx:45 | the result has no whitespace at either end; it is empty exactly when the input is all whitespace |
| JsText.TrimIsInfix | src/components/ui/bid-letter-display.tsx:45 | the trimmed string is an infix of the input with only whitespace around it |
| JsText.TrimAvoids | src/components/ui/bid-letter-display.tsx:45 | trimming introduces no character |
| JsText.TrimmedIsFixed | src/components/ui/bid-letter-display.tsx:45 | a string with no whitespace at either end is its own trim |
| JsText.Split | src/components/ui/bid-letter-display.tsx:44 | splitting on one character gives one more piece than there are occurrences of it, and no piece holds the separator; joining the pieces gives the string back (`JoinSplit`) |
| JsText.SplitWithoutSeparator | src/components/ui/bid-letter-display.tsx:44 | a string without the separator splits into itself alone |
| JsText.SplitAroundSeparator | src/components/ui/bid-letter-display.tsx:44 | splitting a string at a separator gives the pieces of the part before it followed by the pieces of the part after |
| JsText.SplitJoin | src/components/ui/bid-letter-display.tsx:39-44 | joining pieces that hold no separator and splitting the result again gives the pieces back |
| JsText.JoinSplit | src/components/ui/bid-letter-display.tsx:44 | joining the pieces of a split with the same separator gives the string back |
| JsText.Join | src/components/ui/bid-letter-display.tsx:39 | a join begins with its first part; its inverse is `Split` (`SplitJoin`, `JoinSplit`), and `JoinCons` and `JoinAppend` give its shape |
| JsText.JoinCons | src/components/ui/bid-letter-display.tsx:39 | joining a part in front of a non-empty list puts the separator between it and the rest |
| BidActions.StringRecord | src/app/actions.ts:21-27 | the copied dictionary never holds `__proto__`; which names and values it holds is `StringRecordLastWins` |
| BidActions.StringRecordLastWins | src/app/actions.ts:21-27 | the copied dictionary has exactly the names other than `__proto__` that have a string entry, and each holds the value of the LAST string entry of that name |
| BidActions.CollectStringEntries | src/app/actions.ts:21-27 | the loop builds exactly the last-wins record of the string entries; file entries, and a string under `__proto__`, are skipped |
| BidActions.FirstValue | src/app/actions.ts:31 | there is nothing exactly when no entry has the name; otherwise the value is that of the first entry with the name |
| BidActions.DueDate | src/app/actions.ts:29-34 | a due date is passed to the validator exactly when the first `bidDueDate` entry exists and is not the empty string (a file entry counts), and it is `new Date` of that entry's string, or of "[object File]" for a file |
| BidActions.Caught | src/app/actions.ts:111-127 | a Zod error, whatever raised it, gives the validation-failure message with its field errors; any other error gives the generic message with no field errors; both keep the submitted strings and carry no letter |
| BidActions.AfterCall | src/app/actions.ts:94-127 | a letter is shown exactly when the service returned one, which is the success message; no output gives the retry message; submitted strings are kept exactly when the call threw |
| BidActions.AgencyShown | src/app/actions.ts:55 | the prompt's agency line is never empty: the agency name when one was given and is not empty, otherwise "Not provided" |
| BidActions.GenerateBidLetterAction | src/app/actions.ts:17-128 | the service is called exactly when validation of the copied strings and the derived date succeeds, with the validated request; a failed validation gives "Validation failed…" with the validator's field errors and the submitted strings; a successful one gives the state of the service's outcome; there are always errors in the state, and a letter exactly when the call was made and returned one |
| BidLetterDisplay.LetterParts | src/components/ui/bid-letter-display.tsx:21-38 | the plain-text letter is made of seventeen blocks |
| BidLetterDisplay.FormatLetterAsText | src/components/ui/bid-letter-display.tsx:20-40 | the copied text starts with "Date: "; its layout is stated by `LetterBlocks`, `LetterHeadLayout`, `LetterOpening` and `CopiedLines` |
| BidLetterDisplay.JoinAppend | src/components/ui/bid-letter-display.tsx:39 | joining two non-empty lists of blocks is joining each and putting a separator between them |
| BidLetterDisplay.LetterBlocks | src/components/ui/bid-letter-display.tsx:20-40 | the copied text is the head, the deliverables verbatim, the assumptions lead-in, the assumptions verbatim and the tail, a blank line apart |
| BidLetterDisplay.LetterHeadLayout | src/components/ui/bid-letter-display.tsx:21-30 | the head opens with "Date: " and the date, a blank line and the recipient, and closes with the deliverables lead-in |
| BidLetterDisplay.LetterOpening | src/components/ui/bid-letter-display.tsx:21-23 | the copied text starts with "Date: ", the date, a blank line and the recipient |
| BidLetterDisplay.SplitAroundBlankLine | src/components/ui/bid-letter-display.tsx:39-44 | splitting two texts joined by a blank line gives the lines of the first, one empty line, then the lines of the second |
| BidLetterDisplay.SplitFiveBlocks | src/components/ui/bid-letter-display.tsx:39-44 | the same for five blocks |
| BidLetterDisplay.CopiedLines | src/components/ui/bid-letter-display.tsx:20-44 | the lines of the copied text hold the lines of the deliverables and of the assumptions unchanged, each block between empty lines |
| BidLetterDisplay.StripMarker | src/components/ui/bid-letter-display.tsx:45 | removing the marker leaves a suffix of the text; when something was removed, the rest is empty or starts with a non-whitespace character; which marker goes is `StripsOneMarker` |
| BidLetterDisplay.StripsOneMarker | src/components/ui/bid-letter-display.tsx:45 | a leading hyphen or "â€¢" goes together with the whitespace after it, and nothing else does; a text that starts with neither is unchanged |
| BidLetterDisplay.CleanItem | src/components/ui/bid-letter-display.tsx:45 | a cleaned line has no whitespace at either end |
| BidLetterDisplay.CleanItemAvoids | src/components/ui/bid-letter-display.tsx:45 | cleaning introduces no character, so a line without a line break gives an item without one |
| BidLetterDisplay.CleanLines | src/components/ui/bid-letter-display.tsx:44-45 | every line is cleaned, in order; every cleaned line has no whitespace at either end, and holds no line break when its line holds none |
| BidLetterDisplay.ConsKeepsKeys | src/components/ui/bid-letter-display.tsx:47 | putting an item in front keeps every key already present |
| BidLetterDisplay.ItemsFrom | src/components/ui/bid-letter-display.tsx:44-50 | one item per non-empty cleaned line from the given index on, with that line's text, in strictly increasing line order |
| BidLetterDisplay.ListFromString | src/components/ui/bid-letter-display.tsx:42-52 | each item is the cleaned line at its key; keys strictly increase; a line index has an item exactly when its cleaned line is non-empty; there are at most as many items as lines |
| BidLetterDisplay.ItemsAreCleanLines | src/components/ui/bid-letter-display.tsx:44-48 | every item is non-empty, holds no line break and has no whitespace at either end |
| BidLetterDisplay.AllItemsAreCleanLines | src/components/ui/bid-letter-display.tsx:44-48 | the same for all item texts at once |
| BidLetterDisplay.KeepsEveryLine | src/components/ui/bid-letter-display.tsx:46-49 | when no cleaned line is empty, every line gives an item, keyed by its index |
| BidLetterDisplay.RealBulletKept | src/components/ui/bid-letter-display.tsx:45 | a line whose trimmed text starts with the real bullet U+2022 is shown with that bullet, trimmed |
| BidLetterDisplay.NoMarkerKept | src/components/ui/bid-letter-display.tsx:45 | a line whose trimmed text starts with neither marker is shown exactly as trimmed |
| BidLetterDisplay.HyphenStripped | src/components/ui/bid-letter-display.tsx:45 | "- " followed by a trimmed item cleans to the item; only one marker goes, so "- - x" becomes "- x" |
| BidLetterDisplay.MojibakeStripped | src/components/ui/bid-letter-display.tsx:45 | "â€¢ " followed by a trimmed item cleans to the item |
| BidLetterDisplay.BulletedLinesUnbroken | src/components/ui/bid-letter-display.tsx:44 | the "- " lines of single-line items hold no line break |
| BidLetterDisplay.BulletedLinesClean | src/components/ui/bid-letter-display.tsx:45 | the "- " lines of trimmed items clean back to the items |
| BidLetterDisplay.CleanBulletedAt | src/components/ui/bid-letter-display.tsx:45 | one "- " line cleans back to its item |
| BidLetterDisplay.EmptyHasNoItems | src/components/ui/bid-letter-display.tsx:44-50 | an empty text gives no items |
| BidLetterDisplay.ReadBackLines | src/components/ui/bid-letter-display.tsx:44-50 | reading the "- " lines back sees exactly the items as the cleaned lines |
| BidLetterDisplay.AllKept | src/components/ui/bid-letter-display.tsx:46-49 | when no cleaned line is empty, the items are all of them, keyed by index |
| BidLetterDisplay.RoundTrip | src/components/ui/bid-letter-display.tsx:42-52 | non-empty, single-line, trimmed items written as "- " lines and read back give the same items, in order, keyed by line; an item that itself starts with a marker keeps it |
| BidLetterDisplay.ListIsStable | src/components/ui/bid-letter-display.tsx:42-52 | the items read from any text, written back as "- " lines and read again, give the same texts |

## Left out

- The generation service client and its configuration (`src/app/actions.ts:13-15`, `82-92`): an external network call. Its result is the parameter `outcome`.
- The prompt texts (`src/app/actions.ts:39-80`): free prose handed to the service. Only the agency line (line 55) is modelled, by `BidActions.AgencyShown`, and the action returns the request itself rather than the prompt.
- Today's date and the date formatting of `date-fns`, and `toLocaleString` of the budget: clock and locale libraries outside the repository.
- `Number(...)` and `new Date(...)`: these are the parameters `coerce` and `parseDate`. JavaScript numbers are exact reals plus NaN and the infinities; floating-point rounding is not modelled.
- What the generation service does with the response schema (`src/app/schema.ts:37-103`): the model keeps only its record type, `BidSchema.BidLetterData`. The field descriptions are instructions to the service.
- The wording of Zod's own default messages: it comes from the Zod library, so those messages are named, not spelled out.
- The React components, the clipboard write, the copied-state flag and the rendered markup. `ListFromString` is modelled as the list of items it renders, each with its key and text.
- `console.error` in the catch block: logging only.
- `prevState`: the action never reads it.
- `BidSchema.Validate`'s errors are the flattened `fieldErrors` only. The form-level errors of a flattened Zod error are never read by the source.
