# Job application form: progress engine and upload-URL handler

This project models the logic of a small job-application web site:

- **The application form component** (`components/ApplicationForm.tsx`). It keeps the
  applicant's answers and uploaded files and shows a progress bar. Progress is the
  share of filled-in fields, rounded to a whole percentage. There are 13 fields, or
  14 when the applicant says they have restrictions and the reason field appears.
  The component is modelled as a class `FormComponent` with the fields `formData`,
  `files` and `progress`. `CalculateProgress` is its chain of counter increments, and
  `HandleChange` and `HandleFileChange` are its two input handlers. Each handler
  recomputes the progress, as the component's effect does after every state change.
- **The progress bar** (`components/ProgressBar.tsx`), which clamps its input to 0..100.
- **The serverless function that issues pre-signed upload URLs**
  (`netlify/functions/generate-upload-url.js`). It is modelled as a pure function from
  the request, the environment, the random UUID, the JSON parser's result and the
  signer's result to the response. The model covers the order of its guards, the
  file-name sanitisation, the object key and the status codes.
- **The data shapes** (`types.ts`): the tri-state answers, the file slots and the error map.

Files:

- `Wrappers.dfy`: `Option`.
- `FormTypes.dfy`: `types.ts`, plus the field and slot names the form's inputs carry and
  the JavaScript value each property holds.
- `JsText.dfy`: `String.prototype.trim` over the ECMAScript white-space and line-terminator set.
- `ProgressBar.dfy`: the clamp.
- `ApplicationForm.dfy`: the completeness test, the progress arithmetic and the component class.
- `UploadUrl.dfy`: the upload-URL handler.

Modelling choices:

- `Math.round(c / t * 100)` is computed on integers as `(200c + t) / (2t)`.
  `RoundPercent`'s contract says this is the nearest integer to the exact ratio
  `100c/t`, with halves rounded up. `NoHalfwayCase` proves that for the form's
  denominators 13 and 14 the exact ratio is never a half-integer; since its
  denominator is at most 28, it is then at least 1/28 away from every half-integer.
  A floating-point quotient that is off by less than that rounds the same way. The
  model does not prove anything about floating-point error itself.
- The handler works on JavaScript strings, i.e. sequences of UTF-16 code units. That
  is what the regular expression without the `u` flag replaces: a character outside
  the Basic Multilingual Plane becomes two underscores.
- The form's strings are Dafny strings. Every white-space character `trim` strips is
  in the Basic Multilingual Plane.
- `IsCompleted` tests a string by "has a character that is not white space".
  `IsCompletedIff` proves this is exactly `value.trim() !== ''`. `JsText.TrimSpec`
  and `JsText.TrimUnique` characterise `Trim` independently of its definition.
- `JSON.parse`, the signer (`new S3Client`, `PutObjectCommand`, `getSignedUrl`),
  `randomUUID` and `process.env` are inputs to `Handler`. A parse that throws is
  `SyntaxError`. A parse to `null` is `ParsedNull`, whose destructuring throws. A
  signer that rejects is `SigningFailed`.

## Model

| member | source | states |
|---|---|---|
| FormTypes.AnswerOf | types.ts:9-10 | the answer a string denotes; it is defined for exactly the three strings `'Yes'`, `'No'` and `''`, and inverts `AnswerText` |
| FormTypes.MessageFor | types.ts:22-24 | an error map reads a message for a key exactly when the key is present with a defined string, and reads nothing for an absent or `undefined` entry |
| FormTypes.FieldNamed | types.ts:2-13 | the field an input name addresses is the one whose property key is that name, and no other name addresses a field |
| FormTypes.SlotNamed | types.ts:15-20 | the slot an input name addresses is the one whose property key is that name, and no other name addresses a slot |
| FormTypes.FieldValue | types.ts:3-12 | every property holds a value of its declared type: a string for the six text fields and the reason, `'Yes'`/`'No'`/`''` for the two answers, a boolean for the agreement |
| FormTypes.FormDataExtensional | types.ts:2-13 | two form records with the same ten property values are equal |
| FormTypes.SlotValue | types.ts:15-20 | `cv`, `passportPhoto` and `workplacePhoto` each hold one file or `null`; `additionalPhotos` holds a list of any length |
| FormTypes.FileOrNull | types.ts:16-17 | a single-file slot reads as a file or as `null` |
| FormTypes.FormFilesExtensional | types.ts:15-20 | two file records with the same four slot values are equal |
| JsText.IsWhitespace | components/ApplicationForm.tsx:65 | the characters `trim` strips: ECMAScript WhiteSpace (tab, vertical tab, form feed, space, no-break space, byte-order mark, the Unicode space separators) and LineTerminator (line feed, carriage return, line and paragraph separators) |
| JsText.Trim | components/ApplicationForm.tsx:65 | `trim` never lengthens its input, and neither end of a non-empty result is white space |
| JsText.TrimSpec | components/ApplicationForm.tsx:65 | `trim` returns a contiguous slice of its input with only white space before and after it |
| JsText.TrimUnique | components/ApplicationForm.tsx:65 | any slice of the input with only white space around it and no white space at either end is the trimmed string, so `trim` is the unique such slice |
| JsText.LeadingWhitespace | components/ApplicationForm.tsx:65 | a white-space character in front of the input stays outside the trimmed slice |
| JsText.TrailingWhitespace | components/ApplicationForm.tsx:65 | a white-space character behind the input stays outside the trimmed slice |
| JsText.TrimEmptyIff | components/ApplicationForm.tsx:65 | trimming yields `''` exactly when every character is white space |
| JsText.TrimIdempotent | components/ApplicationForm.tsx:65 | trimming twice gives the same result as trimming once |
| ProgressBar.Max | components/ProgressBar.tsx:9 | `Math.max` is the larger of its two arguments |
| ProgressBar.Min | components/ProgressBar.tsx:9 | `Math.min` is the smaller of its two arguments |
| ProgressBar.Clamp | components/ProgressBar.tsx:9 | the clamped value lies in 0..100; a value already in range is unchanged, a negative one gives 0 and one above 100 gives 100 |
| ProgressBar.ClampIdempotent | components/ProgressBar.tsx:9 | clamping a clamped value changes nothing |
| ProgressBar.ClampMonotone | components/ProgressBar.tsx:9 | clamping preserves order: `p <= q` implies `clamp(p) <= clamp(q)` |
| ApplicationForm.IsCompleted | components/ApplicationForm.tsx:64-69 | the completeness test: a string with a non-white-space character, `true`, a non-empty list, or any other value that is neither `null` nor `''` (a file) |
| ApplicationForm.IsCompletedIff | components/ApplicationForm.tsx:64-69 | a string is complete exactly when its trim is not `''`, a boolean exactly when it is `true`, a list exactly when it is non-empty; a file is always complete and `null` never |
| ApplicationForm.TotalFields | components/ApplicationForm.tsx:71-86 | the denominator is 14 when restrictions are `'Yes'` and 13 otherwise |
| ApplicationForm.CompletedFields | components/ApplicationForm.tsx:72-90 | the completed count never exceeds the denominator |
| ApplicationForm.TextCount | components/ApplicationForm.tsx:72-77 | at most six of the free-text fields count |
| ApplicationForm.AnswerCount | components/ApplicationForm.tsx:78-79 | at most the two radio questions count |
| ApplicationForm.ReasonCount | components/ApplicationForm.tsx:80-83 | the reason contributes at most one, and nothing unless restrictions are `'Yes'` |
| ApplicationForm.SlotCount | components/ApplicationForm.tsx:87-90 | at most the four file slots count |
| ApplicationForm.RoundPercent | components/ApplicationForm.tsx:92 | the integer percentage `r` satisfies `r - 1/2 <= 100c/t < r + 1/2`, which is `Math.round` of the exact ratio |
| ApplicationForm.Progress | components/ApplicationForm.tsx:62-92 | the computed progress lies in 0..100 |
| ApplicationForm.RoundPercentRange | components/ApplicationForm.tsx:92 | for denominators 13 and 14 the rounded percentage is at most 100; it is 100 exactly when the count is full and 0 exactly when the count is zero |
| ApplicationForm.NoHalfwayCase | components/ApplicationForm.tsx:92 | for denominators 13 and 14 the exact percentage is never halfway between two integers |
| ApplicationForm.CompletedAllIff | components/ApplicationForm.tsx:72-90 | the count equals the denominator exactly when every counted field and every slot is complete |
| ApplicationForm.CompletedNoneIff | components/ApplicationForm.tsx:72-90 | the count is zero exactly when no counted field and no slot is complete |
| ApplicationForm.ProgressFullIff | components/ApplicationForm.tsx:72-92 | progress is 100 exactly when every counted field and every slot is complete |
| ApplicationForm.ProgressZeroIff | components/ApplicationForm.tsx:72-92 | progress is 0 exactly when no counted field and no slot is complete |
| ApplicationForm.ClampKeepsProgress | components/ProgressBar.tsx:9 | the progress bar's clamp never alters the form's progress |
| ApplicationForm.RestrictionsRaiseTotal | components/ApplicationForm.tsx:80-81 | switching restrictions to `'Yes'` from any other answer raises the denominator by exactly one |
| ApplicationForm.AnswerCompletedIff | components/ApplicationForm.tsx:78-79 | a radio question counts exactly when it is answered `'Yes'` or `'No'` |
| ApplicationForm.AnswerCountIff | components/ApplicationForm.tsx:78-79 | the answer count is the number of answered radio questions |
| ApplicationForm.TextCountFrame | components/ApplicationForm.tsx:72-77 | the text count depends only on the six free-text fields |
| ApplicationForm.RestrictionsReasonCountsOnlyWithContent | components/ApplicationForm.tsx:80-83 | going from `'No'` to `'Yes'` adds to the count exactly one when the reason has non-white-space content and nothing otherwise |
| ApplicationForm.AnsweredRestrictionsCountOnce | components/ApplicationForm.tsx:79 | `'Yes'` and `'No'` each count once as an answer to the restrictions question |
| ApplicationForm.RestrictionsReasonIgnoredUnlessYes | components/ApplicationForm.tsx:80-83 | unless restrictions are `'Yes'`, the reason's content has no effect on progress |
| ApplicationForm.InitialFormData | components/ApplicationForm.tsx:40-51 | the mount state of the fields: no field of it is complete |
| ApplicationForm.InitialFiles | components/ApplicationForm.tsx:53-58 | the mount state of the files: no slot of it is complete |
| ApplicationForm.InitialProgressIsZero | components/ApplicationForm.tsx:40-60 | the state the component mounts with (empty strings, unanswered, unchecked, no files) has progress 0 |
| ApplicationForm.WithField | components/ApplicationForm.tsx:102-107 | the spread update `{ ...prev, [name]: v }` sets the named property to `v` and leaves every other property as it was |
| ApplicationForm.WithSlot | components/ApplicationForm.tsx:113-117 | the spread update of a slot sets that slot to the new value and leaves the other slots as they were |
| ApplicationForm.WithFieldCurrentValue | components/ApplicationForm.tsx:104-106 | writing a property's current value back leaves the record unchanged |
| ApplicationForm.WithFieldLastWriteWins | components/ApplicationForm.tsx:104-106 | of two spread updates of the same property, the second one wins |
| ApplicationForm.WithFieldCommutes | components/ApplicationForm.tsx:104-106 | spread updates of two different properties commute |
| ApplicationForm.WithSlotCurrentValue | components/ApplicationForm.tsx:114-116 | writing a slot's current value back leaves the file record unchanged |
| ApplicationForm.WithSlotLastWriteWins | components/ApplicationForm.tsx:114-116 | of two spread updates of the same slot, the second one wins |
| ApplicationForm.FormComponent.constructor | components/ApplicationForm.tsx:40-97 | the component mounts with the initial fields and files, and the first progress computation leaves progress 0 |
| ApplicationForm.FormComponent.CalculateProgress | components/ApplicationForm.tsx:62-93 | the chain of `if`-guarded increments stores `Progress(formData, files)`, the rounded share of completed fields |
| ApplicationForm.FormComponent.HandleChange | components/ApplicationForm.tsx:99-108 | the field the input names takes the event's value: a checkbox stores its `checked` flag, any other input its `value` string; every other field and all files are unchanged, and progress is recomputed |
| ApplicationForm.FormComponent.HandleFileChange | components/ApplicationForm.tsx:110-119 | with an absent or empty selection the files are unchanged; otherwise `additionalPhotos` is replaced by the whole selection, another named slot takes the first file, and all other slots and fields are unchanged; progress is recomputed |
| GenerateUploadUrl.IsSafe | netlify/functions/generate-upload-url.js:40 | the code units the regular expression `[^a-zA-Z0-9.\-_]` does not match: ASCII letters, digits, `.`, `-` and `_` |
| GenerateUploadUrl.Sanitize | netlify/functions/generate-upload-url.js:40 | the sanitised name has the input's length; each code unit in `[a-zA-Z0-9._-]` is kept and every other becomes `_` |
| GenerateUploadUrl.SanitizeIsSafe | netlify/functions/generate-upload-url.js:40 | every code unit of a sanitised name is in `[a-zA-Z0-9._-]` |
| GenerateUploadUrl.SanitizeFixedIff | netlify/functions/generate-upload-url.js:40 | sanitising leaves a name unchanged exactly when all its code units are already safe |
| GenerateUploadUrl.SanitizeIdempotent | netlify/functions/generate-upload-url.js:40 | sanitising a sanitised name returns it unchanged |
| GenerateUploadUrl.UploadsPrefix | netlify/functions/generate-upload-url.js:41 | the key folder `uploads/` is eight code units ending in its only slash |
| GenerateUploadUrl.ObjectKey | netlify/functions/generate-upload-url.js:41 | the key starts with `uploads/`, continues with the UUID and a dash, and ends with the sanitised name |
| GenerateUploadUrl.KeyStaysInUploads | netlify/functions/generate-upload-url.js:40-41 | for a UUID without a slash, the key of any sanitised name has exactly one slash, that of `uploads/` |
| GenerateUploadUrl.Configured | netlify/functions/generate-upload-url.js:12-19 | the configuration is complete when all four variables are set and non-empty (truthy) |
| GenerateUploadUrl.Truthy | netlify/functions/generate-upload-url.js:27 | JavaScript truthiness of a parsed property: `undefined`, `null`, `false`, `0` and `''` are falsy, everything else truthy |
| GenerateUploadUrl.Endpoint | netlify/functions/generate-upload-url.js:33 | the endpoint is `https://`, then the account id, then `.r2.cloudflarestorage.com` |
| GenerateUploadUrl.PresignFor | netlify/functions/generate-upload-url.js:31-50 | the signer receives region `auto`, the configured access key id and secret, the endpoint of the configured account, the configured bucket, the key, the request's content type and a 300-second expiry |
| GenerateUploadUrl.Handler | netlify/functions/generate-upload-url.js:7-60 | the status is one of 200, 400, 405, 500; it is 405 exactly for a method other than POST; a URL and key are returned exactly with 200; a POST with incomplete configuration gets the configuration error |
| GenerateUploadUrl.Issue | netlify/functions/generate-upload-url.js:23-59 | inside the `try` block the status is 200, 400 or 500; it is 400 exactly when the body parsed and a field is falsy; a URL and key are returned exactly with 200 |
| GenerateUploadUrl.IssuedKeyIsUploadKey | netlify/functions/generate-upload-url.js:40-55 | every key in a 200 response is `uploads/<uuid>-<name>` with a name of safe code units only |
| GenerateUploadUrl.NonPostRefused | netlify/functions/generate-upload-url.js:8-10 | any method other than POST gets 405 `Method Not Allowed`, whatever the configuration, body, parser and signer |
| GenerateUploadUrl.ConfigurationCheckedBeforeBody | netlify/functions/generate-upload-url.js:12-21 | a POST with a missing or empty variable gets the 500 configuration error, the same for every body and parser |
| GenerateUploadUrl.UnparsableBodyFails | netlify/functions/generate-upload-url.js:23-59 | a body that fails to parse, or parses to `null`, gets the 500 internal error |
| GenerateUploadUrl.MissingFieldRejected | netlify/functions/generate-upload-url.js:27-29 | a falsy `filename` or `contentType` gets 400 and no URL or key |
| GenerateUploadUrl.AbsentBodyReadAsEmptyObject | netlify/functions/generate-upload-url.js:24 | an absent or empty body falls back to `'{}'`: such a request gets the same response as one whose body is `{}` |
| GenerateUploadUrl.AbsentBodyRejected | netlify/functions/generate-upload-url.js:24-29 | an absent or empty body is read as `{}`, which lacks both fields, so it gets 400 |
| GenerateUploadUrl.NonStringFilenameFails | netlify/functions/generate-upload-url.js:40-59 | a truthy `filename` that is not a string makes `replace` throw, giving the 500 internal error |
| GenerateUploadUrl.SignedResponse | netlify/functions/generate-upload-url.js:40-59 | with both fields present and a string filename, the signer is asked for `uploads/<uuid>-<sanitised name>`; its URL is returned with that key under 200, and its failure gives the 500 internal error |

## Left out

- Rendering: the JSX markup, CSS classes, the static page content and the
  restriction reason's conditional display (`components/ApplicationForm.tsx:161-166`)
  only present the modelled state.
- Validation, submission and upload fan-out: the component has none. Its backend was
  removed (`components/ApplicationForm.tsx:5-6`) and the submit button is always
  disabled (`components/ApplicationForm.tsx:186-187`). `FormErrors` is declared but
  never used. None of these is modelled.
- The `accept` attributes, the size note and the photo-count label on the file inputs
  are labels, not checks.
- `FormComponent.HandleChange`: requires that the event carry a value of the named
  field's declared type. The rendered inputs guarantee this: the only checkbox is the
  agreement, and the radios send `Yes` or `No`. For a name that is no field, JavaScript
  adds an unrelated key to the state. The model leaves the ten declared fields unchanged.
- `FormComponent.HandleFileChange`: for a name that is no slot, JavaScript adds an
  unrelated key. The model leaves the four slots unchanged.
- React's asynchronous state updates and `useEffect` scheduling: each handler
  recomputes the progress at its end, which is the state after the effect has run.
- Floating point: `Math.round` of the float quotient is replaced by the integer
  formula, proved to be round-half-up of the exact ratio, which is never a
  half-integer here. Floating-point error itself is not modelled. `ProgressBar.Clamp`
  takes an integer, while the component itself takes any `number`.
- The internals of `S3Client`, `PutObjectCommand`, `getSignedUrl`, `randomUUID`,
  `JSON.parse` and `process.env`: they are inputs or outcomes of `Handler`. The
  `console.error` log and the JSON encoding of the success body are not modelled.
  The success body is the record of `url` and `key`.
- File contents, sizes and MIME types: the form only stores `File` objects and never
  inspects them.
