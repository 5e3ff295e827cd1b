/**
  The data shapes of the application form (types.ts): the scalar answers, the file
  slots and the error map, together with the field and slot names the form's inputs
  carry and the JavaScript value each field holds at run time.
 */
module FormTypes {
  import opened Wrappers

  /** A tri-state radio answer: `'Yes' | 'No' | ''`. */
  datatype Answer = Unanswered | Yes | No

  /** The string a tri-state answer is stored as. */
  function AnswerText(a: Answer): string {
    match a
    case Unanswered => ""
    case Yes => "Yes"
    case No => "No"
  }

  /** The answer a string denotes, if it is one of the three the declared type admits. */
  function AnswerOf(s: string): (r: Option<Answer>)
    ensures r.Some? ==> AnswerText(r.value) == s
    ensures forall a :: AnswerText(a) == s ==> r == Some(a)
  {
    if s == "Yes" then Some(Yes)
    else if s == "No" then Some(No)
    else if s == "" then Some(Unanswered)
    else None
  }

  /** A browser `File` as far as the form sees it: it is only stored, never inspected. */
  datatype File = File(name: string, mimeType: string, size: nat)

  /** The scalar answers of one application. */
  datatype FormData = FormData(
    name: string,
    dob: string,
    mobile: string,
    email: string,
    expectedSalary: string,
    bio: string,
    comfortableTraveling: Answer,
    hasRestrictions: Answer,
    restrictionsReason: string,
    agreement: bool)

  /** The four upload slots: three hold at most one file, the photo list any number. */
  datatype FormFiles = FormFiles(
    cv: Option<File>,
    passportPhoto: Option<File>,
    additionalPhotos: seq<File>,
    workplacePhoto: Option<File>)

  /**
    An index signature `[key: string]: string | undefined`: a key may be absent or be
    present with the value `undefined`, both of which read as no message.
   */
  type FormErrors = map<string, Option<string>>

  /** The message recorded for `key`, reading an absent key like an `undefined` one. */
  function MessageFor(errors: FormErrors, key: string): (r: Option<string>)
    ensures r.Some? <==> key in errors && errors[key].Some?
    ensures r.Some? ==> errors[key] == r
  {
    if key in errors then errors[key] else None
  }

  /** The scalar fields of `FormData`, in declaration order. */
  datatype Field =
    | Name | Dob | Mobile | Email | ExpectedSalary | Bio
    | ComfortableTraveling | HasRestrictions | RestrictionsReason | Agreement

  /** The `name` attribute of the input bound to a field (the property's key). */
  function FieldName(f: Field): string {
    match f
    case Name => "name"
    case Dob => "dob"
    case Mobile => "mobile"
    case Email => "email"
    case ExpectedSalary => "expectedSalary"
    case Bio => "bio"
    case ComfortableTraveling => "comfortableTraveling"
    case HasRestrictions => "hasRestrictions"
    case RestrictionsReason => "restrictionsReason"
    case Agreement => "agreement"
  }

  /** The field an input name addresses, if it is one of the declared keys. */
  function FieldNamed(s: string): (r: Option<Field>)
    ensures r.Some? ==> FieldName(r.value) == s
    ensures forall f :: FieldName(f) == s ==> r == Some(f)
  {
    if s == "name" then Some(Name)
    else if s == "dob" then Some(Dob)
    else if s == "mobile" then Some(Mobile)
    else if s == "email" then Some(Email)
    else if s == "expectedSalary" then Some(ExpectedSalary)
    else if s == "bio" then Some(Bio)
    else if s == "comfortableTraveling" then Some(ComfortableTraveling)
    else if s == "hasRestrictions" then Some(HasRestrictions)
    else if s == "restrictionsReason" then Some(RestrictionsReason)
    else if s == "agreement" then Some(Agreement)
    else None
  }

  /** The file slots of `FormFiles`, in declaration order. */
  datatype FileSlot = Cv | PassportPhoto | AdditionalPhotos | WorkplacePhoto

  /** The `name` attribute of the file input bound to a slot. */
  function SlotName(t: FileSlot): string {
    match t
    case Cv => "cv"
    case PassportPhoto => "passportPhoto"
    case AdditionalPhotos => "additionalPhotos"
    case WorkplacePhoto => "workplacePhoto"
  }

  /** The slot an input name addresses, if it is one of the declared keys. */
  function SlotNamed(s: string): (r: Option<FileSlot>)
    ensures r.Some? ==> SlotName(r.value) == s
    ensures forall t :: SlotName(t) == s ==> r == Some(t)
  {
    if s == "cv" then Some(Cv)
    else if s == "passportPhoto" then Some(PassportPhoto)
    else if s == "additionalPhotos" then Some(AdditionalPhotos)
    else if s == "workplacePhoto" then Some(WorkplacePhoto)
    else None
  }

  /** The run-time JavaScript values the form stores and inspects. */
  datatype JsValue =
    | JsString(s: string)
    | JsBool(b: bool)
    | JsFile(file: File)
    | JsFileList(files: seq<File>)
    | JsNull

  /** Whether the declared type of field `f` admits the value `v`. */
  predicate Accepts(f: Field, v: JsValue) {
    match f
    case Agreement => v.JsBool?
    case ComfortableTraveling => v.JsString? && AnswerOf(v.s).Some?
    case HasRestrictions => v.JsString? && AnswerOf(v.s).Some?
    case _ => v.JsString?
  }

  /** The value of property `f` of a `FormData` object. */
  function FieldValue(d: FormData, f: Field): (r: JsValue)
    ensures Accepts(f, r)
  {
    match f
    case Name => JsString(d.name)
    case Dob => JsString(d.dob)
    case Mobile => JsString(d.mobile)
    case Email => JsString(d.email)
    case ExpectedSalary => JsString(d.expectedSalary)
    case Bio => JsString(d.bio)
    case ComfortableTraveling => JsString(AnswerText(d.comfortableTraveling))
    case HasRestrictions => JsString(AnswerText(d.hasRestrictions))
    case RestrictionsReason => JsString(d.restrictionsReason)
    case Agreement => JsBool(d.agreement)
  }

  /** A `FormData` value is determined by the values of its ten properties. */
  lemma FormDataExtensional(d: FormData, e: FormData)
    requires forall f :: FieldValue(d, f) == FieldValue(e, f)
    ensures d == e
  {
    assert FieldValue(d, Name) == FieldValue(e, Name);
    assert FieldValue(d, Dob) == FieldValue(e, Dob);
    assert FieldValue(d, Mobile) == FieldValue(e, Mobile);
    assert FieldValue(d, Email) == FieldValue(e, Email);
    assert FieldValue(d, ExpectedSalary) == FieldValue(e, ExpectedSalary);
    assert FieldValue(d, Bio) == FieldValue(e, Bio);
    assert FieldValue(d, RestrictionsReason) == FieldValue(e, RestrictionsReason);
    assert FieldValue(d, Agreement) == FieldValue(e, Agreement);
    assert AnswerOf(AnswerText(d.comfortableTraveling)) == Some(e.comfortableTraveling) by {
      assert FieldValue(d, ComfortableTraveling) == FieldValue(e, ComfortableTraveling);
    }
    assert AnswerOf(AnswerText(d.hasRestrictions)) == Some(e.hasRestrictions) by {
      assert FieldValue(d, HasRestrictions) == FieldValue(e, HasRestrictions);
    }
  }

  /** Whether the declared type of slot `t` admits the value `v`. */
  predicate SlotAccepts(t: FileSlot, v: JsValue) {
    if t == AdditionalPhotos then v.JsFileList? else v.JsFile? || v.JsNull?
  }

  /** The value of property `t` of a `FormFiles` object: a file, `null`, or a file list. */
  function SlotValue(fs: FormFiles, t: FileSlot): (r: JsValue)
    ensures SlotAccepts(t, r)
  {
    match t
    case Cv => FileOrNull(fs.cv)
    case PassportPhoto => FileOrNull(fs.passportPhoto)
    case AdditionalPhotos => JsFileList(fs.additionalPhotos)
    case WorkplacePhoto => FileOrNull(fs.workplacePhoto)
  }

  /** A single-file slot's content as a JavaScript value. */
  function FileOrNull(o: Option<File>): (r: JsValue)
    ensures r.JsFile? || r.JsNull?
  {
    if o.Some? then JsFile(o.value) else JsNull
  }

  /** A `FormFiles` value is determined by the values of its four properties. */
  lemma FormFilesExtensional(fs: FormFiles, gs: FormFiles)
    requires forall t :: SlotValue(fs, t) == SlotValue(gs, t)
    ensures fs == gs
  {
    assert SlotValue(fs, Cv) == SlotValue(gs, Cv);
    assert SlotValue(fs, PassportPhoto) == SlotValue(gs, PassportPhoto);
    assert SlotValue(fs, AdditionalPhotos) == SlotValue(gs, AdditionalPhotos);
    assert SlotValue(fs, WorkplacePhoto) == SlotValue(gs, WorkplacePhoto);
  }
}
