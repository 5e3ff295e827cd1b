/**
  The application form component: its field and file state, the completeness test
  behind the progress bar, the progress percentage, and the two input handlers.
 */
module ApplicationForm {
  import opened Wrappers
  import opened FormTypes
  import JsText
  import ProgressBar

  /**
    The form's completeness test on one stored value: a string counts once it has a
    character that is not white space, a boolean when it is `true`, a list when it is
    not empty, and anything else when it is neither `null` nor `''`.
    `IsCompletedIff` shows the string case to be the component's `value.trim() !== ''`.
   */
  function IsCompleted(v: JsValue): bool {
    match v
    case JsString(s) => !JsText.AllWhitespace(s)
    case JsBool(b) => b == true
    case JsFileList(files) => |files| > 0
    case JsFile(_) => true
    case JsNull => false
  }

  /**
    A string is complete exactly when trimming it leaves something, a boolean exactly
    when it is `true`, a list exactly when it is not empty; a file always is, `null`
    never.
   */
  lemma IsCompletedIff(v: JsValue)
    ensures v.JsString? ==> (IsCompleted(v) <==> JsText.Trim(v.s) != "")
    ensures v.JsBool? ==> (IsCompleted(v) <==> v.b)
    ensures v.JsFileList? ==> (IsCompleted(v) <==> v.files != [])
    ensures v.JsFile? ==> IsCompleted(v)
    ensures v.JsNull? ==> !IsCompleted(v)
  {
    if v.JsString? {
      JsText.TrimEmptyIff(v.s);
    }
  }

  /** One count for a satisfied check. */
  function Tick(b: bool): nat {
    if b then 1 else 0
  }

  /** Whether a field enters the progress count: the restrictions reason only after a `Yes`. */
  predicate Counted(d: FormData, f: Field) {
    f != RestrictionsReason || d.hasRestrictions == Yes
  }

  /** The progress denominator: nine scalar fields, the reason when restrictions apply, four slots. */
  function TotalFields(d: FormData): (r: nat)
    ensures d.hasRestrictions == Yes ==> r == 14
    ensures d.hasRestrictions != Yes ==> r == 13
  {
    9 + (if d.hasRestrictions == Yes then 1 else 0) + 4
  }

  /** The progress numerator: the counted fields and the slots that are filled in. */
  function CompletedFields(d: FormData, fs: FormFiles): (r: nat)
    ensures r <= TotalFields(d)
  {
    TextCount(d) + AnswerCount(d) + ReasonCount(d) + Tick(IsCompleted(FieldValue(d, Agreement)))
    + SlotCount(fs)
  }

  /** How many of the six free-text fields are filled in. */
  function TextCount(d: FormData): (r: nat)
    ensures r <= 6
  {
    Tick(IsCompleted(FieldValue(d, Name)))
    + Tick(IsCompleted(FieldValue(d, Dob)))
    + Tick(IsCompleted(FieldValue(d, Mobile)))
    + Tick(IsCompleted(FieldValue(d, Email)))
    + Tick(IsCompleted(FieldValue(d, ExpectedSalary)))
    + Tick(IsCompleted(FieldValue(d, Bio)))
  }

  /** How many of the two radio questions are answered. */
  function AnswerCount(d: FormData): (r: nat)
    ensures r <= 2
  {
    Tick(IsCompleted(FieldValue(d, ComfortableTraveling)))
    + Tick(IsCompleted(FieldValue(d, HasRestrictions)))
  }

  /** The reason's contribution: only counted after a `Yes` to restrictions. */
  function ReasonCount(d: FormData): (r: nat)
    ensures r <= (if d.hasRestrictions == Yes then 1 else 0)
  {
    if d.hasRestrictions == Yes then Tick(IsCompleted(FieldValue(d, RestrictionsReason))) else 0
  }

  /** How many of the four slots hold a file (`if (files.cv)`, `.length > 0`, ...). */
  function SlotCount(fs: FormFiles): (r: nat)
    ensures r <= 4
  {
    Tick(fs.cv.Some?)
    + Tick(fs.passportPhoto.Some?)
    + Tick(|fs.additionalPhotos| > 0)
    + Tick(fs.workplacePhoto.Some?)
  }

  /**
    `Math.round(c / t * 100)` on whole numbers: the integer `r` with
    r - 1/2 <= 100c/t < r + 1/2, the nearest integer to the exact percentage, halfway
    cases rounding up as `Math.round` does.
   */
  function RoundPercent(c: nat, t: nat): (r: nat)
    requires t > 0
    ensures 2 * t * r - t <= 200 * c < 2 * t * r + t
  {
    var q := (200 * c + t) / (2 * t);
    assert 2 * t * q <= 200 * c + t < 2 * t * q + 2 * t;
    q
  }

  /** Every field and every slot that the progress count looks at is filled in. */
  predicate AllCompleted(d: FormData, fs: FormFiles) {
    (forall f :: Counted(d, f) ==> IsCompleted(FieldValue(d, f)))
    && (forall t :: IsCompleted(SlotValue(fs, t)))
  }

  /** No field and no slot that the progress count looks at is filled in. */
  predicate NoneCompleted(d: FormData, fs: FormFiles) {
    (forall f :: Counted(d, f) ==> !IsCompleted(FieldValue(d, f)))
    && (forall t :: !IsCompleted(SlotValue(fs, t)))
  }

  /** The percentage the progress bar is given. */
  function Progress(d: FormData, fs: FormFiles): (r: nat)
    ensures r <= 100
  {
    RoundPercentRange(CompletedFields(d, fs), TotalFields(d));
    RoundPercent(CompletedFields(d, fs), TotalFields(d))
  }

  /** With the form's two denominators the rounded percentage spans exactly 0..100. */
  lemma RoundPercentRange(c: nat, t: nat)
    requires t == 13 || t == 14
    requires c <= t
    ensures RoundPercent(c, t) <= 100
    ensures RoundPercent(c, t) == 100 <==> c == t
    ensures RoundPercent(c, t) == 0 <==> c == 0
  {
    var r := RoundPercent(c, t);
    if t == 13 {
      assert 26 * r - 13 <= 200 * c < 26 * r + 13;
    } else {
      assert 28 * r - 14 <= 200 * c < 28 * r + 14;
    }
  }

  /**
    With the form's two denominators 100c/t is never halfway between two integers, so
    rounding halfway cases up or down, or a last-bit error in the floating-point
    quotient, cannot change the rounded percentage.
   */
  lemma NoHalfwayCase(c: nat, t: nat)
    requires t == 13 || t == 14
    requires c <= t
    ensures (200 * c) % (2 * t) != t
  {
    if t == 13 {
      assert 200 * c == 26 * ((200 * c) / 26) + (200 * c) % 26;
    } else {
      assert 200 * c == 28 * ((200 * c) / 28) + (200 * c) % 28;
    }
  }

  /** The numerator reaches the denominator exactly when everything counted is filled in. */
  lemma CompletedAllIff(d: FormData, fs: FormFiles)
    ensures CompletedFields(d, fs) == TotalFields(d) <==> AllCompleted(d, fs)
  {
    if CompletedFields(d, fs) == TotalFields(d) {
      forall f | Counted(d, f) ensures IsCompleted(FieldValue(d, f)) {
        match f
        case Name =>
        case Dob =>
        case Mobile =>
        case Email =>
        case ExpectedSalary =>
        case Bio =>
        case ComfortableTraveling =>
        case HasRestrictions =>
        case RestrictionsReason =>
        case Agreement =>
      }
      forall t ensures IsCompleted(SlotValue(fs, t)) {
        match t
        case Cv =>
        case PassportPhoto =>
        case AdditionalPhotos =>
        case WorkplacePhoto =>
      }
    }
    if AllCompleted(d, fs) {
      assert IsCompleted(SlotValue(fs, Cv));
      assert IsCompleted(SlotValue(fs, PassportPhoto));
      assert IsCompleted(SlotValue(fs, AdditionalPhotos));
      assert IsCompleted(SlotValue(fs, WorkplacePhoto));
    }
  }

  /** The numerator is zero exactly when nothing counted is filled in. */
  lemma CompletedNoneIff(d: FormData, fs: FormFiles)
    ensures CompletedFields(d, fs) == 0 <==> NoneCompleted(d, fs)
  {
    if CompletedFields(d, fs) == 0 {
      forall f | Counted(d, f) ensures !IsCompleted(FieldValue(d, f)) {
        match f
        case Name =>
        case Dob =>
        case Mobile =>
        case Email =>
        case ExpectedSalary =>
        case Bio =>
        case ComfortableTraveling =>
        case HasRestrictions =>
        case RestrictionsReason =>
        case Agreement =>
      }
      forall t ensures !IsCompleted(SlotValue(fs, t)) {
        match t
        case Cv =>
        case PassportPhoto =>
        case AdditionalPhotos =>
        case WorkplacePhoto =>
      }
    }
    if NoneCompleted(d, fs) {
      assert !IsCompleted(SlotValue(fs, Cv));
      assert !IsCompleted(SlotValue(fs, PassportPhoto));
      assert !IsCompleted(SlotValue(fs, AdditionalPhotos));
      assert !IsCompleted(SlotValue(fs, WorkplacePhoto));
    }
  }

  /** Progress is 100 exactly when every counted field and every slot is filled in. */
  lemma ProgressFullIff(d: FormData, fs: FormFiles)
    ensures Progress(d, fs) == 100 <==> AllCompleted(d, fs)
  {
    CompletedAllIff(d, fs);
    RoundPercentRange(CompletedFields(d, fs), TotalFields(d));
  }

  /** Progress is 0 exactly when no counted field and no slot is filled in. */
  lemma ProgressZeroIff(d: FormData, fs: FormFiles)
    ensures Progress(d, fs) == 0 <==> NoneCompleted(d, fs)
  {
    CompletedNoneIff(d, fs);
    RoundPercentRange(CompletedFields(d, fs), TotalFields(d));
  }

  /** The progress bar's clamp never alters the form's progress. */
  lemma ClampKeepsProgress(d: FormData, fs: FormFiles)
    ensures ProgressBar.Clamp(Progress(d, fs)) == Progress(d, fs)
  {
  }

  /** Answering `Yes` to restrictions, from any other answer, raises the denominator by one. */
  lemma RestrictionsRaiseTotal(d: FormData)
    requires d.hasRestrictions != Yes
    ensures TotalFields(d.(hasRestrictions := Yes)) == TotalFields(d) + 1
  {
  }

  /** A radio question counts as filled in exactly when it has been answered. */
  lemma AnswerCompletedIff(a: Answer)
    ensures IsCompleted(JsString(AnswerText(a))) <==> a != Unanswered
  {
    match a
    case Unanswered =>
    case Yes => assert !JsText.IsWhitespace(AnswerText(a)[0]);
    case No => assert !JsText.IsWhitespace(AnswerText(a)[0]);
  }

  /** The answer count is the number of radio questions answered. */
  lemma AnswerCountIff(d: FormData)
    ensures AnswerCount(d) == Tick(d.comfortableTraveling != Unanswered) + Tick(d.hasRestrictions != Unanswered)
  {
    AnswerCompletedIff(d.comfortableTraveling);
    AnswerCompletedIff(d.hasRestrictions);
  }

  /** The text count reads only the six free-text fields. */
  lemma TextCountFrame(d: FormData, e: FormData)
    requires d.name == e.name && d.dob == e.dob && d.mobile == e.mobile
    requires d.email == e.email && d.expectedSalary == e.expectedSalary && d.bio == e.bio
    ensures TextCount(d) == TextCount(e)
  {
  }

  /**
    Switching restrictions from `No` to `Yes` adds to the numerator only what the
    reason itself contributes: one if it has non-white-space content, else nothing.
   */
  lemma RestrictionsReasonCountsOnlyWithContent(d: FormData, fs: FormFiles)
    ensures CompletedFields(d.(hasRestrictions := Yes), fs)
         == CompletedFields(d.(hasRestrictions := No), fs)
            + Tick(IsCompleted(JsString(d.restrictionsReason)))
  {
    var yes, no := d.(hasRestrictions := Yes), d.(hasRestrictions := No);
    TextCountFrame(yes, no);
    AnsweredRestrictionsCountOnce(d);
  }

  /** `Yes` and `No` each count once as an answer to the restrictions question. */
  lemma AnsweredRestrictionsCountOnce(d: FormData)
    ensures AnswerCount(d.(hasRestrictions := Yes)) == AnswerCount(d.(hasRestrictions := No))
  {
    AnswerCountIff(d.(hasRestrictions := Yes));
    AnswerCountIff(d.(hasRestrictions := No));
  }

  /** Unless restrictions are `Yes`, the reason's content has no effect on progress. */
  lemma RestrictionsReasonIgnoredUnlessYes(d: FormData, fs: FormFiles, reason: string)
    requires d.hasRestrictions != Yes
    ensures Progress(d.(restrictionsReason := reason), fs) == Progress(d, fs)
  {
    var e := d.(restrictionsReason := reason);
    TextCountFrame(d, e);
    assert CompletedFields(e, fs) == CompletedFields(d, fs);
  }

  /** The state the component mounts with: empty strings, unanswered, unchecked. */
  function InitialFormData(): (r: FormData)
    ensures forall f :: !IsCompleted(FieldValue(r, f))
  {
    FormData("", "", "", "", "", "", Unanswered, Unanswered, "", false)
  }

  /** The file state the component mounts with: no file in any slot. */
  function InitialFiles(): (r: FormFiles)
    ensures forall t :: !IsCompleted(SlotValue(r, t))
  {
    FormFiles(None, None, [], None)
  }

  /** The freshly mounted form shows zero progress. */
  lemma InitialProgressIsZero()
    ensures Progress(InitialFormData(), InitialFiles()) == 0
  {
    ProgressZeroIff(InitialFormData(), InitialFiles());
  }

  /** `{ ...d, [FieldName(f)]: v }`: property `f` becomes `v`, every other stays as it was. */
  function WithField(d: FormData, f: Field, v: JsValue): (r: FormData)
    requires Accepts(f, v)
    ensures forall g :: FieldValue(r, g) == if g == f then v else FieldValue(d, g)
  {
    match f
    case Name => d.(name := v.s)
    case Dob => d.(dob := v.s)
    case Mobile => d.(mobile := v.s)
    case Email => d.(email := v.s)
    case ExpectedSalary => d.(expectedSalary := v.s)
    case Bio => d.(bio := v.s)
    case ComfortableTraveling => d.(comfortableTraveling := AnswerOf(v.s).value)
    case HasRestrictions => d.(hasRestrictions := AnswerOf(v.s).value)
    case RestrictionsReason => d.(restrictionsReason := v.s)
    case Agreement => d.(agreement := v.b)
  }

  /** `{ ...fs, [SlotName(t)]: v }`: slot `t` becomes `v`, every other stays as it was. */
  function WithSlot(fs: FormFiles, t: FileSlot, v: JsValue): (r: FormFiles)
    requires SlotAccepts(t, v)
    ensures forall u :: SlotValue(r, u) == if u == t then v else SlotValue(fs, u)
  {
    var single := if v.JsFile? then Some(v.file) else None;
    match t
    case Cv => fs.(cv := single)
    case PassportPhoto => fs.(passportPhoto := single)
    case AdditionalPhotos => fs.(additionalPhotos := v.files)
    case WorkplacePhoto => fs.(workplacePhoto := single)
  }

  /** Writing a property's current value back leaves the record as it was. */
  lemma WithFieldCurrentValue(d: FormData, f: Field)
    ensures WithField(d, f, FieldValue(d, f)) == d
  {
    FormDataExtensional(WithField(d, f, FieldValue(d, f)), d);
  }

  /** Of two writes to the same property, the second one wins. */
  lemma WithFieldLastWriteWins(d: FormData, f: Field, v: JsValue, w: JsValue)
    requires Accepts(f, v) && Accepts(f, w)
    ensures WithField(WithField(d, f, v), f, w) == WithField(d, f, w)
  {
    FormDataExtensional(WithField(WithField(d, f, v), f, w), WithField(d, f, w));
  }

  /** Writes to two different properties commute. */
  lemma WithFieldCommutes(d: FormData, f: Field, v: JsValue, g: Field, w: JsValue)
    requires f != g && Accepts(f, v) && Accepts(g, w)
    ensures WithField(WithField(d, f, v), g, w) == WithField(WithField(d, g, w), f, v)
  {
    FormDataExtensional(WithField(WithField(d, f, v), g, w), WithField(WithField(d, g, w), f, v));
  }

  /** Writing a slot's current value back leaves the file record as it was. */
  lemma WithSlotCurrentValue(fs: FormFiles, t: FileSlot)
    ensures WithSlot(fs, t, SlotValue(fs, t)) == fs
  {
    FormFilesExtensional(WithSlot(fs, t, SlotValue(fs, t)), fs);
  }

  /** Of two writes to the same slot, the second one wins. */
  lemma WithSlotLastWriteWins(fs: FormFiles, t: FileSlot, v: JsValue, w: JsValue)
    requires SlotAccepts(t, v) && SlotAccepts(t, w)
    ensures WithSlot(WithSlot(fs, t, v), t, w) == WithSlot(fs, t, w)
  {
    FormFilesExtensional(WithSlot(WithSlot(fs, t, v), t, w), WithSlot(fs, t, w));
  }

  /** The `name`, `value`, `type` and `checked` of the input that fired a change event. */
  datatype ChangeEvent = ChangeEvent(name: string, value: string, inputType: string, checked: bool)

  /** The value a change stores: a checkbox's `checked` flag, any other input's `value`. */
  function EventValue(e: ChangeEvent): JsValue {
    if e.inputType == "checkbox" then JsBool(e.checked) else JsString(e.value)
  }

  /**
    The inputs the form renders only send values their field's declared type admits:
    the checkbox is the agreement, and the radios send `Yes` or `No`.
   */
  predicate EventFits(e: ChangeEvent) {
    FieldNamed(e.name).Some? ==> Accepts(FieldNamed(e.name).value, EventValue(e))
  }

  /** The `name` and the selected `files` (absent or a list) of a file input's change event. */
  datatype FileChangeEvent = FileChangeEvent(name: string, selection: Option<seq<File>>)

  /** A change event that carries at least one selected file. */
  predicate HasSelection(e: FileChangeEvent) {
    e.selection.Some? && |e.selection.value| > 0
  }

  /** The application form component and its three pieces of state. */
  class FormComponent {
    var formData: FormData
    var files: FormFiles
    var progress: int

    /** Mounting: the initial state, then the effect computes the progress once. */
    constructor ()
      ensures formData == InitialFormData() && files == InitialFiles()
      ensures progress == 0
    {
      formData := InitialFormData();
      files := InitialFiles();
      progress := 0;
      new;
      CalculateProgress();
      InitialProgressIsZero();
    }

    /** Counts the completed fields against the denominator and stores the rounded percentage. */
    method CalculateProgress()
      modifies this`progress
      ensures progress == Progress(formData, files)
    {
      var completedFields := 0;
      var totalFields := 9;
      completedFields := completedFields + Tick(IsCompleted(FieldValue(formData, Name)));
      completedFields := completedFields + Tick(IsCompleted(FieldValue(formData, Dob)));
      completedFields := completedFields + Tick(IsCompleted(FieldValue(formData, Mobile)));
      completedFields := completedFields + Tick(IsCompleted(FieldValue(formData, Email)));
      completedFields := completedFields + Tick(IsCompleted(FieldValue(formData, ExpectedSalary)));
      completedFields := completedFields + Tick(IsCompleted(FieldValue(formData, Bio)));
      completedFields := completedFields + Tick(IsCompleted(FieldValue(formData, ComfortableTraveling)));
      completedFields := completedFields + Tick(IsCompleted(FieldValue(formData, HasRestrictions)));
      if formData.hasRestrictions == Yes {
        totalFields := totalFields + 1;
        completedFields := completedFields + Tick(IsCompleted(FieldValue(formData, RestrictionsReason)));
      }
      completedFields := completedFields + Tick(IsCompleted(FieldValue(formData, Agreement)));

      totalFields := totalFields + 4;
      completedFields := completedFields + Tick(files.cv.Some?);
      completedFields := completedFields + Tick(files.passportPhoto.Some?);
      completedFields := completedFields + Tick(|files.additionalPhotos| > 0);
      completedFields := completedFields + Tick(files.workplacePhoto.Some?);

      assert completedFields == CompletedFields(formData, files) && totalFields == TotalFields(formData);
      progress := RoundPercent(completedFields, totalFields);
    }

    /**
      A field input changed: the field it names takes the input's value (its checked
      flag for a checkbox), nothing else changes, and the progress is recomputed.
     */
    method HandleChange(e: ChangeEvent)
      requires EventFits(e)
      modifies this`formData, this`progress
      ensures forall g :: (FieldValue(formData, g)
        == if FieldNamed(e.name) == Some(g) then EventValue(e) else FieldValue(old(formData), g))
      ensures FieldNamed(e.name).Some? && e.inputType == "checkbox"
        ==> FieldValue(formData, FieldNamed(e.name).value) == JsBool(e.checked)
      ensures FieldNamed(e.name).Some? && e.inputType != "checkbox"
        ==> FieldValue(formData, FieldNamed(e.name).value) == JsString(e.value)
      ensures files == old(files)
      ensures progress == Progress(formData, files)
    {
      var value := EventValue(e);
      match FieldNamed(e.name) {
        case Some(f) =>
          formData := WithField(formData, f, value);
          assert FieldValue(formData, f) == value;
        case None =>
      }
      CalculateProgress();
    }

    /**
      A file input changed: with no selection nothing changes; otherwise the photo list
      is replaced by the whole selection and any other named slot takes its first file.
      The progress is recomputed.
     */
    method HandleFileChange(e: FileChangeEvent)
      modifies this`files, this`progress
      ensures !HasSelection(e) ==> files == old(files)
      ensures HasSelection(e) ==> forall t :: (SlotValue(files, t)
        == if SlotNamed(e.name) != Some(t) then SlotValue(old(files), t)
           else if t == AdditionalPhotos then JsFileList(e.selection.value)
           else JsFile(e.selection.value[0]))
      ensures formData == old(formData)
      ensures progress == Progress(formData, files)
    {
      if e.selection.Some? && |e.selection.value| > 0 {
        var chosen := e.selection.value;
        if e.name == "additionalPhotos" {
          files := WithSlot(files, AdditionalPhotos, JsFileList(chosen));
        } else {
          match SlotNamed(e.name) {
            case Some(t) => files := WithSlot(files, t, JsFile(chosen[0]));
            case None =>
          }
        }
      }
      CalculateProgress();
    }
  }
}
