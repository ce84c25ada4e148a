/**
  The contact form of `Contact.tsx`: the three required fields, the
  e-mail pattern `/^[^\s@]+@[^\s@]+\.[^\s@]+$/`, and the form's state
  machine (typing, submitting, the simulated send, the success banner).
  The two timers of `handleSubmit` (the 2000 ms simulated send and the
  5000 ms banner) are events `SendSettled` and `SuccessExpired`.
 */
module Contact {
  import opened Text

  datatype FormData = FormData(name: string, email: string, message: string)

  datatype Field = NameField | EmailField | MessageField

  /** `FormErrors`: an absent key is `None`. */
  datatype FormErrors = FormErrors(name: Option<string>, email: Option<string>, message: Option<string>)

  const EmptyForm := FormData("", "", "")
  const NoErrors := FormErrors(None, None, None)

  const NameRequired := "Name is required"
  const EmailRequired := "Email is required"
  const InvalidEmail := "Invalid email format"
  const MessageRequired := "Message is required"

  function Get(d: FormData, f: Field): string {
    match f
    case NameField => d.name
    case EmailField => d.email
    case MessageField => d.message
  }

  function GetError(e: FormErrors, f: Field): Option<string> {
    match f
    case NameField => e.name
    case EmailField => e.email
    case MessageField => e.message
  }

  /** `{ ...prev, [name]: value }` on the form data. */
  function Set(d: FormData, f: Field, v: string): (r: FormData)
    ensures Get(r, f) == v
    ensures forall g :: g != f ==> Get(r, g) == Get(d, g)
  {
    match f
    case NameField => d.(name := v)
    case EmailField => d.(email := v)
    case MessageField => d.(message := v)
  }

  /** `{ ...prev, [name]: e }` on the error record. */
  function SetError(es: FormErrors, f: Field, e: Option<string>): (r: FormErrors)
    ensures GetError(r, f) == e
    ensures forall g :: g != f ==> GetError(r, g) == GetError(es, g)
  {
    match f
    case NameField => es.(name := e)
    case EmailField => es.(email := e)
    case MessageField => es.(message := e)
  }

  // ---------------------------------------------------------------------
  // The e-mail pattern

  /** A character the class `[^\s@]` admits. */
  predicate Plain(c: char) {
    !IsSpace(c) && c != '@'
  }

  predicate AllPlain(s: string) {
    forall k :: 0 <= k < |s| ==> Plain(s[k])
  }

  /** The language of `^[^\s@]+@[^\s@]+\.[^\s@]+$`: `s` splits at an '@'
      (index `i`) and a '.' (index `j`) into three non-empty runs of
      characters that are neither white space nor '@'. */
  ghost predicate EmailPatternLanguage(s: string) {
    exists i, j ::
      && 0 < i && i + 1 < j && j + 1 < |s|
      && s[i] == '@' && s[j] == '.'
      && AllPlain(s[..i]) && AllPlain(s[i + 1..j]) && AllPlain(s[j + 1..])
  }

  /** The same set described by its shape: no white space; exactly one '@',
      not at the start; after it a '.' with at least one character on each
      side. */
  ghost predicate EmailShape(s: string) {
    && NoSpace(s)
    && exists i ::
      && 0 < i < |s| && s[i] == '@'
      && (forall k :: 0 <= k < |s| && s[k] == '@' ==> k == i)
      && (exists j :: i + 1 < j < |s| - 1 && s[j] == '.')
  }

  /** Index of the first `c` in `s`, or `|s|` when there is none. */
  function IndexOf(s: string, c: char): (i: nat)
    ensures i <= |s|
    ensures i < |s| ==> s[i] == c
    ensures forall k :: 0 <= k < i ==> s[k] != c
  {
    if s == [] then 0 else if s[0] == c then 0 else 1 + IndexOf(s[1..], c)
  }

  /** The pattern test as a left-to-right scan: the first '@' starts the
      domain, which must hold no further '@' and a '.' strictly inside it. */
  function EmailPatternTest(s: string): bool {
    var at := IndexOf(s, '@');
    if at == 0 || at == |s| then false
    else
      var domain := s[at + 1..];
      && NoSpace(s)
      && IndexOf(domain, '@') == |domain|
      && |domain| >= 3
      && IndexOf(domain[1..|domain| - 1], '.') < |domain| - 2
  }

  /** Every character of `s[lo..hi]` is plain, stated on `s` itself. */
  predicate PlainBetween(s: string, lo: int, hi: int)
    requires 0 <= lo <= hi <= |s|
  {
    forall m :: lo <= m < hi ==> Plain(s[m])
  }

  lemma PlainSlice(s: string, lo: int, hi: int)
    requires 0 <= lo <= hi <= |s|
    ensures AllPlain(s[lo..hi]) <==> PlainBetween(s, lo, hi)
  {
    if PlainBetween(s, lo, hi) {
      forall m | 0 <= m < hi - lo ensures Plain(s[lo..hi][m]) {
        assert s[lo..hi][m] == s[lo + m];
      }
    }
    if AllPlain(s[lo..hi]) {
      forall m | lo <= m < hi ensures Plain(s[m]) {
        assert s[m] == s[lo..hi][m - lo];
      }
    }
  }

  /** The regular expression's language, stated with index ranges. */
  ghost predicate Splits(s: string, i: int, j: int) {
    && 0 < i && i + 1 < j && j + 1 < |s|
    && s[i] == '@' && s[j] == '.'
    && PlainBetween(s, 0, i) && PlainBetween(s, i + 1, j) && PlainBetween(s, j + 1, |s|)
  }

  lemma SplitsIffLanguage(s: string)
    ensures EmailPatternLanguage(s) <==> exists i, j :: Splits(s, i, j)
  {
    if EmailPatternLanguage(s) {
      var i, j :|
        && 0 < i && i + 1 < j && j + 1 < |s|
        && s[i] == '@' && s[j] == '.'
        && AllPlain(s[..i]) && AllPlain(s[i + 1..j]) && AllPlain(s[j + 1..]);
      PlainSlice(s, 0, i);
      PlainSlice(s, i + 1, j);
      PlainSlice(s, j + 1, |s|);
      assert s[0..i] == s[..i];
      assert Splits(s, i, j);
    }
    if exists i, j :: Splits(s, i, j) {
      var i, j :| Splits(s, i, j);
      PlainSlice(s, 0, i);
      PlainSlice(s, i + 1, j);
      PlainSlice(s, j + 1, |s|);
      assert s[0..i] == s[..i];
      assert s[j + 1..|s|] == s[j + 1..];
    }
  }

  lemma TestSplits(s: string)
    requires EmailPatternTest(s)
    ensures exists i, j :: Splits(s, i, j)
  {
    var i := IndexOf(s, '@');
    var d := s[i + 1..];
    var inner := d[1..|d| - 1];
    var k := IndexOf(inner, '.');
    var j := i + 2 + k;
    assert s[j] == '.' by {
      assert inner[k] == d[k + 1] == s[j];
    }
    assert forall m :: i < m < |s| ==> s[m] != '@' by {
      forall m | i < m < |s| ensures s[m] != '@' {
        assert s[m] == d[m - i - 1];
      }
    }
    assert PlainBetween(s, 0, i);
    assert PlainBetween(s, i + 1, j);
    assert PlainBetween(s, j + 1, |s|);
    assert Splits(s, i, j);
  }

  lemma SplitsTest(s: string, i: int, j: int)
    requires Splits(s, i, j)
    ensures EmailPatternTest(s)
  {
    assert IndexOf(s, '@') == i;
    forall m | 0 <= m < |s| ensures !IsSpace(s[m]) {
      if m != i && m != j {
        assert Plain(s[m]);
      }
    }
    var d := s[i + 1..];
    forall m | 0 <= m < |d| ensures d[m] != '@' {
      assert d[m] == s[i + 1 + m];
      if i + 1 + m != j {
        assert Plain(s[i + 1 + m]);
      }
    }
    assert d[1..|d| - 1][j - i - 2] == '.';
  }

  /** The scan accepts exactly the language of the regular expression. */
  lemma EmailPatternTestIsRegex(s: string)
    ensures EmailPatternTest(s) <==> EmailPatternLanguage(s)
  {
    SplitsIffLanguage(s);
    if EmailPatternTest(s) {
      TestSplits(s);
    }
    if exists i, j :: Splits(s, i, j) {
      var i, j :| Splits(s, i, j);
      SplitsTest(s, i, j);
    }
  }

  /** The regular expression's language is exactly the shape above. */
  lemma EmailPatternShape(s: string)
    ensures EmailPatternLanguage(s) <==> EmailShape(s)
  {
    SplitsIffLanguage(s);
    if EmailShape(s) {
      var i :|
        && 0 < i < |s| && s[i] == '@'
        && (forall k :: 0 <= k < |s| && s[k] == '@' ==> k == i)
        && (exists j :: i + 1 < j < |s| - 1 && s[j] == '.');
      var j :| i + 1 < j < |s| - 1 && s[j] == '.';
      forall m | 0 <= m < |s| && m != i ensures Plain(s[m]) {
        assert !IsSpace(s[m]);
      }
      assert Splits(s, i, j);
    }
    if exists i, j :: Splits(s, i, j) {
      var i, j :| Splits(s, i, j);
      assert forall m :: 0 <= m < |s| && m != i && m != j ==> Plain(s[m]);
      assert EmailShape(s);
    }
  }

  /** An otherwise valid address with a white-space character in front is
      rejected, because the pattern is tested on the untrimmed value. */
  lemma LeadingSpaceRejected(s: string)
    requires |s| > 0 && IsSpace(s[0])
    ensures !EmailPatternLanguage(s)
  {
    SplitsIffLanguage(s);
    forall i, j ensures !Splits(s, i, j) {
      if 0 < i <= |s| {
        assert !Plain(s[0]);
      }
    }
  }

  /** The same for a white-space character at the end. */
  lemma TrailingSpaceRejected(s: string)
    requires |s| > 0 && IsSpace(s[|s| - 1])
    ensures !EmailPatternLanguage(s)
  {
    SplitsIffLanguage(s);
    forall i, j ensures !Splits(s, i, j) {
      if 0 <= j < |s| - 1 {
        assert !Plain(s[|s| - 1]);
      }
    }
  }

  lemma PatternNotAllSpace(s: string)
    requires EmailPatternLanguage(s)
    ensures !AllSpace(s)
  {
    var i, j :|
      && 0 < i && i + 1 < j && j + 1 < |s|
      && s[i] == '@' && s[j] == '.'
      && AllPlain(s[..i]) && AllPlain(s[i + 1..j]) && AllPlain(s[j + 1..]);
    assert !IsSpace(s[i]);
  }

  // ---------------------------------------------------------------------
  // validateForm

  /** The error set `validateForm` builds: a field's error is present
      exactly when the field is all white space, and the e-mail field
      otherwise carries the pattern error when the pattern fails. */
  function Validate(f: FormData): (e: FormErrors)
    ensures e.name == (if AllSpace(f.name) then Some(NameRequired) else None)
    ensures e.email ==
      (if AllSpace(f.email) then Some(EmailRequired)
       else if !EmailPatternLanguage(f.email) then Some(InvalidEmail)
       else None)
    ensures e.message == (if AllSpace(f.message) then Some(MessageRequired) else None)
  {
    TrimEmptyIffAllSpace(f.name);
    TrimEmptyIffAllSpace(f.email);
    TrimEmptyIffAllSpace(f.message);
    EmailPatternTestIsRegex(f.email);
    FormErrors(
      if Trim(f.name) == [] then Some(NameRequired) else None,
      if Trim(f.email) == [] then Some(EmailRequired)
      else if !EmailPatternTest(f.email) then Some(InvalidEmail)
      else None,
      if Trim(f.message) == [] then Some(MessageRequired) else None)
  }

  /** `Object.keys(newErrors).length`. */
  function ErrorCount(e: FormErrors): nat {
    (if e.name.Some? then 1 else 0)
    + (if e.email.Some? then 1 else 0)
    + (if e.message.Some? then 1 else 0)
  }

  /** A form passes exactly when no field is blank and the e-mail matches
      the pattern. */
  lemma ValidIff(f: FormData)
    ensures ErrorCount(Validate(f)) == 0 <==>
      !AllSpace(f.name) && !AllSpace(f.message) && EmailPatternLanguage(f.email)
  {
    if EmailPatternLanguage(f.email) {
      PatternNotAllSpace(f.email);
    }
  }

  /** An address that would match but for a leading blank is reported as
      malformed, not as missing. */
  lemma PaddedEmailIsInvalid(f: FormData, core: string)
    requires EmailPatternLanguage(core)
    requires f.email == " " + core
    ensures Validate(f).email == Some(InvalidEmail)
  {
    PatternNotAllSpace(core);
    var i :| 0 <= i < |core| && !IsSpace(core[i]);
    assert f.email[i + 1] == core[i];
    LeadingSpaceRejected(f.email);
  }

  // ---------------------------------------------------------------------
  // The form as a state machine

  datatype ContactState = ContactState(data: FormData, errors: FormErrors, isSubmitting: bool, isSuccess: bool)

  const Initial := ContactState(EmptyForm, NoErrors, false, false)

  datatype Event =
    | Change(field: Field, value: string)  // handleChange
    | Submit                               // handleSubmit, up to the await
    | SendSettled                          // the 2000 ms simulated send resolves
    | SuccessExpired                       // the 5000 ms banner timer fires

  /** JavaScript truthiness of an optional string. */
  predicate Truthy(o: Option<string>) {
    o.Some? && o.value != ""
  }

  /** Every recorded error is one of the four messages (the only values
      `validateForm` writes). */
  predicate ErrorsWellFormed(e: FormErrors) {
    && (e.name.Some? ==> e.name.value == NameRequired)
    && (e.email.Some? ==> e.email.value in {EmailRequired, InvalidEmail})
    && (e.message.Some? ==> e.message.value == MessageRequired)
  }

  /** `handleChange`: write the field; clear its error when one is shown. */
  function OnChange(s: ContactState, f: Field, v: string): (r: ContactState)
    requires ErrorsWellFormed(s.errors)
    ensures Get(r.data, f) == v
    ensures forall g :: g != f ==> Get(r.data, g) == Get(s.data, g)
    ensures GetError(r.errors, f) == None
    ensures forall g :: g != f ==> GetError(r.errors, g) == GetError(s.errors, g)
    ensures r.isSubmitting == s.isSubmitting && r.isSuccess == s.isSuccess
  {
    var errors := if Truthy(GetError(s.errors, f)) then SetError(s.errors, f, None) else s.errors;
    s.(data := Set(s.data, f, v), errors := errors)
  }

  /** `handleSubmit` up to its `await`: the errors are replaced wholesale
      by the validation result; a valid form starts sending. The submit
      button is disabled while sending, so a submit then does nothing. */
  function OnSubmit(s: ContactState): (r: ContactState)
    ensures r.data == s.data && r.isSuccess == s.isSuccess
    ensures !s.isSubmitting ==> r.errors == Validate(s.data)
    ensures !s.isSubmitting ==> (r.isSubmitting <==> ErrorCount(Validate(s.data)) == 0)
    ensures s.isSubmitting ==> r == s
  {
    if s.isSubmitting then s
    else
      var errors := Validate(s.data);
      if ErrorCount(errors) != 0 then s.(errors := errors)
      else s.(errors := errors, isSubmitting := true)
  }

  /** The simulated send resolves: the form is cleared and the banner
      shown. */
  function OnSendSettled(s: ContactState): (r: ContactState)
    ensures s.isSubmitting ==> r.data == EmptyForm && r.isSuccess && !r.isSubmitting
    ensures !s.isSubmitting ==> r == s
    ensures r.errors == s.errors
  {
    if s.isSubmitting then s.(isSubmitting := false, isSuccess := true, data := EmptyForm) else s
  }

  function Step(s: ContactState, e: Event): ContactState
    requires ErrorsWellFormed(s.errors)
  {
    match e
    case Change(f, v) => OnChange(s, f, v)
    case Submit => OnSubmit(s)
    case SendSettled => OnSendSettled(s)
    case SuccessExpired => s.(isSuccess := false)
  }

  /** Every event keeps the recorded errors to the four messages. */
  lemma StepKeepsErrorsWellFormed(s: ContactState, e: Event)
    requires ErrorsWellFormed(s.errors)
    ensures ErrorsWellFormed(Step(s, e).errors)
  {
    match e
    case Change(f, v) =>
      var r := Step(s, e);
      assert forall g :: GetError(r.errors, g) == None || GetError(r.errors, g) == GetError(s.errors, g);
      assert r.errors.name == GetError(r.errors, NameField);
      assert r.errors.email == GetError(r.errors, EmailField);
      assert r.errors.message == GetError(r.errors, MessageField);
    case Submit =>
    case SendSettled =>
    case SuccessExpired =>
  }

  /** Submitting an invalid form records its errors and neither sends nor
      touches the data. */
  lemma InvalidSubmitKeepsData(s: ContactState)
    requires !s.isSubmitting
    requires AllSpace(s.data.name) || AllSpace(s.data.message) || !EmailPatternLanguage(s.data.email)
    ensures !OnSubmit(s).isSubmitting
    ensures OnSubmit(s).data == s.data
    ensures OnSubmit(s).errors == Validate(s.data)
  {
    ValidIff(s.data);
  }

  /** A valid submit followed by the settled send ends with an empty form,
      the success banner, and no errors. */
  lemma ValidSubmitCompletes(s: ContactState)
    requires !s.isSubmitting
    requires !AllSpace(s.data.name) && !AllSpace(s.data.message) && EmailPatternLanguage(s.data.email)
    ensures OnSendSettled(OnSubmit(s)) == ContactState(EmptyForm, NoErrors, false, true)
  {
    ValidIff(s.data);
  }
}
