/** The create/edit form: its field state, validation before submit,
    single-field edits, and prefill from the record being edited. */
module AppointmentForm {
  import opened Types
  import opened JsString

  /** The `name` attributes of the form's inputs. */
  datatype Field =
    | DateField | TimeField | CarInfoField | ServiceField
    | ClientNameField | ClientPhoneField | StatusField

  /** The form state. The two optional client fields are always held as
      strings here: the initial state and the prefill both store `''`. */
  datatype FormData = FormData(
    date: string,
    time: string,
    carInfo: string,
    service: string,
    clientName: string,
    clientPhone: string,
    status: Status
  )

  /** Field name to message; `''` is a cleared message. */
  type Errors = map<Field, string>

  /** An error is shown for `f` when its message is truthy. */
  predicate HasError(errors: Errors, f: Field) {
    f in errors && errors[f] != []
  }

  /** The validation messages, one per checked field. */
  function Message(f: Field): string {
    match f
    case DateField => "Дата обязательна"
    case TimeField => "Время обязательно"
    case CarInfoField => "Информация об авто обязательна"
    case ServiceField => "Услуга обязательна"
    case ClientPhoneField => "Неверный формат телефона"
    case _ => []
  }

  /** The state a new form starts in; `today` is the clock's date as
      `yyyy-MM-dd`. */
  function Initial(today: string): FormData {
    FormData(today, "10:00", [], [], [], [], Scheduled)
  }

  /** The effect on `appointment`: copy the record's fields, mapping an
      absent client name or phone to `''`; with no record the state is
      left as it is. */
  function Prefill(current: FormData, appointment: Option<Appointment>): (r: FormData)
    ensures appointment.None? ==> r == current
    ensures appointment.Some? ==> var a := appointment.value;
      && r.date == a.date && r.time == a.time && r.carInfo == a.carInfo
      && r.service == a.service && r.status == a.status
      && (a.clientName.None? ==> r.clientName == [])
      && (a.clientPhone.None? ==> r.clientPhone == [])
      && (a.clientName.Some? ==> r.clientName == a.clientName.value)
      && (a.clientPhone.Some? ==> r.clientPhone == a.clientPhone.value)
  {
    match appointment
    case None => current
    case Some(a) =>
      FormData(a.date, a.time, a.carInfo, a.service,
               a.clientName.GetOr([]), a.clientPhone.GetOr([]), a.status)
  }

  /** A character of the class `[\d\s\+\-\(\)]`. */
  predicate PhoneChar(c: char) {
    ('0' <= c <= '9') || IsWhitespace(c) || c == '+' || c == '-' || c == '(' || c == ')'
  }

  function AllPhoneChars(s: string): (r: bool)
    ensures r <==> forall i :: 0 <= i < |s| ==> PhoneChar(s[i])
  {
    if |s| == 0 then true
    else
      var r := PhoneChar(s[0]) && AllPhoneChars(s[1..]);
      assert forall i :: 1 <= i < |s| ==> s[i] == s[1..][i - 1];
      r
  }

  /** `/^[\d\s\+\-\(\)]+$/.test(s)`. */
  function MatchesPhonePattern(s: string): (r: bool)
    ensures r <==> |s| > 0 && forall i :: 0 <= i < |s| ==> PhoneChar(s[i])
  {
    |s| > 0 && AllPhoneChars(s)
  }

  datatype Validation = Validation(ok: bool, errors: Errors)

  lemma MessageNonEmpty(f: Field)
    requires f in CheckedFields
    ensures Message(f) != []
  {
    assert |Message(f)| > 0;
  }

  /** The check `validateForm` makes of one field: date and time must be
      non-empty, car and service non-empty after `trim`, and a non-empty
      phone must match the pattern. */
  predicate Fails(fd: FormData, f: Field) {
    match f
    case DateField => fd.date == []
    case TimeField => fd.time == []
    case CarInfoField => Trim(fd.carInfo) == []
    case ServiceField => Trim(fd.service) == []
    case ClientPhoneField => fd.clientPhone != [] && !MatchesPhonePattern(fd.clientPhone)
    case _ => false
  }

  /** Each check in terms of the field's text. */
  lemma FailsMeaning(fd: FormData)
    ensures Fails(fd, DateField) <==> fd.date == []
    ensures Fails(fd, TimeField) <==> fd.time == []
    ensures Fails(fd, CarInfoField) <==> AllWhitespace(fd.carInfo)
    ensures Fails(fd, ServiceField) <==> AllWhitespace(fd.service)
    ensures Fails(fd, ClientPhoneField) <==>
      exists i :: 0 <= i < |fd.clientPhone| && !PhoneChar(fd.clientPhone[i])
  {
    TrimEmptyIffAllWhitespace(fd.carInfo);
    TrimEmptyIffAllWhitespace(fd.service);
  }

  const CheckedFields: set<Field> := {DateField, TimeField, CarInfoField, ServiceField, ClientPhoneField}

  /** The messages `validateForm` records: one per failing checked field. */
  function FieldErrors(fd: FormData): (e: Errors)
    ensures forall f :: f in e <==> f in CheckedFields && Fails(fd, f)
    ensures forall f :: f in e ==> HasError(e, f) && e[f] == Message(f)
  {
    var errors := map f | f in CheckedFields && Fails(fd, f) :: Message(f);
    forall f | f in errors
      ensures HasError(errors, f) && errors[f] == Message(f)
    {
      MessageNonEmpty(f);
    }
    errors
  }

  /** `validateForm`: the messages recorded, and whether there are none. */
  function Validate(fd: FormData): (v: Validation)
    ensures v.ok <==> v.errors == map[]
    ensures DateField in v.errors <==> fd.date == []
    ensures TimeField in v.errors <==> fd.time == []
    ensures CarInfoField in v.errors <==> AllWhitespace(fd.carInfo)
    ensures ServiceField in v.errors <==> AllWhitespace(fd.service)
    ensures ClientPhoneField in v.errors <==>
      exists i :: 0 <= i < |fd.clientPhone| && !PhoneChar(fd.clientPhone[i])
    ensures ClientNameField !in v.errors && StatusField !in v.errors
    ensures forall f :: f in v.errors ==> HasError(v.errors, f) && v.errors[f] == Message(f)
  {
    FailsMeaning(fd);
    var errors := FieldErrors(fd);
    assert DateField in errors <==> Fails(fd, DateField);
    assert TimeField in errors <==> Fails(fd, TimeField);
    assert CarInfoField in errors <==> Fails(fd, CarInfoField);
    assert ServiceField in errors <==> Fails(fd, ServiceField);
    assert ClientPhoneField in errors <==> Fails(fd, ClientPhoneField);
    Validation(|errors| == 0, errors)
  }

  /** The form's data as handed to the page, or nothing. */
  datatype Submission = Submission(errors: Errors, sent: Option<FormData>)

  /** `handleSubmit`: the page's `onSave` receives the form data exactly
      when validation records no error. */
  function Submit(fd: FormData): (r: Submission)
    ensures r.sent.Some? <==> r.errors == map[]
    ensures r.sent.Some? ==> r.sent.value == fd
    ensures r.errors == Validate(fd).errors
  {
    var v := Validate(fd);
    Submission(v.errors, if v.ok then Some(fd) else None)
  }

  /** The value an input carries: text, or one of the status options. */
  datatype FieldValue = Text(text: string) | Choice(status: Status)

  predicate Fits(f: Field, v: FieldValue) {
    (f == StatusField) == v.Choice?
  }

  function Get(fd: FormData, f: Field): (v: FieldValue)
    ensures Fits(f, v)
  {
    match f
    case DateField => Text(fd.date)
    case TimeField => Text(fd.time)
    case CarInfoField => Text(fd.carInfo)
    case ServiceField => Text(fd.service)
    case ClientNameField => Text(fd.clientName)
    case ClientPhoneField => Text(fd.clientPhone)
    case StatusField => Choice(fd.status)
  }

  /** `{ ...prev, [name]: value }`. */
  function Set(fd: FormData, f: Field, v: FieldValue): (r: FormData)
    requires Fits(f, v)
    ensures Get(r, f) == v
    ensures forall g :: g != f ==> Get(r, g) == Get(fd, g)
  {
    match f
    case DateField => fd.(date := v.text)
    case TimeField => fd.(time := v.text)
    case CarInfoField => fd.(carInfo := v.text)
    case ServiceField => fd.(service := v.text)
    case ClientNameField => fd.(clientName := v.text)
    case ClientPhoneField => fd.(clientPhone := v.text)
    case StatusField => fd.(status := v.status)
  }

  /** Two forms agreeing on every field are the same form. */
  lemma GetDetermines(a: FormData, b: FormData)
    requires forall f :: Get(a, f) == Get(b, f)
    ensures a == b
  {
    assert Get(a, DateField) == Get(b, DateField);
    assert Get(a, TimeField) == Get(b, TimeField);
    assert Get(a, CarInfoField) == Get(b, CarInfoField);
    assert Get(a, ServiceField) == Get(b, ServiceField);
    assert Get(a, ClientNameField) == Get(b, ClientNameField);
    assert Get(a, ClientPhoneField) == Get(b, ClientPhoneField);
    assert Get(a, StatusField) == Get(b, StatusField);
  }

  /** Writing back a field's own value changes nothing. */
  lemma SetOwnValue(fd: FormData, f: Field)
    ensures Set(fd, f, Get(fd, f)) == fd
  {
    GetDetermines(Set(fd, f, Get(fd, f)), fd);
  }

  datatype FormState = FormState(data: FormData, errors: Errors)

  /** `handleChange`: store the input's value under its name and, when
      that field shows an error, blank its message. */
  function HandleChange(fd: FormData, errors: Errors, name: Field, value: FieldValue): (r: FormState)
    requires Fits(name, value)
    ensures Get(r.data, name) == value
    ensures forall f :: f != name ==> Get(r.data, f) == Get(fd, f)
    ensures !HasError(r.errors, name)
    ensures forall f :: f != name ==> (f in r.errors <==> f in errors)
    ensures forall f :: f != name && f in errors ==> r.errors[f] == errors[f]
    ensures !HasError(errors, name) ==> r.errors == errors
  {
    var data := Set(fd, name, value);
    if HasError(errors, name) then FormState(data, errors[name := []])
    else FormState(data, errors)
  }

  /** A fresh form keeps the defaults and is refused until the car and
      service fields are filled. */
  lemma FreshFormRejected(today: string)
    ensures Initial(today).status == Scheduled && Initial(today).time == "10:00"
    ensures !Validate(Initial(today)).ok
    ensures today != [] ==> Validate(Initial(today)).errors.Keys == {CarInfoField, ServiceField}
  {
    var fd := Initial(today);
    assert AllWhitespace(fd.carInfo) && AllWhitespace(fd.service);
    assert CarInfoField in Validate(fd).errors;
    if today != [] {
      OnlyTextErrors(fd);
    }
  }

  /** A dated, timed form without a phone is refused for its two blank
      text fields and nothing else. */
  lemma OnlyTextErrors(fd: FormData)
    requires fd.date != [] && fd.time != [] && fd.clientPhone == []
    requires AllWhitespace(fd.carInfo) && AllWhitespace(fd.service)
    ensures Validate(fd).errors.Keys == {CarInfoField, ServiceField}
  {
    var e := Validate(fd).errors;
    assert e == FieldErrors(fd);
    FailsMeaning(fd);
    assert !Fails(fd, DateField) && !Fails(fd, TimeField) && !Fails(fd, ClientPhoneField);
    assert Fails(fd, CarInfoField) && Fails(fd, ServiceField);
    forall f | f in e.Keys
      ensures f in {CarInfoField, ServiceField}
    {
      assert f in CheckedFields && Fails(fd, f);
    }
  }

  /** Filling both required text fields of a fresh form with something
      other than whitespace makes it pass. */
  lemma FillingFreshFormAccepted(today: string, car: string, service: string)
    requires today != [] && !AllWhitespace(car) && !AllWhitespace(service)
    ensures var s1 := HandleChange(Initial(today), map[], CarInfoField, Text(car));
      var s2 := HandleChange(s1.data, s1.errors, ServiceField, Text(service));
      Validate(s2.data).ok
  {
    var s1 := HandleChange(Initial(today), map[], CarInfoField, Text(car));
    var s2 := HandleChange(s1.data, s1.errors, ServiceField, Text(service));
    assert Get(s2.data, DateField) == Text(today);
    assert Get(s2.data, TimeField) == Text("10:00");
    assert Get(s2.data, CarInfoField) == Text(car);
    assert Get(s2.data, ServiceField) == Text(service);
    assert Get(s2.data, ClientPhoneField) == Text([]);
  }

  /** The phone examples: letters are refused, a formatted number is not. */
  lemma PhoneExamples()
    ensures !MatchesPhonePattern("abc")
    ensures MatchesPhonePattern("+7 (999) 123-45-67")
    ensures !MatchesPhonePattern([])
  {
    assert !PhoneChar("abc"[0]);
    var s := "+7 (999) 123-45-67";
    forall i | 0 <= i < |s|
      ensures PhoneChar(s[i])
    {
      assert s[i] in ['+', '7', ' ', '(', '9', ')', '1', '2', '3', '-', '4', '5', '6'];
    }
  }

  /** An empty phone is never an error; a non-empty one is exactly when
      it does not match the pattern. */
  lemma PhoneCheck(fd: FormData)
    ensures fd.clientPhone == [] ==> ClientPhoneField !in Validate(fd).errors
    ensures fd.clientPhone != [] ==>
      (ClientPhoneField in Validate(fd).errors <==> !MatchesPhonePattern(fd.clientPhone))
  {
  }
}
