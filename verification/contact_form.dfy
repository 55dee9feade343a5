/** The contact form of the cart demo: three text fields, the error map that
    real-time validation derives from them, and the change and submit handlers. */
module ContactForm {
  import opened StringTrim
  import opened EmailPattern

  datatype Field = Name | Email | Message

  datatype Form = Form(name: string, email: string, message: string)

  const EmptyForm: Form := Form("", "", "")

  /** The error map `errors`, keyed by field, holding the message shown under it. */
  type Errors = map<Field, string>

  /** `form`, `errors` and `submitted` of the component. */
  datatype FormState = FormState(form: Form, errors: Errors, submitted: bool)

  /** A user intent: typing into a field, or pressing Send. */
  datatype FormEvent = Change(field: Field, value: string) | Submit

  function Get(form: Form, field: Field): string {
    match field
    case Name => form.name
    case Email => form.email
    case Message => form.message
  }

  /** A copy of the form with the field named by the input replaced. */
  function Set(form: Form, field: Field, value: string): (r: Form)
    ensures Get(r, field) == value
    ensures forall other :: other != field ==> Get(r, other) == Get(form, other)
  {
    match field
    case Name => form.(name := value)
    case Email => form.(email := value)
    case Message => form.(message := value)
  }

  /** What the form promises to accept: a visible name and message, and an
      address that, once trimmed, fits the e-mail pattern. */
  ghost predicate Acceptable(form: Form) {
    !Blank(form.name) && !Blank(form.message) && PatternMatches(Trim(form.email))
  }

  /** The validation effect: one entry per field that fails its rule. */
  function Validate(form: Form): (errs: Errors)
    ensures Name in errs <==> Blank(form.name)
    ensures Message in errs <==> Blank(form.message)
    ensures Email in errs <==> Blank(form.email) || !IsEmail(Trim(form.email))
    ensures Name in errs ==> errs[Name] == "Name is required"
    ensures Message in errs ==> errs[Message] == "Message is required"
    ensures Email in errs ==>
              errs[Email] == if Blank(form.email) then "Email is required" else "Invalid email address"
  {
    var withName: Errors := if Blank(form.name) then map[Name := "Name is required"] else map[];
    assert Email !in withName && Message !in withName;
    var withEmail: Errors :=
      if Blank(form.email) then withName[Email := "Email is required"]
      else if !IsEmail(Trim(form.email)) then withName[Email := "Invalid email address"]
      else withName;
    assert Message !in withEmail;
    if Blank(form.message) then withEmail[Message := "Message is required"] else withEmail
  }

  /** The error map is empty exactly for the forms the page promises to accept. */
  lemma ValidateEmptyIff(form: Form)
    ensures Validate(form) == map[] <==> Acceptable(form)
  {
    var errs := Validate(form);
    IsEmailCorrect(Trim(form.email));
    if Acceptable(form) {
      assert !Blank(form.email);
      assert forall f: Field :: f !in errs;
      assert errs.Keys == {};
    }
  }

  /** A blank e-mail field reports it as missing, not as malformed. */
  lemma BlankEmailIsRequired(form: Form)
    requires AllWhitespace(form.email)
    ensures Validate(form)[Email] == "Email is required"
  {
    BlankIff(form.email);
  }

  /** The form right after a successful submit shows all three "required" errors. */
  lemma EmptyFormErrors()
    ensures Validate(EmptyForm) == map[Name := "Name is required", Email := "Email is required",
                                       Message := "Message is required"]
  {
    assert Blank("");
  }

  /** `handleChange`: only the named field takes the new value, and the thank-you note goes away. */
  function HandleChange(st: FormState, field: Field, value: string): (r: FormState)
    ensures Get(r.form, field) == value
    ensures forall other :: other != field ==> Get(r.form, other) == Get(st.form, other)
    ensures !r.submitted && r.errors == st.errors
  {
    st.(form := Set(st.form, field, value), submitted := false)
  }

  /** `handleSubmit`: with no errors showing, clear all three fields and show the
      thank-you note; otherwise nothing changes. */
  function HandleSubmit(st: FormState): (r: FormState)
    ensures |st.errors| == 0 ==> r.form == Form("", "", "") && r.submitted && r.errors == map[]
    ensures |st.errors| != 0 ==> r == st
  {
    if |st.errors| == 0 then FormState(EmptyForm, map[], true) else st
  }

  /** The validation effect, run after every render whose form object changed. */
  function Revalidate(st: FormState): (r: FormState)
    ensures r.form == st.form && r.submitted == st.submitted
    ensures r.errors == Validate(st.form)
    ensures r.errors == map[] <==> Acceptable(st.form)
  {
    ValidateEmptyIff(st.form);
    st.(errors := Validate(st.form))
  }

  /** A state whose error map agrees with its form, as it is between user events. */
  predicate Settled(st: FormState) {
    st.errors == Validate(st.form)
  }

  /** One user event followed by the effect it triggers: every change and every
      accepted submit replace the form object; a refused submit does not. */
  function Dispatch(st: FormState, ev: FormEvent): (r: FormState)
    ensures ev.Change? ==> r.form == Set(st.form, ev.field, ev.value) && !r.submitted
    ensures ev.Submit? && |st.errors| == 0 ==> r.form == EmptyForm && r.submitted
    ensures ev.Submit? && |st.errors| != 0 ==> r == st
    ensures ev.Change? || |st.errors| == 0 ==> r.errors == Validate(r.form)
  {
    match ev
    case Change(field, value) => Revalidate(HandleChange(st, field, value))
    case Submit => if |st.errors| == 0 then Revalidate(HandleSubmit(st)) else HandleSubmit(st)
  }

  /** The form on mount: empty fields, and the errors the first effect computes. */
  function Initial(): (st: FormState)
    ensures Settled(st) && !st.submitted && st.form == Form("", "", "")
  {
    Revalidate(FormState(EmptyForm, map[], false))
  }

  /** Every event keeps the error map in agreement with the form. */
  lemma DispatchSettles(st: FormState, ev: FormEvent)
    requires Settled(st)
    ensures Settled(Dispatch(st, ev))
  {
    match ev
    case Change(field, value) =>
      var changed := HandleChange(st, field, value);
      assert Dispatch(st, ev) == changed.(errors := Validate(changed.form));
    case Submit =>
      if |st.errors| == 0 {
        assert Dispatch(st, ev) == FormState(EmptyForm, Validate(EmptyForm), true);
      } else {
        assert Dispatch(st, ev) == st;
      }
  }

  /** The state after a sequence of events, each followed by its effect. */
  function Run(st: FormState, events: seq<FormEvent>): FormState
    decreases |events|
  {
    if |events| == 0 then st else Run(Dispatch(st, events[0]), events[1..])
  }

  lemma {:induction false} RunSettles(st: FormState, events: seq<FormEvent>)
    requires Settled(st)
    ensures Settled(Run(st, events))
    decreases |events|
  {
    if |events| > 0 {
      DispatchSettles(st, events[0]);
      RunSettles(Dispatch(st, events[0]), events[1..]);
    }
  }

  /** Whatever the user has done since the page loaded, the errors on screen are
      the errors of the fields on screen. */
  lemma ReachableSettled(events: seq<FormEvent>)
    ensures Run(Initial(), events).errors == Validate(Run(Initial(), events).form)
  {
    RunSettles(Initial(), events);
  }

  /** Whatever the user has done since the page loaded, Send clears the fields and
      shows the thank-you note exactly when the form is acceptable, and changes
      nothing otherwise. */
  lemma {:induction false} SubmitAcceptedIff(events: seq<FormEvent>)
    ensures var st := Run(Initial(), events);
            Acceptable(st.form) ==>
              Dispatch(st, Submit).submitted && Dispatch(st, Submit).form == Form("", "", "")
    ensures var st := Run(Initial(), events);
            !Acceptable(st.form) ==> Dispatch(st, Submit) == st
  {
    var st := Run(Initial(), events);
    RunSettles(Initial(), events);
    ValidateEmptyIff(st.form);
  }

  /** A change touches only the named field, whatever the rest of the form holds. */
  lemma ChangeTouchesOneField(st: FormState, field: Field, value: string, other: Field)
    requires other != field
    ensures Get(Dispatch(st, Change(field, value)).form, other) == Get(st.form, other)
    ensures Get(Dispatch(st, Change(field, value)).form, field) == value
  {
  }
}
