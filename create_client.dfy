/**
  The "add new client" dialog (client/src/Pages/Users/CreateClient.jsx):
  six text fields, a required-field validator over five of them, and the
  handlers that edit a field, cancel, and submit a "create" intent.
 */
module CreateClient {
  import opened JsString

  datatype Field = FirstName | LastName | Username | Password | Phone | Email

  /** The local `form` state: every field is always present and a string. */
  datatype ClientForm = ClientForm(
    firstName: string,
    lastName: string,
    username: string,
    password: string,
    phone: string,
    email: string)
  {
    function Get(f: Field): string {
      match f
      case FirstName => firstName
      case LastName => lastName
      case Username => username
      case Password => password
      case Phone => phone
      case Email => email
    }

    /** `{ ...form, [f]: v }`: only field `f` changes, and it becomes `v`. */
    function Set(f: Field, v: string): (r: ClientForm)
      ensures r.Get(f) == v
      ensures forall g :: g != f ==> r.Get(g) == Get(g)
    {
      match f
      case FirstName => this.(firstName := v)
      case LastName => this.(lastName := v)
      case Username => this.(username := v)
      case Password => this.(password := v)
      case Phone => this.(phone := v)
      case Email => this.(email := v)
    }
  }

  /** `initialState`: every field is the empty string. */
  function InitialForm(): (r: ClientForm)
    ensures forall f :: r.Get(f) == ""
  {
    ClientForm("", "", "", "", "", "")
  }

  /** The fields the validator checks; `email` is optional. */
  const RequiredFields: set<Field> := {FirstName, LastName, Username, Password, Phone}

  /** The fixed message shown under a blank required field. It is never
      empty, so a stored message reads as a live error (`!!errors.f`), unlike
      the "" an edit leaves behind. */
  function RequiredMessage(f: Field): (r: string)
    requires f in RequiredFields
    ensures r != ""
  {
    match f
    case FirstName => "First name is required"
    case LastName => "Last name is required"
    case Username => "Username is required"
    case Password => "Password is required"
    case Phone => "Phone is required"
    case Email => assert false; ""
  }

  /** What the validator computes: an entry, with its fixed message, for each
      required field whose trimmed value is empty. */
  function ErrorsFor(form: ClientForm): map<Field, string> {
    ErrorsOver(form, RequiredFields)
  }

  /** The entries the validator produces for the required fields in
      `fields`; the validator checks the five fields one after another. */
  function ErrorsOver(form: ClientForm, fields: set<Field>): map<Field, string>
    requires fields <= RequiredFields
  {
    map f | f in fields && IsBlank(form.Get(f)) :: RequiredMessage(f)
  }

  /** The submit gate as the source reads it: all five required fields are
      non-blank after trimming. */
  predicate Submittable(form: ClientForm) {
    && !IsBlank(form.firstName)
    && !IsBlank(form.lastName)
    && !IsBlank(form.username)
    && !IsBlank(form.password)
    && !IsBlank(form.phone)
  }

  /** The validation in `handleSubmit`: builds `errs` one conditional
      assignment at a time. */
  method Validate(form: ClientForm) returns (errs: map<Field, string>)
    ensures forall f :: f in errs <==> f in RequiredFields && IsBlank(form.Get(f))
    ensures forall f :: f in errs ==> errs[f] == RequiredMessage(f)
    ensures Email !in errs
    ensures errs == ErrorsFor(form)
  {
    errs := map[];
    ghost var checked: set<Field> := {};
    EmptyErrorsOver(form);
    if IsBlank(form.firstName) { errs := errs[FirstName := "First name is required"]; }
    ErrorsOverStep(form, checked, FirstName);
    checked := checked + {FirstName};
    assert errs == ErrorsOver(form, checked);
    if IsBlank(form.lastName) { errs := errs[LastName := "Last name is required"]; }
    ErrorsOverStep(form, checked, LastName);
    checked := checked + {LastName};
    assert errs == ErrorsOver(form, checked);
    if IsBlank(form.username) { errs := errs[Username := "Username is required"]; }
    ErrorsOverStep(form, checked, Username);
    checked := checked + {Username};
    assert errs == ErrorsOver(form, checked);
    if IsBlank(form.password) { errs := errs[Password := "Password is required"]; }
    ErrorsOverStep(form, checked, Password);
    checked := checked + {Password};
    assert errs == ErrorsOver(form, checked);
    if IsBlank(form.phone) { errs := errs[Phone := "Phone is required"]; }
    ErrorsOverStep(form, checked, Phone);
    checked := checked + {Phone};
    assert errs == ErrorsOver(form, checked);
    assert checked == RequiredFields;
    ErrorsForEntries(form);
  }

  /** Before any field is checked there are no errors. */
  lemma EmptyErrorsOver(form: ClientForm)
    ensures ErrorsOver(form, {}) == map[]
  {
    SameEntriesSameMap(ErrorsOver(form, {}), map[]);
  }

  /** Checking one more field adds its message exactly when it is blank. */
  lemma ErrorsOverStep(form: ClientForm, fields: set<Field>, f: Field)
    requires fields <= RequiredFields && f in RequiredFields
    ensures ErrorsOver(form, fields + {f})
         == if IsBlank(form.Get(f)) then ErrorsOver(form, fields)[f := RequiredMessage(f)]
            else ErrorsOver(form, fields)
  {
    var before, after := ErrorsOver(form, fields), ErrorsOver(form, fields + {f});
    SameEntriesSameMap(after, if IsBlank(form.Get(f)) then before[f := RequiredMessage(f)] else before);
  }

  /** The entries of the specification map, one field at a time. */
  lemma ErrorsForEntries(form: ClientForm)
    ensures forall f :: f in ErrorsFor(form) <==> f in RequiredFields && IsBlank(form.Get(f))
    ensures forall f :: f in ErrorsFor(form) ==> ErrorsFor(form)[f] == RequiredMessage(f)
  {
  }

  /** Two error maps with the same keys and the same value at each key are
      the same map. */
  lemma SameEntriesSameMap(a: map<Field, string>, b: map<Field, string>)
    requires forall f :: f in a <==> f in b
    requires forall f :: f in a ==> a[f] == b[f]
    ensures a == b
  {
    assert a.Keys == b.Keys;
  }

  /** Submit goes ahead exactly when validation finds nothing. */
  lemma NoErrorsIffSubmittable(form: ClientForm)
    ensures ErrorsFor(form) == map[] <==> Submittable(form)
  {
    if !Submittable(form) {
      var f :| f in RequiredFields && IsBlank(form.Get(f));
      assert f in ErrorsFor(form);
    }
  }

  /** The optional field never affects validation, whatever it holds. */
  lemma EmailNeverBlocks(form: ClientForm, v: string)
    ensures ErrorsFor(form.Set(Email, v)) == ErrorsFor(form)
    ensures Submittable(form.Set(Email, v)) == Submittable(form)
  {
  }

  /** Scenario: only `lastName` is blank, so the error map holds that one
      message and submit is blocked. */
  lemma MissingLastNameErrors()
    ensures ErrorsFor(ClientForm("Ada", "", "ada", "x", "1", ""))
         == map[LastName := "Last name is required"]
    ensures !Submittable(ClientForm("Ada", "", "ada", "x", "1", ""))
  {
    var form := ClientForm("Ada", "", "ada", "x", "1", "");
    assert form.firstName[0] == 'A' && form.username[0] == 'a';
    assert form.password[0] == 'x' && form.phone[0] == '1';
  }

  /** The intent handed to the `createClient` action (together with the
      host's `setOpen`, which that action may call). */
  datatype CreateIntent = CreateClientIntent(form: ClientForm)

  class CreateClientDialog {
    /** The `open` prop, owned by the host. */
    var open: bool
    var form: ClientForm
    var errors: map<Field, string>
    /** Every intent handed to `dispatch`, oldest first. */
    ghost var dispatched: seq<CreateIntent>

    /** Only required fields ever carry an entry, and an entry is either the
        field's message or the empty string left by an edit. */
    ghost predicate Valid()
      reads this
    {
      forall f :: f in errors ==>
        f in RequiredFields && (errors[f] == "" || errors[f] == RequiredMessage(f))
    }

    /** Mounting: `useState(initialState)` and `useState({})`. */
    constructor (open: bool)
      ensures Valid()
      ensures this.open == open && form == InitialForm() && errors == map[]
      ensures dispatched == []
    {
      this.open := open;
      form := InitialForm();
      errors := map[];
      dispatched := [];
    }

    /** `handleChange`: overwrite one field; if that field shows an error,
        blank that one error (the key stays, holding ""). */
    method Change(field: Field, value: string)
      requires Valid()
      modifies this
      ensures Valid()
      ensures form == old(form).Set(field, value)
      ensures form.Get(field) == value
      ensures forall g :: g != field ==> form.Get(g) == old(form.Get(g))
      ensures errors.Keys == old(errors.Keys)
      ensures field in errors ==> errors[field] == ""
      ensures forall g :: g in errors && g != field ==> errors[g] == old(errors[g])
      ensures open == old(open) && dispatched == old(dispatched)
    {
      form := form.Set(field, value);
      if field in errors && errors[field] != "" {
        errors := errors[field := ""];
      }
    }

    /** `handleClose`: close and discard everything, whatever the state. */
    method Close()
      requires Valid()
      modifies this
      ensures Valid()
      ensures !open && form == InitialForm() && errors == map[]
      ensures dispatched == old(dispatched)
    {
      open := false;
      form := InitialForm();
      errors := map[];
    }

    /** `handleSubmit`: store the fresh error map; if it is empty, dispatch
        the form as it stands and reset. Closing is left to the action. */
    method Submit()
      requires Valid()
      modifies this
      ensures Valid()
      ensures open == old(open)
      ensures Submittable(old(form)) ==>
        && dispatched == old(dispatched) + [CreateClientIntent(old(form))]
        && form == InitialForm()
        && errors == map[]
      ensures !Submittable(old(form)) ==>
        && dispatched == old(dispatched)
        && form == old(form)
        && errors == ErrorsFor(old(form))
        && errors != map[]
    {
      var errs := Validate(form);
      errors := errs;
      NoErrorsIffSubmittable(form);
      if |errs| != 0 {
        return;
      }
      dispatched := dispatched + [CreateClientIntent(form)];
      form := InitialForm();
      errors := map[];
    }
  }

  /** Scenario, run through the handlers: every required field but
      `lastName` is typed, then submit; no dispatch, one error, and the typed
      values are kept. */
  method MissingLastNameScenario() returns (d: CreateClientDialog)
    ensures d.dispatched == []
    ensures d.errors == map[LastName := "Last name is required"]
    ensures d.form == ClientForm("Ada", "", "ada", "x", "1", "")
    ensures d.open
  {
    d := new CreateClientDialog(true);
    d.Change(FirstName, "Ada");
    d.Change(Username, "ada");
    d.Change(Password, "x");
    d.Change(Phone, "1");
    assert d.form == ClientForm("Ada", "", "ada", "x", "1", "");
    MissingLastNameErrors();
    d.Submit();
  }

  /** Scenario: five required fields filled, email left empty;
      exactly one intent carrying `email == ""`, then the form is reset. */
  method FilledFormScenario() returns (d: CreateClientDialog)
    ensures d.dispatched == [CreateClientIntent(ClientForm("Ada", "Lovelace", "ada", "x", "1", ""))]
    ensures d.dispatched[0].form.email == ""
    ensures d.form == InitialForm() && d.errors == map[]
  {
    d := new CreateClientDialog(true);
    d.Change(FirstName, "Ada");
    d.Change(LastName, "Lovelace");
    d.Change(Username, "ada");
    d.Change(Password, "x");
    d.Change(Phone, "1");
    var typed := ClientForm("Ada", "Lovelace", "ada", "x", "1", "");
    assert d.form == typed;
    assert typed.firstName[0] == 'A' && typed.lastName[0] == 'L';
    assert typed.username[0] == 'a' && typed.password[0] == 'x' && typed.phone[0] == '1';
    assert Submittable(typed);
    d.Submit();
  }
}
