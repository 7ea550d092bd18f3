/**
  The "edit client" dialog (client/src/Pages/Users/EditClient.jsx): a local
  copy of the current record, re-seeded whenever the store hands over a new
  one, edited key by key and sent back whole as an "update" intent, with no
  validation.
 */
module EditClient {

  datatype Option<T> = None | Some(value: T)

  /** A record as the form holds it: string keys to string values. Keys
      beyond the five edited fields (`_id`, a role, ...) are carried along. */
  type Record = map<string, string>

  /** The keys the dialog renders and edits. */
  const EditedFields: set<string> := {"firstName", "lastName", "username", "email", "phone"}

  /** The category tag every update from this dialog carries. */
  const ClientRole: string := "client"

  /** `initialState`: the five edited keys, all empty; no `password`. */
  function InitialForm(): (r: Record)
    ensures r.Keys == EditedFields
    ensures "password" !in r
    ensures forall k :: k in r ==> r[k] == ""
  {
    map["firstName" := "", "lastName" := "", "username" := "", "email" := "", "phone" := ""]
  }

  /** `current._id`: undefined (None) when the record has no such key. */
  function IdOf(current: Record): (id: Option<string>)
    ensures id.Some? <==> "_id" in current
    ensures id.Some? ==> id.value == current["_id"]
  {
    if "_id" in current then Some(current["_id"]) else None
  }

  /** The value a text box shows, `form?.key || ""`: the stored string, or
      "" when the key is missing or its value is empty. */
  function Shown(form: Record, key: string): (r: string)
    ensures r == "" <==> key !in form || form[key] == ""
    ensures r != "" ==> key in form && r == form[key]
  {
    if key in form && form[key] != "" then form[key] else ""
  }

  /** For string values the `|| ""` fallback only matters for a missing
      key: a present key always shows exactly what it stores. */
  lemma ShownIsStoredValue(form: Record, key: string)
    ensures key in form ==> Shown(form, key) == form[key]
    ensures key !in form ==> Shown(form, key) == ""
  {
  }

  /** The intent handed to `updateUser`: the id read from the store's record,
      the whole local form, and the category tag. */
  datatype UpdateIntent = UpdateUser(id: Option<string>, form: Record, role: string)

  /** What `handleSubmit` ends with: the intent went out, or reading `_id`
      off an absent record threw before anything happened. */
  datatype SubmitOutcome = Dispatched | MissingRecord

  class EditClientDialog {
    /** The `open` prop, owned by the host. */
    var open: bool
    var form: Record
    /** Every intent handed to `dispatch`, oldest first. */
    ghost var dispatched: seq<UpdateIntent>

    /** Mounting: `useState(initialState)`; the first re-seed follows. */
    constructor (open: bool)
      ensures this.open == open && form == InitialForm() && dispatched == []
    {
      this.open := open;
      form := InitialForm();
      dispatched := [];
    }

    /** The effect that runs whenever the store's current record changes
        reference: the form becomes that record, extra keys and all, or the
        initial form when there is none. Local edits are discarded. */
    method Resync(current: Option<Record>)
      modifies this
      ensures current.Some? ==> form == current.value
      ensures current.None? ==> form == InitialForm()
      ensures forall k :: Shown(form, k) == (if current.Some? then Shown(current.value, k) else "")
      ensures open == old(open) && dispatched == old(dispatched)
    {
      form := if current.Some? then current.value else InitialForm();
    }

    /** `handleInputChange`: overwrite (or add) one key; every other key
        keeps its presence and its value. */
    method Change(field: string, value: string)
      modifies this
      ensures form == old(form)[field := value]
      ensures field in form && form[field] == value
      ensures Shown(form, field) == value
      ensures form.Keys == old(form.Keys) + {field}
      ensures forall k :: k in form && k != field ==> form[k] == old(form[k])
      ensures open == old(open) && dispatched == old(dispatched)
    {
      form := form[field := value];
    }

    /** `handleClose`: hide the dialog; the form is kept as it is. */
    method Close()
      modifies this
      ensures !open
      ensures form == old(form) && dispatched == old(dispatched)
    {
      open := false;
    }

    /** `handleSubmit`: with a current record, dispatch one update carrying
        that record's id (never an id typed into the form), the form as it
        stands, blank fields included, and the "client" tag; then close.
        Without one, `current._id` throws first: nothing is dispatched and
        the dialog stays as it was. */
    method Submit(current: Option<Record>) returns (outcome: SubmitOutcome)
      modifies this
      ensures outcome == Dispatched <==> current.Some?
      ensures current.Some? ==>
        && dispatched == old(dispatched) + [UpdateUser(IdOf(current.value), old(form), ClientRole)]
        && !open
      ensures current.None? ==> dispatched == old(dispatched) && open == old(open)
      ensures form == old(form)
    {
      if current.None? {
        return MissingRecord;
      }
      var id := IdOf(current.value);
      dispatched := dispatched + [UpdateUser(id, form, ClientRole)];
      open := false;
      outcome := Dispatched;
    }
  }

  /** Scenario: a phone edit made against one record is gone once the store
      hands over another. */
  method ResyncDiscardsEditsScenario(first: Record, second: Record) returns (d: EditClientDialog)
    ensures d.form == second
    ensures Shown(d.form, "phone") == Shown(second, "phone")
    ensures d.dispatched == [] && d.open
  {
    d := new EditClientDialog(true);
    d.Resync(Some(first));
    d.Change("phone", "555");
    d.Resync(Some(second));
  }

  /** An `_id` typed into the form does not redirect the update: the id comes
      from the store's record, while the typed key travels in the form. */
  method IdComesFromRecordScenario(current: Record) returns (d: EditClientDialog)
    requires "_id" in current && current["_id"] != "forged"
    ensures |d.dispatched| == 1
    ensures d.dispatched[0].id == Some(current["_id"]) != Some("forged")
    ensures d.dispatched[0].form == current["_id" := "forged"]
    ensures d.dispatched[0].role == "client" && !d.open
  {
    d := new EditClientDialog(true);
    d.Resync(Some(current));
    d.Change("_id", "forged");
    var outcome := d.Submit(Some(current));
  }
}
