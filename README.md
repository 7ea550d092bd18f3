# Client dialogs: create and edit form state machines

A Dafny model of the two modal forms of the administrative console's client
pages:

- **Create client** (`CreateClient.jsx`): a record of six text fields
  (`firstName`, `lastName`, `username`, `password`, `phone`, `email`), an
  error map, and the host-owned `open` flag. A required-field validator
  checks five fields; `email` is optional. Editing a field blanks that
  field's error. Submit dispatches a "create" intent only when validation
  finds nothing and then resets the form. Cancel resets everything.
- **Edit client** (`EditClient.jsx`): a local copy of the store's current
  record, re-seeded wholesale whenever the store hands over a new record.
  It is edited key by key and sent back whole as an "update" intent. That
  intent carries the store record's `_id`, the form and the tag `"client"`.
  There is no validation, and closing does not reset the form.

Files:

- `js_string.dfy`, module `JsString`: JavaScript's `String.prototype.trim`
  (ECMA-262), with the WhiteSpace and LineTerminator code points it strips,
  and the blank test the validator uses.
- `create_client.dfy`, module `CreateClient`: the form record, the
  validator (`ErrorsFor` as specification, `Validate` as the step-by-step
  construction of the source), and the class `CreateClientDialog` with
  `Change`, `Close` and `Submit`.
- `edit_client.dfy`, module `EditClient`: the record map, the display
  fallback `Shown`, and the class `EditClientDialog` with `Resync`,
  `Change`, `Close` and `Submit`.

Each dialog is a class whose fields are the component's state (`open`,
`form`, and `errors` for the create dialog). A ghost field `dispatched`
logs every intent handed to `dispatch`. The create dialog keeps an object
invariant `Valid()`: only required fields carry an error entry, and each
entry is either that field's message or the `""` an edit left behind.

On these points the model follows the code as written:

- Editing a field blanks its error whatever the new value is, even an
  empty one. The key stays in the map with value `""`; it is not removed.
- The edit dialog's form is seeded with the whole store record, so `_id`
  and any other extra keys live in the local form and travel in the
  intent's form as well. The intent's id still comes from the store record.
- Closing the edit dialog does not reset its form; only a re-seed does.
- The create form's fields are never absent: every write stores a string.
  So the `?.` in the validator never fires, and "absent counts as blank"
  has no case to cover.

## Model

| member | source | states |
|---|---|---|
| JsString.TrimStart | client/src/Pages/Users/CreateClient.jsx:50-54 | the leading half of `trim`: the result is a suffix of the input, everything dropped is whitespace, and the result does not start with whitespace |
| JsString.TrimEnd | client/src/Pages/Users/CreateClient.jsx:50-54 | the trailing half of `trim`: the result is a prefix of the input, everything dropped is whitespace, and the result does not end with whitespace |
| JsString.Trim | client/src/Pages/Users/CreateClient.jsx:50-54 | `trim` returns the slice between the leading and trailing whitespace; it neither starts nor ends with whitespace, and everything outside it is whitespace |
| JsString.TrimEmptyIffBlank | client/src/Pages/Users/CreateClient.jsx:50-54 | the validator's test `!x.trim()` holds exactly when every character is whitespace |
| CreateClient.ClientForm.Set | client/src/Pages/Users/CreateClient.jsx:36 | `{ ...p, [field]: value }` makes the named field `value` and leaves the other five fields as they were |
| CreateClient.InitialForm | client/src/Pages/Users/CreateClient.jsx:23-30 | the initial form has all six fields equal to `""` |
| CreateClient.RequiredMessage | client/src/Pages/Users/CreateClient.jsx:50-54 | each required field has its fixed literal message, and none is empty, so a stored message always reads as an error (`!!errors.f`), unlike the `""` an edit leaves |
| CreateClient.Validate | client/src/Pages/Users/CreateClient.jsx:49-54 | the error map has an entry for exactly the required fields whose trimmed value is empty, each with its fixed message; `email` never gets one; the result equals the specification `ErrorsFor` |
| CreateClient.NoErrorsIffSubmittable | client/src/Pages/Users/CreateClient.jsx:49-57 | validation yields no error exactly when all five required fields are non-blank after trimming |
| CreateClient.EmailNeverBlocks | client/src/Pages/Users/CreateClient.jsx:49-54 | changing `email` to any value changes neither the error map nor whether submit goes ahead |
| CreateClient.MissingLastNameErrors | client/src/Pages/Users/CreateClient.jsx:49-57 | with only `lastName` blank, the error map is exactly `{lastName: "Last name is required"}` and submit is blocked |
| CreateClient.CreateClientDialog.constructor | client/src/Pages/Users/CreateClient.jsx:23-33 | a fresh dialog has the initial form, an empty error map and no dispatch |
| CreateClient.CreateClientDialog.Change | client/src/Pages/Users/CreateClient.jsx:35-38 | only the named field changes, to the new value; the error keys stay the same, the named field's error (if any) becomes `""`, every other error is untouched, and nothing is dispatched |
| CreateClient.CreateClientDialog.Close | client/src/Pages/Users/CreateClient.jsx:40-44 | whatever the prior state, afterwards `open` is false, the form is initial, the error map is empty and nothing was dispatched (so closing twice is closing once) |
| CreateClient.CreateClientDialog.Submit | client/src/Pages/Users/CreateClient.jsx:46-62 | exactly one create intent carrying the form as it stood is dispatched iff all required fields are non-blank, then form and errors reset; otherwise nothing is dispatched, the form is kept and the errors become the fresh (non-empty) error map; `open` is never changed locally; the error invariant is kept |
| CreateClient.MissingLastNameScenario | client/src/Pages/Users/CreateClient.jsx:35-62 | typing every required field but `lastName` and submitting dispatches nothing, shows the one `lastName` error and keeps the typed values |
| CreateClient.FilledFormScenario | client/src/Pages/Users/CreateClient.jsx:35-62 | typing the five required fields with `email` empty and submitting dispatches exactly one intent whose form has `email == ""`, then resets the form and errors |
| EditClient.InitialForm | client/src/Pages/Users/EditClient.jsx:23-29 | the initial form has the five keys `firstName`, `lastName`, `username`, `email`, `phone`, all `""`, and no `password` |
| EditClient.IdOf | client/src/Pages/Users/EditClient.jsx:48 | `currentEmployee._id` is the record's `_id` value when the key is present, and undefined (`None`) exactly when it is missing |
| EditClient.Shown | client/src/Pages/Users/EditClient.jsx:85-135 | a text box shows `""` exactly when the key is missing or its value is empty, and otherwise the stored value |
| EditClient.ShownIsStoredValue | client/src/Pages/Users/EditClient.jsx:85-135 | for string values the fallback matters only for a missing key: a present key shows what it stores, a missing key shows `""` |
| EditClient.EditClientDialog.constructor | client/src/Pages/Users/EditClient.jsx:23-31 | a fresh dialog holds the initial form and has dispatched nothing |
| EditClient.EditClientDialog.Resync | client/src/Pages/Users/EditClient.jsx:33-35 | the form becomes the current record, extra keys included, or the initial form when there is none; prior edits are discarded; `open` and the log are unchanged |
| EditClient.EditClientDialog.Change | client/src/Pages/Users/EditClient.jsx:37-39 | the named key now holds the value (and is shown as it); the key set grows by at most that key; every other key keeps its value |
| EditClient.EditClientDialog.Close | client/src/Pages/Users/EditClient.jsx:41-43 | `open` becomes false; the form and the log are unchanged |
| EditClient.EditClientDialog.Submit | client/src/Pages/Users/EditClient.jsx:45-50 | with a current record: exactly one intent `(record._id, form, "client")` is appended, with no validation, and then `open` is false; without one: the outcome is the missing-record error, nothing is dispatched and `open` is unchanged; the form is never changed |
| EditClient.ResyncDiscardsEditsScenario | client/src/Pages/Users/EditClient.jsx:33-39 | a phone edit made against one record is gone once another record arrives: the form equals the new record |
| EditClient.IdComesFromRecordScenario | client/src/Pages/Users/EditClient.jsx:33-49 | an `_id` typed into the form does not change the id of the update, which is the store record's; the typed key still travels in the form |

## Left out

- Rendering: the MUI dialog, slide transition, icons, styling and the
  "Submitting..." button label driven by `isFetching`. They have no state
  of their own to model.
- The `createClient` and `updateUser` action creators, the redux store and
  its reducers, and the network calls behind them. They are foreign code.
  `dispatch` is modelled as appending the intent to the ghost log
  `dispatched`.
- The `setOpen` handed to `createClient`, which that action may call. The
  action is not part of this model, so `CreateClientDialog.Submit` leaves
  `open` unchanged.
- `e.preventDefault()` in both submit handlers. It only concerns the
  browser's default form handling.
- React scheduling: batching of `setState` calls, and handlers reading
  `errors` or `form` from a stale render closure. Each handler is modelled
  as running to completion before the next starts.
- When the re-seed effect runs. React runs it after mounting and whenever
  the store's `currentEmployee` reference changes. `Resync` is the effect's
  body, and the host is expected to call it at those moments.
- The host opening a dialog (setting `open` to true). That is done by the
  parent component; the constructor takes the initial `open` value.
- Non-string values in the store's record, such as `null` or numbers.
  `Record` maps keys to strings, so the `|| ""` display fallback only
  covers a missing key or `""`.
- The browser's coercion of the `type="number"` phone input. `phone` is an
  arbitrary string.
- `EditClient.EditClientDialog.Submit`: the order "dispatch, then close" is
  observable only through the missing-record case, where the throw happens
  before both. The model states that case; it keeps no combined log of
  dispatches and `setOpen` calls.
- The exception raised when the edit dialog submits without a current
  record. It is modelled as the outcome `MissingRecord`, and the state is
  left as it was.
