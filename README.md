# dwm record cleaning, modelled in Dafny

dwm cleans one record at a time. A record is a flat map from field names to string values, where the empty string means "no value". A per-field rule configuration says which lookup types apply to each field and which derive rules compute a field from other fields. This project models two parts of it:

- **The two passes of `dwm/wrappers.py`.**
  - `lookupAll` applies one lookup type to every field of the record.
  - `DeriveDataLookupAll` applies the derive rules of every configured field. The first rule that changes a field's value wins.

  Both are methods of the class `Records.Record`. The class holds the record as a `map<string, string>` plus the order in which its keys are walked. Each method is proved equal to a pure fold over that key order (`Lookup.Pass`, `Derive.Pass`), as its `ensures` clause. The lemmas beside the folds state what the passes guarantee.
- **What `Dwm(name, mongo, fields, udfs)` guarantees at construction, as `dwm/test/test_dwm_init.py` pins it down.**
  - The name and store are stored exactly as given.
  - `fields` and `udfs` default to empty.
  - Valid maps are stored unchanged.
  - Any unknown lookup token, derive type, derive option or hook position makes construction fail.

  Validation (`Config.Violations`) returns the set of all violations. It is proved empty exactly when the reference predicates `ValidFields` and `ValidHooks` hold.

Modules, one per component:

| file | module | contents |
|---|---|---|
| options.dfy | Options | `Option`, `Result` |
| vocabulary.dfy | Vocabulary | lookup tokens, derive types, hook positions, and the lookup types each service handles |
| config.dfy | Config | `FieldConfig`, `DeriveRule`, `ConfigError`, the validity predicates, `Violations` |
| cleaning.dfy | Cleaning | the record type `Rec` and the external services `Services<H>` |
| lookup.dfy | Lookup | specification of `lookupAll`, with its lemmas |
| derive.dfy | Derive | specification of `DeriveDataLookupAll`, with its lemmas |
| records.dfy | Records | the `Record` class and the two loop methods, with their per-rule helpers |
| dwm.dfy | Dwm | the configuration object and its validating construction |
| examples.dfy | Examples | the construction tests, and small runs of both passes |

The external services are `DataLookup`, `RegexLookup`, `DeriveDataLookup`, `DeriveDataCopyValue` and `DeriveDataRegex`, all from `dwm/cleaning`. Each is an arbitrary function supplied by the caller, held as a field of `Cleaning.Services<H>`. The store handle `db` is captured inside that function. The change history is a type parameter `H`. Each service takes the history and returns a new one, and the passes only thread it from call to call.

Points where the code differs from its docstrings (wrappers.py:7, :37) or is easy to misread:

- `lookupAll` handles one lookup type per call. Running the several lookup types in turn is left to its caller.
- `DeriveDataLookupAll` walks the record's keys and skips unconfigured ones. It does not walk the configuration's keys.
- The lookup type `normIncludes` is a legal token, but `lookupAll` has no branch for it. So `Lookup.Pass` and `Records.Record.LookupAll` require the lookup type to be one of the six that do have a branch (`Vocabulary.ServicedLookupTypes`). Any other configured type would reach the write at wrappers.py:30 with `fieldValNew` unbound.
- In the derive pass, every rule of a field is given the field's value from before the rule loop (`fieldVal`). After a rule that changed nothing, `fieldValNew` still equals `fieldVal`. So the test at wrappers.py:76 behaves the same whether or not the rule was gated.

Line 149 of the test file reads `assert dwm.udfs = udf_set`. That is not valid Python and was meant as `==`. `Examples.AllHookPositionsAccepted` and `Examples.TestInitGood` state the intended check.

## Model

| member | source | states |
|---|---|---|
| `Config.Violations` | dwm/test/test_dwm_init.py:67-160 | The validator: the set of every unknown lookup token, derive type, derive option and hook position in a field map and a hook map. |
| `Config.ViolationsAreReal` | dwm/test/test_dwm_init.py:67-160 | Every reported violation names a field and token (or rule index, or hook key) that is really present and really outside its vocabulary. |
| `Config.NoViolationsIffValid` | dwm/test/test_dwm_init.py:47-160 | Validation finds no violation exactly when every lookup token, derive type and derive option is legal and every hook key is a hook position. |
| `Dwm.Dwm.constructor` | dwm/test/test_dwm_init.py:15-64 | On a valid configuration, name, store, fields and udfs are stored exactly as given. `fields` and `udfs` default to empty maps. |
| `Dwm.Dwm.Create` | dwm/test/test_dwm_init.py:67-160 | Construction succeeds if and only if the configuration is valid. On success the object holds the arguments unchanged. On failure there is no object, and the error is the non-empty set of all violations. |
| `Examples.TestInitDefaults` | dwm/test/test_dwm_init.py:15-42 | Constructing with only a name and a store gives an object whose name and store are the arguments and whose `fields` and `udfs` are empty. |
| `Examples.TestInitGood` | dwm/test/test_dwm_init.py:47-64 | Constructing with the legal field configuration, or with all nine hook positions, stores the map unchanged. |
| `Examples.TestInitBadLookup` | dwm/test/test_dwm_init.py:67-84 | Construction with `badlookup` fails. |
| `Examples.TestInitBadDerive` | dwm/test/test_dwm_init.py:87-104 | Construction with the derive type `badderive` fails. |
| `Examples.TestInitBadOption` | dwm/test/test_dwm_init.py:107-124 | Construction with the option `badoption` fails. |
| `Examples.TestInitBadPosition` | dwm/test/test_dwm_init.py:152-160 | Construction with the hook key `badposition` fails, reporting only that key. |
| `Examples.GoodFieldsAccepted` | dwm/test/test_dwm_init.py:47-64 | The test's field configuration has no violation, whatever the option vocabulary. |
| `Examples.BadLookupRejected` | dwm/test/test_dwm_init.py:67-84 | The token `badlookup` is reported as a violation of `field1`. |
| `Examples.BadDeriveRejected` | dwm/test/test_dwm_init.py:87-104 | The derive type `badderive` of rule 0 is reported. |
| `Examples.BadOptionRejected` | dwm/test/test_dwm_init.py:107-124 | The option `badoption` of rule 0 is reported, for any option vocabulary that lacks it. |
| `Examples.AllHookPositionsAccepted` | dwm/test/test_dwm_init.py:134-149 | A map registering all nine hook positions is valid, and its keys are exactly the hook positions. |
| `Examples.BadPositionRejected` | dwm/test/test_dwm_init.py:152-160 | A map registering `badposition` yields exactly one violation, for that key. |
| `Lookup.Eligible` | dwm/wrappers.py:18-20 | A field is sent to a service exactly when it is configured, non-blank and lists the lookup type. |
| `Lookup.Call` | dwm/wrappers.py:22-28 | `genericLookup`, `fieldSpecificLookup` and `normLookup` go to the value service; `genericRegex`, `fieldSpecificRegex` and `normRegex` go to the regex service. |
| `Lookup.Step` | dwm/wrappers.py:18-30 | One field's iteration keeps the record's key set and changes no other field. |
| `Lookup.Pass` | dwm/wrappers.py:16-32 | The lookup pass never adds or removes a key of the record. |
| `Lookup.PassFrame` | dwm/wrappers.py:16 | A field outside the walked key order is never written. |
| `Lookup.PassUntouched` | dwm/wrappers.py:18-20 | A blank field, an unconfigured field, and a field whose `lookup` list lacks the lookup type all come back unchanged. |
| `Lookup.PassSplit` | dwm/wrappers.py:16 | Walking the keys `a + b` is walking `a`, then `b` from the record and history `a` left. |
| `Lookup.PassTouched` | dwm/wrappers.py:22-30 | An eligible field ends with the service's answer for its original value. The value types go to the value service and the regex types to the regex service. The call is given the history accumulated by the fields before it. |
| `Lookup.PassNoCall` | dwm/wrappers.py:16-32 | When no field is eligible, no service is called: record and history come back as given. |
| `Lookup.PassHistoryLast` | dwm/wrappers.py:22-32 | The history returned is the one produced by the service call for the last eligible field. |
| `Lookup.PassCanonical` | dwm/wrappers.py:16-32 | Idempotence: if the service answers "same value, same history" for every eligible field, the pass leaves record and history unchanged. |
| `Derive.Gated` | dwm/wrappers.py:57 | A rule is attempted only when every name in its field set is a key of the record. |
| `Derive.Input` | dwm/wrappers.py:59-62 | The dependency inputs map each name of the field set to its current value. |
| `Derive.Attempt` | dwm/wrappers.py:57-73 | A rule whose field set is not all present in the record, or whose type reaches no service (`deriveIncludes`, unknown types), calls nothing. It yields the field's value and the history unchanged. |
| `Derive.FirstChange` | dwm/wrappers.py:53-80 | A winning value always differs from the field's value. If no rule reaches a service, nothing wins and the history is unchanged. |
| `Derive.Step` | dwm/wrappers.py:45-80 | One field's iteration keeps the key set and changes no other field. An unconfigured field is skipped entirely. The record changes only if the field's value changes, so there is at most one write per field. |
| `Derive.Pass` | dwm/wrappers.py:45-82 | The derive pass never adds or removes a key of the record. |
| `Derive.FirstChangeStops` | dwm/wrappers.py:76-80 | Short circuit: once a rule has changed the value, appending any further rules changes neither the outcome nor the history. |
| `Derive.FirstChangeContinues` | dwm/wrappers.py:64-80 | Rules that change nothing do not stop the loop. The later rules run with the history those rules returned. |
| `Derive.FirstChangeWinner` | dwm/wrappers.py:53-80 | The winner is the first rule that changes the value: every rule before it left the value unchanged, and it was attempted with the history those rules returned. Its result is the loop's value and history. |
| `Derive.PassFrame` | dwm/wrappers.py:45 | A field outside the walked key order is never written. |
| `Derive.PassUnconfigured` | dwm/wrappers.py:45-47 | A field without a configuration entry comes back unchanged. |
| `Derive.PassSplit` | dwm/wrappers.py:45 | Walking the keys `a + b` is walking `a`, then `b` from the record and history `a` left. |
| `Derive.PassField` | dwm/wrappers.py:49-80 | A configured field ends with the first changed value of its rules, or keeps its value. The rules see the record as left by the fields walked before it, so an earlier derive write is visible to later dependency inputs. Each rule is given the field's original value. |
| `Derive.PassNoCall` | dwm/wrappers.py:57-82 | When no field has a rule that reaches a service, record and history come back as given. |
| `Records.BuildDeriveInput` | dwm/wrappers.py:59-62 | The dependency-input map has exactly the names of the field set as keys, each mapped to its current value in the record. |
| `Records.AttemptRule` | dwm/wrappers.py:57-73 | One rule's gating and dispatch compute exactly `Derive.Attempt`. |
| `Records.TryRules` | dwm/wrappers.py:53-80 | The rule loop with its `break` returns the first changed value (or the original value) and the history of `Derive.FirstChange`. |
| `Records.Record.constructor` | dwm/wrappers.py:9 | A record is built from a key order listing each of its keys once. |
| `Records.Record.LookupAll` | dwm/wrappers.py:5-32 | The in-place loop leaves the record and returns the history given by `Lookup.Pass` over the record's key order. It keeps the record well formed. |
| `Records.Record.DeriveDataLookupAll` | dwm/wrappers.py:35-82 | The in-place loop leaves the record and returns the history given by `Derive.Pass` over the record's key order. It keeps the record well formed. |
| `Examples.ColorLookedUp` | dwm/wrappers.py:16-32 | With a generic lookup mapping `Red` to `red`, the record `{color: Red}` becomes `{color: red}`, and the history holds that one change. |
| `Examples.ColorRecord` | dwm/wrappers.py:5-32 | The same run through the record object: `LookupAll` leaves `{color: red}` and returns the one-entry history. |
| `Examples.BlankSkipped` | dwm/wrappers.py:18 | `{color: ""}` is returned unchanged with an empty history: no service is called. |
| `Examples.DeriveSeesEarlierWrite` | dwm/wrappers.py:57-78 | In the copy chain src → a → b walked in that order, `b` receives the value just written to `a`. |
| `Examples.DeriveOrderMatters` | dwm/wrappers.py:45-78 | The same chain walked as src, b, a leaves `b` blank. |
| `Examples.DeriveShortCircuit` | dwm/wrappers.py:76-80 | A copy rule changes the field, so the derive-lookup rule after it is never called. Its call does not appear in the history. |
| `Examples.DeriveGated` | dwm/wrappers.py:57 | A rule depending on a missing field is not attempted: record and history are unchanged. |

## Left out

- The cleaning services (`DataLookup`, `RegexLookup`, `DeriveDataLookup`, `DeriveDataCopyValue`, `DeriveDataRegex`) and the MongoDB handle. They are foreign code and a database, so they become arbitrary caller-supplied functions with no behaviour beyond their signature. The content of the history is whatever they make of it.
- Exceptions raised by a service part-way through a record, and the no-rollback state they leave behind. The services are modelled as total functions.
- The `Dwm` class's own methods: hook dispatch, the order in which the lookup types and the derive pass are run for a record, and `afterAll`. That code is not part of this model. Only the validation of the hook map is modelled.
- The mutable default `histObj={}`. The history is always an explicit argument here.
- The unused `datetime` import.
- Missing `overwrite` / `blankIfNoMatch` keys in a rule raise `KeyError` in the source, but only for a rule that passes its gate and is reached before a short circuit. `Derive.RulesWellFormed` instead requires them of every `deriveValue`, `copyValue` or `deriveRegex` rule of every configured field, reached or not. The test configurations omit them, which the model allows (`Option<bool>`), because their rules are of type `deriveIncludes`.
- Calling `lookupAll` with a lookup type that has no service branch (`normIncludes`, or an unknown string) fails in the source on the first eligible field. The model's precondition excludes such a type altogether, including a run where no field lists it, which the source completes normally without changing anything.
- The `derive` entry as a dict keyed by rule name. It is modelled as the ordered list the tests use.
- The full vocabulary of derive options cannot be recovered from the code. It is a parameter `deriveOptions` of validation and construction. The option tests hold for every vocabulary that lacks `badoption`.
- The tests only require a `ValueError`. The model returns the set of all violations instead.
- The defaults `fields == []` and `udfs == []` are Python lists in the tests (test_dwm_init.py:36, :42). Both are modelled as empty maps.
- Records with non-string values. Values are strings only.
- `Derive.Pass`: for the derive pass, "the history returned is the last service call's" is stated per field (`Derive.FirstChangeWinner`, `Derive.FirstChangeContinues`) and for the no-call case (`Derive.PassNoCall`). There is no single whole-pass lemma like `Lookup.PassHistoryLast`.
