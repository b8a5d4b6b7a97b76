# bind-query-params: the binding-resolution engine in Dafny

`@ngneat/bind-query-params` keeps an Angular form group and the browser's query
string in step. A list of query-parameter definitions names, for each URL key,
the form path it binds to (`a.b`), how to decode it (`string`, `boolean`,
`array`, `number`, `object` or a custom parser), when to write it back (on
every value change or on submit), and whether the URL may drive the form at
all (`strategy: 'modelToUrl'` means it may not).

This project models the engine behind that binding:

- `wrappers.dfy`: the `Option` and `Result` types.
- `types.dfy`: the definition record of `types.ts`, and the form value as a tree:
  records of values, arrays, strings, booleans, numbers, `null` and `undefined`.
- `strings.dfy`: JavaScript's `split` and `join` on a one-character separator.
  `parse` uses them for arrays, and `get`/`set` use them for dotted paths.
- `utils.dfy`: `parse`, `get`, `coerceArray` and `resolveParams` from `utils.ts`.
  - `get` is written twice. `Get` is the loop that reassigns `current`, and
    `GetPath` is the recursive reading it is proved equal to.
  - `resolveParams` is written twice too. `ResolveParams` is the loop that fills
    `result` in place, and `Resolved` is the left fold it is proved equal to.
- `paths.dfy`: the path write the directive gets from lodash's `set`, with the
  read-after-write laws.
- `directive.dfy`: `BindQueryParamsDirective`.
  - The start-up decode of `ngOnInit`, as a loop (`DecodeQuery`) proved equal
    to a fold (`Decoded`).
  - The submit/change partition of the definitions.
  - The options `updateQueryParams` passes to the router.
  - The directive itself, as a class whose fields record the patches handed to
    the form and the navigations requested from the router.
- `scenarios.dfy`: examples taken from the test file, each stated for any field
  names without dots. They use subsets of the test component's seven
  definitions (`lib.spec.ts:60-68`): `searchTerm`, `showErrors` and `issues`
  for the flat cases, and `nested`/`nestedarray` for the nested ones.

Where the code and the expected behaviour differ, the model follows the code.
The exceptions are the two corrections listed under "## Findings".

- An empty boolean parameter (`?showErrors=`) decodes to `false`, because `!!""`
  is `false` in JavaScript.
- Change-triggered navigations use `replaceUrl: false`. The directive never
  passes the flag on that path, and `updateQueryParams` defaults it to `false`.
  The test helper (`lib.spec.ts:21-26`) expects `true`. That test drives a
  factory API (`BindQueryParamsFactory`), which is not part of this model,
  rather than this directive.
- On every value change the directive resolves all change-triggered
  definitions, not only the fields that changed (`bind-query-params.directive.ts:48-50`),
  and so does the model (`BindQueryParams.HandleNavigation`). The tests
  (`lib.spec.ts:103`, `:129`, `:155`, `:184`, `:255`) expect only the changed keys.
  `Scenarios.ChangesAreAggregated` matches `lib.spec.ts:255` only because its
  three definitions are exactly the changed fields.
- The directive calls `resolveParams(defs, formValue)`, but `resolveParams` takes
  one list of `{def, value}` pairs. The model uses the evident composition:
  - each definition is paired with `get(formValue, def.path)`;
  - a path that cannot be read, which throws a `TypeError` in JavaScript,
    produces no navigation.
- `def.serialize` belongs to a `QueryParamDef` class, which is not part of this
  model.
  - `ResolveParams` and `Resolved` take the serializer as a parameter, and
    every property of them holds for any serializer.
  - The directive uses `Utils.Serialize`: a custom `serializer` when one is
    set, otherwise a default consistent with the tests.
  - The default writes `true` as `"true"`, `[1,2,3]` as `"1,2,3"`, and a string
    as itself.

## Model

| member | source | states |
|---|---|---|
| Strings.Split | projects/ngneat/bind-query-params/src/lib/utils.ts:24 | `path.split('.')` (and `value.split(',')`): one more piece than separators, no piece holds the separator, joining the pieces restores the text |
| Strings.SplitNoSeparator | projects/ngneat/bind-query-params/src/lib/utils.ts:24 | a text without the separator splits into itself alone |
| Strings.SplitCons | projects/ngneat/bind-query-params/src/lib/utils.ts:24 | splitting `a + sep + b` (with `a` separator-free) gives `a` followed by the pieces of `b` |
| Strings.SplitJoin | projects/ngneat/bind-query-params/src/lib/utils.ts:12 | split is a left inverse of join for non-empty lists of separator-free pieces |
| Types.PathOf | projects/ngneat/bind-query-params/src/lib/types.ts:5 | the path a definition binds: its `path`, or its `queryKey` when none is given |
| Types.ReadsUrl | projects/ngneat/bind-query-params/src/lib/types.ts:7 | a definition may be driven by the URL unless its strategy is `modelToUrl`; used by `Decoded` and stated through `ModelToUrlNeverDecoded` |
| Utils.Parse | projects/ngneat/bind-query-params/src/lib/utils.ts:5-19 | `parse(value, type)` by kind; its contract is carried by `ParsePassesStrings`, `ParseBoolean`, `ParseArray`, `ParseArrayAbsent` and the round-trip lemmas; `number` and `object` give the symbolic `NumberOf`/`JsonOf` |
| Utils.ParsePassesStrings | projects/ngneat/bind-query-params/src/lib/utils.ts:5-19 | `'string'` and an absent type return the raw text unchanged |
| Utils.ParseBoolean | projects/ngneat/bind-query-params/src/lib/utils.ts:9-10 | `'boolean'` gives a boolean, false exactly for null, `""` and `"false"` (both directions) |
| Utils.ParseArray | projects/ngneat/bind-query-params/src/lib/utils.ts:11-12 | `'array'` on a text gives strings free of commas, one more than the commas, whose comma-join is the text |
| Utils.ParseArrayAbsent | projects/ngneat/bind-query-params/src/lib/utils.ts:12 | `'array'` on null gives `undefined` (optional chaining), not an empty list |
| Utils.ParseArrayExample | projects/ngneat/bind-query-params/src/lib/lib.spec.ts:158-168 | `"1,2,3"` decodes to `["1","2","3"]` |
| Utils.Index | projects/ngneat/bind-query-params/src/lib/utils.ts:24 | one step `current[p]`: a record's field or `undefined`, and an error on `undefined`/`null`; stated through `GetSingleSegment`, `GetDotted` and `GetMissingIntermediate` |
| Utils.GetPath | projects/ngneat/bind-query-params/src/lib/utils.ts:22-27 | the recursive reading of a segment list that `Get` is proved to compute; stated through `GetSingleSegment`, `GetDotted`, `GetMissingIntermediate` and the `Paths` lemmas |
| Utils.Get | projects/ngneat/bind-query-params/src/lib/utils.ts:22-27 | the segment loop over `current` computes the recursive path reading `GetPath` of the split path |
| Utils.GetSingleSegment | projects/ngneat/bind-query-params/src/lib/utils.ts:22-27 | a dot-free path reads `obj[p]` |
| Utils.GetDotted | projects/ngneat/bind-query-params/src/lib/utils.ts:24 | `p.rest` reads `rest` from `obj[p]`, and fails when `obj[p]` cannot be indexed |
| Utils.GetMissingIntermediate | projects/ngneat/bind-query-params/src/lib/utils.ts:24 | a missing intermediate field makes the next step read from `undefined`: an error, not `undefined` |
| Utils.CoerceArray | projects/ngneat/bind-query-params/src/lib/utils.ts:41-43 | an array comes back unchanged; a single item becomes a one-element list holding it |
| Utils.ResolveParams | projects/ngneat/bind-query-params/src/lib/utils.ts:29-39 | the in-place `forEach` computes the fold `Resolved` of the coerced list, and its keys are exactly the entries' query keys |
| Utils.Resolved | projects/ngneat/bind-query-params/src/lib/utils.ts:32-36 | the left fold writing each entry's serialization under its key, which `ResolveParams` is proved to compute; stated through `ResolvedKeys`, `ResolvedLastWins` and `ResolvedOrderIndependent` |
| Utils.ResolvedKeys | projects/ngneat/bind-query-params/src/lib/utils.ts:32-38 | the result's keys are exactly the entries' query keys; no entries give the empty map |
| Utils.ResolvedLastWins | projects/ngneat/bind-query-params/src/lib/utils.ts:34-36 | a key maps to the serialization of the last entry carrying it |
| Utils.ResolvedOrderIndependent | projects/ngneat/bind-query-params/src/lib/utils.ts:34-36 | with pairwise distinct keys, any ordering of the same entries gives the same map |
| Utils.DefaultSerialize | projects/ngneat/bind-query-params/src/lib/lib.spec.ts:120-156 | the reconstructed default text of a value (strings, booleans, integers, arrays joined with `','`); stated through `SerializeExamples` and the round-trip lemmas |
| Utils.Serialize | projects/ngneat/bind-query-params/src/lib/utils.ts:35 | `def.serialize(value)`: the definition's custom serializer when set, else `DefaultSerialize` |
| Utils.SerializeExamples | projects/ngneat/bind-query-params/src/lib/lib.spec.ts:120-156 | the default serialization writes `true` as `"true"`, `[1,2,3]` as `"1,2,3"` and a string as itself |
| Utils.RoundTripScalars | projects/ngneat/bind-query-params/src/lib/utils.ts:7-10 | a string and a boolean survive serialize then `parse` with their type |
| Utils.RoundTripArray | projects/ngneat/bind-query-params/src/lib/utils.ts:11-12 | a non-empty array of comma-free strings survives serialize then `parse` as `'array'` |
| Utils.EmptyArrayDoesNotRoundTrip | projects/ngneat/bind-query-params/src/lib/utils.ts:12 | the empty array serializes to `""`, which `parse` turns into `[""]` |
| Paths.SetPath | projects/ngneat/bind-query-params/src/lib/bind-query-params.directive.ts:32 | `set(value, def.path, …)` adds the first segment's field and leaves every other top-level field as it was |
| Paths.GetSetSame | projects/ngneat/bind-query-params/src/lib/bind-query-params.directive.ts:32 | reading back the path just written gives the value written |
| Paths.SetPathElsewhere | projects/ngneat/bind-query-params/src/lib/bind-query-params.directive.ts:32 | a write adds nothing at a disjoint path: it reads as before, or reads nothing |
| Paths.EmptyReadsNothing | projects/ngneat/bind-query-params/src/lib/bind-query-params.directive.ts:26 | the empty start tree `{}` holds nothing at any path |
| Paths.GetSetDisjoint | projects/ngneat/bind-query-params/src/lib/bind-query-params.directive.ts:28-34 | writing a path leaves every readable path that is neither its prefix nor its extension reading the same value |
| BindQueryParams.DecodeValue | projects/ngneat/bind-query-params/src/lib/bind-query-params.directive.ts:32 | the corrected decoded value: the custom parser when set, else `parse(raw, def.type)`; stated through `DecodedReadBack` and `AsWrittenIgnoresParser` |
| BindQueryParams.DecodedAsWritten | projects/ngneat/bind-query-params/src/lib/bind-query-params.directive.ts:28-34 | the loop as written: every present key writes `parse(raw, def.type)` at its path, whatever its strategy or parser; stated through `AsWrittenDecodesModelToUrl` and `AsWrittenIgnoresParser` |
| BindQueryParams.Decoded | projects/ngneat/bind-query-params/src/lib/bind-query-params.directive.ts:26-34 | the corrected decode fold: only present, URL-reading definitions write, with `DecodeValue`; stated through `DecodeQuery`, `DecodedSparse`, `DecodedNothingElsewhere`, `DecodedReadBack` and `ModelToUrlNeverDecoded` |
| BindQueryParams.DecodeQuery | projects/ngneat/bind-query-params/src/lib/bind-query-params.directive.ts:26-34 | the decode loop from `{}` computes the decoded tree `Decoded` |
| BindQueryParams.DecodedSparse | projects/ngneat/bind-query-params/src/lib/bind-query-params.directive.ts:26-34 | the patch's top-level fields are exactly the first segments of the decoded definitions; absent keys add nothing |
| BindQueryParams.DecodedNothingElsewhere | projects/ngneat/bind-query-params/src/lib/bind-query-params.directive.ts:26-34 | at any depth, a path that is neither on, above nor under a decoded definition's path reads `undefined` or an error: the patch holds nothing the query did not name |
| BindQueryParams.DecodedReadBack | projects/ngneat/bind-query-params/src/lib/bind-query-params.directive.ts:31-32 | a present key's value reads back at its path, unless a later decoded definition writes on, above or under that path |
| BindQueryParams.ModelToUrlNeverDecoded | projects/ngneat/bind-query-params/src/lib/lib.spec.ts:216-226 | a key bound only by `modelToUrl` definitions has no effect on the decoded tree |
| BindQueryParams.AsWrittenDecodesModelToUrl | projects/ngneat/bind-query-params/src/lib/bind-query-params.directive.ts:28-34 | the loop as written decodes `?modelToUrl=1,2,3` into the form, where the corrected decode writes nothing |
| BindQueryParams.AsWrittenIgnoresParser | projects/ngneat/bind-query-params/src/lib/bind-query-params.directive.ts:32 | the loop as written decodes `?parser=1,2,3` to strings, while the corrected decode applies the custom parser |
| BindQueryParams.SplitToNumbers | projects/ngneat/bind-query-params/src/lib/lib.spec.ts:66 | the tests' custom parser `value.split(',').map((v) => +v)`, with symbolic numbers; stated through `SplitToNumbersExample` |
| BindQueryParams.SplitToNumbersExample | projects/ngneat/bind-query-params/src/lib/lib.spec.ts:66 | the tests' custom parser turns `"1,2,3"` into three numbers |
| BindQueryParams.FilterByTrigger | projects/ngneat/bind-query-params/src/lib/bind-query-params.directive.ts:38-39 | the filter keeps exactly the definitions with the given trigger |
| BindQueryParams.OnSubmitDefs | projects/ngneat/bind-query-params/src/lib/bind-query-params.directive.ts:38 | the submit-triggered definitions; stated through `FilterByTrigger`, `TriggerPartition` and `TriggerNavigations` |
| BindQueryParams.OnChangeDefs | projects/ngneat/bind-query-params/src/lib/bind-query-params.directive.ts:39 | the change-triggered definitions; stated through `FilterByTrigger`, `TriggerPartition` and `TriggerNavigations` |
| BindQueryParams.FilterIsSubsequence | projects/ngneat/bind-query-params/src/lib/bind-query-params.directive.ts:38-39 | the filter keeps the definitions in their order |
| BindQueryParams.TriggerPartition | projects/ngneat/bind-query-params/src/lib/bind-query-params.directive.ts:38-39 | the submit and change subsets are order-preserving subsequences, disjoint, with lengths summing to the definitions' |
| BindQueryParams.UpdateQueryParams | projects/ngneat/bind-query-params/src/lib/bind-query-params.directive.ts:62-67 | the options of `router.navigate([], …)`: the given parameters, `merge`, the given `replaceUrl`; stated through `HandleNavigation` and `TriggerNavigations` |
| BindQueryParams.Handle | projects/ngneat/bind-query-params/src/lib/bind-query-params.directive.ts:43 | one listener run: pair the subset with the snapshot, resolve, navigate, or no navigation when a path cannot be read; stated through `HandleNavigation` |
| BindQueryParams.SubmitNavigation | projects/ngneat/bind-query-params/src/lib/bind-query-params.directive.ts:42-44 | the submit listener's navigation, with `replaceUrl` true; stated through `TriggerNavigations` |
| BindQueryParams.ChangeNavigation | projects/ngneat/bind-query-params/src/lib/bind-query-params.directive.ts:48-50 | the change listener's navigation, with the default `replaceUrl` false; stated through `TriggerNavigations` and `Scenarios.ChangesAreAggregated` |
| BindQueryParams.ParamsFor | projects/ngneat/bind-query-params/src/lib/bind-query-params.directive.ts:43 | pairing the definitions with the snapshot's values succeeds iff every path is readable, and pairs each definition with the value at its path |
| BindQueryParams.ParamsForKeys | projects/ngneat/bind-query-params/src/lib/bind-query-params.directive.ts:43 | the entries built from a subset carry exactly the subset's query keys |
| BindQueryParams.ParamsForLastWins | projects/ngneat/bind-query-params/src/lib/bind-query-params.directive.ts:43 | the last definition with a key decides that key's text: the serialization of the value at its path |
| BindQueryParams.HandleNavigation | projects/ngneat/bind-query-params/src/lib/bind-query-params.directive.ts:62-67 | a handler run navigates with `merge`, the given `replaceUrl`, exactly the subset's keys, each serialized from its last definition's path |
| BindQueryParams.KeysFromTrigger | projects/ngneat/bind-query-params/src/lib/bind-query-params.directive.ts:38-50 | every key a trigger's navigation carries comes from a definition with that trigger |
| BindQueryParams.TriggerNavigations | projects/ngneat/bind-query-params/src/lib/bind-query-params.directive.ts:41-67 | submit navigations replace the history entry, change navigations do not; both merge and carry only their own trigger's keys |
| BindQueryParams.BindQueryParamsDirective.constructor | projects/ngneat/bind-query-params/src/lib/bind-query-params.directive.ts:13-22 | a new directive has its definitions, no patches, no navigations and no live listeners |
| BindQueryParams.BindQueryParamsDirective.NgOnInit | projects/ngneat/bind-query-params/src/lib/bind-query-params.directive.ts:24-52 | patches the form once with the decoded tree and subscribes a listener exactly for each non-empty subset |
| BindQueryParams.BindQueryParamsDirective.Update | projects/ngneat/bind-query-params/src/lib/bind-query-params.directive.ts:62-68 | appends the handler's navigation when every path is readable, nothing otherwise |
| BindQueryParams.BindQueryParamsDirective.NgSubmit | projects/ngneat/bind-query-params/src/lib/bind-query-params.directive.ts:41-45 | when subscribed, appends the submit navigation (`replaceUrl` true) of the group's value |
| BindQueryParams.BindQueryParamsDirective.ValueChanges | projects/ngneat/bind-query-params/src/lib/bind-query-params.directive.ts:47-51 | when subscribed, appends the change navigation (`replaceUrl` false) of the emitted value |
| BindQueryParams.BindQueryParamsDirective.NgOnDestroy | projects/ngneat/bind-query-params/src/lib/bind-query-params.directive.ts:58-60 | both listeners stop |
| Scenarios.StartupDecodeIsSparse | projects/ngneat/bind-query-params/src/lib/lib.spec.ts:132-142 | `?showErrors=true` patches only `showErrors`, with `true` |
| Scenarios.ParseOneTwo | projects/ngneat/bind-query-params/src/lib/lib.spec.ts:196 | `"1,2"` parsed as an array is `["1","2"]` |
| Scenarios.NestedDecode | projects/ngneat/bind-query-params/src/lib/lib.spec.ts:187-200 | `?nested=value&nestedarray=1,2` puts `"value"` at `a.b` and `["1","2"]` at `a.c` |
| Scenarios.NestedDecodeLeavesSibling | projects/ngneat/bind-query-params/src/lib/bind-query-params.directive.ts:26-34 | `?nested=value` alone decodes to exactly `{a: {b: "value"}}`; the sibling `a.c` reads `undefined` |
| Scenarios.ThreeDefsTriggers | projects/ngneat/bind-query-params/src/lib/lib.spec.ts:61-63 | `searchTerm`, `showErrors` and `issues`, taken as change-triggered, form the change subset; the submit subset is empty |
| Scenarios.ChangedParams | projects/ngneat/bind-query-params/src/lib/lib.spec.ts:247-251 | each changed field is read from the snapshot at its own path |
| Scenarios.ChangedResolved | projects/ngneat/bind-query-params/src/lib/lib.spec.ts:255 | the string, boolean and number array serialize to `"new"`, `"true"` and `"1,2,3"` |
| Scenarios.ChangesAreAggregated | projects/ngneat/bind-query-params/src/lib/lib.spec.ts:243-256 | with the definitions limited to `searchTerm`, `showErrors` and `issues`, one change of those three fields gives a single merge navigation holding all three keys |

## Left out

- Angular plumbing is left out: dependency injection, `@Directive`/`@Input`, the `NgModule.forRoot` provider wiring, and `ControlContainer`/`FormGroupDirective`. `patchValue` is left out as well, and the directive records the patch it hands to the form.
- `Router.navigate` is a sink: the directive records the options of each call.
- The RxJS `Subject`/`takeUntil` teardown is modelled only as the two subscription flags. Event scheduling is not modelled.
- `URLSearchParams` and `window.location.search` are left out: the query is a map from key to raw text. Percent-decoding and repeated keys are not modelled.
- `defsToParams` (`utils.ts:45-52`) is left out because it needs Angular's `AbstractControl.get`.
- Utils.Parse: `'number'` (`+value`) gives an uninterpreted `NumberOf(raw)` instead of a floating-point number, because IEEE arithmetic and `NaN` are not modelled.
- Utils.Parse: `'object'` (`JSON.parse`) gives an uninterpreted `JsonOf(raw)`, because the JSON parser is foreign code. Its `SyntaxError` on malformed text is not modelled.
- Utils.Index: a property read on a string, boolean, number or array gives `undefined`. `length` and numeric indices are not modelled.
- Paths.SetPath: lodash's `set` creates arrays for numeric segments and accepts bracket paths. Neither is modelled.
- Paths.SetPath: lodash's `set` keeps an existing object intermediate (an array, or an object produced by `JSON.parse`) and writes into it. The model replaces every non-record intermediate with a fresh record, as it does for a missing one.
- Utils.Index: an inherited property of a record (`toString`, `constructor`) reads as a function in JavaScript. The model reads it as `undefined` unless the record has that field.
- Utils.Resolved: a JavaScript object remembers the order its keys were added in, which fixes the order of the parameters in the URL. A Dafny `map` has no order, so the model does not say in which order the keys appear.
- Types.QueryParamDef: `trigger` and the default `path` come from the `QueryParamDef` class, which is not part of this model. `types.ts:3-10` declares neither. The model takes `trigger` to be `change` or `submit`, so `BindQueryParams.TriggerPartition` covers every definition; a definition with another trigger would be in neither subset. A missing `path` is taken to mean `queryKey`.
- Utils.Serialize: the real `def.serialize` is not part of this model. The default here is reconstructed from the tests' expectations, and it gives no text for `null`, `undefined`, records, or symbolic numbers and JSON values.
- Custom `parser` and `serializer` closures are arbitrary total functions. A parser that throws is not modelled.
- BindQueryParams.ParamsFor: the directive's two-argument `resolveParams` call has no single meaning as written. The model pairs each definition with `get(formValue, def.path)`, and a failing `get` produces no navigation instead of an uncaught `TypeError`.

## Findings

| source | as written | input that shows it | evidently intended | confidence | as-written member | corrected member |
|---|---|---|---|---|---|---|
| projects/ngneat/bind-query-params/src/lib/bind-query-params.directive.ts:28-34 | every definition whose key is in the query is decoded into the form, whatever its strategy | `?modelToUrl=1,2,3` with `{queryKey: 'modelToUrl', type: 'array', strategy: 'modelToUrl'}` patches `modelToUrl` with `["1","2","3"]` | a `modelToUrl` definition is never decoded (`lib.spec.ts:216-226`) | not executed | BindQueryParams.AsWrittenDecodesModelToUrl | BindQueryParams.ModelToUrlNeverDecoded |
| projects/ngneat/bind-query-params/src/lib/bind-query-params.directive.ts:32 | the value is always `parse(raw, def.type)`; a custom `parser` is never called | `?parser=1,2,3` with a parser mapping pieces to numbers patches `["1","2","3"]` | the custom parser decodes the value, giving `[1,2,3]` (`lib.spec.ts:229-240`) | not executed | BindQueryParams.AsWrittenIgnoresParser | BindQueryParams.DecodedReadBack |
