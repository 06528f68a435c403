# nest-effect core, modelled in Dafny

This project models three parts of the nest-effect repository:

- the **Effect interceptor** (`EffectInterceptor`). A route handler's return value
  is either a plain value, which is emitted unchanged, or an Effect. An Effect is
  run once. Its success value is emitted, and its failure goes through
  `mapEffectErrorToHttpException`. That function is an ordered, first-match-wins
  rule table from a thrown value to a 400, 404 or 500 exception;
- the **validation pipe** (`EffectValidationPipe.transform`). A parameter whose
  declared type is an Effect Schema is decoded. A successful decode replaces the
  value. A parse error becomes a 400 whose message is `"Validation failed: "`
  followed by the formatted tree. Any other fault is rethrown. A parameter without
  a schema passes through untouched;
- the **cat store** (`CatService`). This is a JavaScript `Map` from id to cat. New
  ids are the decimal rendering of `size + 1`. The invariant kept by `createCat`:
  the keys, in insertion order, are exactly `"1" .. "n"`, and every cat is stored
  under its own id.

Files, one module each:

- `wrappers.dfy`: Option and Result.
- `http.dfy`: an HTTP exception as a status plus the body given to its constructor.
- `errors.dfy`: the values a failure can carry.
  - `ParseError(tree)` for a schema parse error.
  - `Null` and `Undefined`.
  - `ErrorObject(name, message)` for any other `Error`.
  - `StringError(s)` for a thrown string.
  - `OtherValue` for everything else.
- `interceptor.dfy`: the interceptor and its rule table.
- `validation_pipe.dfy`: the pipe.
- `decimal.dfy`: `Number#toString` on naturals, with its inverse.
- `ordered_map.dfy`: an insertion-ordered map with JavaScript `Map` semantics.
- `cat_service.dfy`: the cat service as a state machine over that map.

Foreign calls are parameters:

- the schema library's `Schema.isSchema`;
- `Schema.decodeUnknownSync`, as a function returning `Ok | ParseFail | OtherFault`;
- `ParseResult.TreeFormatter.formatErrorSync`, as an uninterpreted `ParseTree -> string`.

An Effect is represented by its settled outcome, `Succeeded(v) | Failed(e)`.
Running it is counted in the `runs` field of the interceptor's result. A
handler that throws is its own case, `Threw(e)`: `catchError` wraps only the
Effect's promise, so such an error is passed on unmapped.

The pipe and the interceptor answer a parse failure with different bodies:

- the pipe throws a `BadRequestException` carrying one string, `"Validation failed: "`
  followed by the formatted tree;
- the interceptor builds a `{message, errors}` object.

`ValidationPipe.PipeAndInterceptorBodiesDiffer` states this.

## Model

| member | source | states |
|---|---|---|
| Interceptor.MapEffectError | src/shared/effect.interceptor.ts:41-74 | the status is always 400, 404 or 500; 400 exactly for parse errors and Errors named ValidationError; 404 exactly for null, undefined and Errors named NotFoundError; a parse error gets `{message: "Validation failed", errors: format(tree)}`, the only structured body; other Errors carry their own message, a string its own text, null/undefined "Resource not found", anything else "An unexpected error occurred" |
| Interceptor.StatusFollowsTaxonomy | src/shared/effect.interceptor.ts:41-74 | the rule table's status agrees, on every failure value, with an independently written taxonomy (schema failure, absent value, named validation, named not-found, unclassified) |
| Interceptor.ParseErrorRuleWins | src/shared/effect.interceptor.ts:43-48 | a parse error is an Error instance, yet it is answered with 400 and the `{message, errors}` body because its rule is checked before the generic Error rule |
| Interceptor.MappingIgnoresFormatter | src/shared/effect.interceptor.ts:41-74 | the mapping depends on the failure value alone: for everything but a parse error, any two tree formatters give the same exception |
| Interceptor.Intercept | src/shared/effect.interceptor.ts:18-39 | a non-Effect value is emitted unchanged and nothing is run; an Effect is run exactly once; something is emitted as a value exactly when the handler returned a plain value or a succeeding Effect; a failing Effect raises the mapped exception; an error thrown by the handler itself is passed on exactly as thrown, unmapped |
| Interceptor.FailureIsNeverEmitted | src/shared/effect.interceptor.ts:30-32 | a failed Effect is always raised, never emitted as a value, and the raised status is 400, 404 or 500 |
| Interceptor.EmittedValueComesFromHandler | src/shared/effect.interceptor.ts:25-36 | the interceptor emits value v if and only if the handler returned v directly or an Effect that succeeded with v |
| Interceptor.OnlyEffectFailuresAreMapped | src/shared/effect.interceptor.ts:22-36 | an HTTP exception is raised exactly when the handler returned an Effect that failed; an error thrown by the handler is delivered as thrown, with nothing run |
| ValidationPipe.Transform | src/shared/effect-validation.pipe.ts:12-36 | without a metatype, or with one that `Schema.isSchema` (the `isEffectSchema` test) does not recognise, the value is returned unchanged; with one, a value is returned exactly when decoding succeeds, and it is the decoded value; a parse failure becomes a 400 with message "Validation failed: " + format(tree); any other decode fault is rethrown unchanged |
| ValidationPipe.GateDependsOnlyOnMetatype | src/shared/effect-validation.pipe.ts:15-29 | whether decoding happens is fixed by the metatype alone; with a schema the raw value affects the result only through what the decoder returns; without one every value passes through |
| ValidationPipe.RejectionIsPrefixed400 | src/shared/effect-validation.pipe.ts:19-24 | a rejection happens only for a schema metatype whose decode gave a parse failure, and it is a 400 whose text message starts with "Validation failed: " |
| ValidationPipe.PipeAndInterceptorBodiesDiffer | src/shared/effect-validation.pipe.ts:19-24 | for the same parse failure the pipe and the interceptor both answer 400, but with different bodies (a prefixed string versus a `{message, errors}` object) |
| Decimal.NatToString | src/modules/cat/cat.service.ts:16 | `id.toString()` on a natural yields a non-empty string of decimal digits with no leading zero unless the number is 0 |
| Decimal.NatToStringRoundTrip | src/modules/cat/cat.service.ts:16 | reading the digits of a rendered id back gives the number |
| Decimal.NatToStringInjective | src/modules/cat/cat.service.ts:13-16 | two numbers render to the same id string if and only if they are equal |
| OrderedMaps.Empty | src/modules/cat/cat.service.ts:6 | `new Map()` is well formed, has size 0 and maps no key |
| OrderedMaps.SizeCountsEntries | src/modules/cat/cat.service.ts:13 | `db.size`, the length of the key order, is the number of entries in a well-formed map |
| OrderedMaps.Get | src/modules/cat/cat.service.ts:26 | `map.get(k)` is a value exactly when k is a key, and then it is the value stored under k |
| OrderedMaps.Set | src/modules/cat/cat.service.ts:20 | after `map.set(k, v)`, k maps to v and every other key maps to what it mapped to before; well-formedness is kept; size grows by one for a new key, which goes after all earlier keys, and stays the same for an existing key |
| OrderedMaps.SetThenValues | src/modules/cat/cat.service.ts:20 | setting a new key appends its value to `values()`; setting an existing key replaces its value in place |
| OrderedMaps.ValuesFollowKeyOrder | src/modules/cat/cat.service.ts:9 | the i-th element of `values()` is the value stored under the i-th inserted key |
| OrderedMaps.Values | src/modules/cat/cat.service.ts:9 | `db.values()` yields one value per entry: its length is the map's size |
| OrderedMaps.ValuesListsEntries | src/modules/cat/cat.service.ts:9 | every stored value appears in `db.values()`, and every value it yields is stored under some key |
| Cats.NewCatService | src/modules/cat/cat.service.ts:6 | the empty store satisfies the invariant and has size 0 |
| Cats.CreateCat | src/modules/cat/cat.service.ts:12-23 | any name, the empty one included, is accepted; the returned id is the decimal rendering of size + 1; the store maps that id to `{id, name}` and leaves every other key as it was |
| Cats.CreateCatPreservesValid | src/modules/cat/cat.service.ts:12-23 | under the invariant the new id is fresh, the invariant is kept, size grows by exactly one, earlier cats are unchanged and the new cat comes last in `values()` |
| Cats.GetCats | src/modules/cat/cat.service.ts:8-10 | `getCats` returns one cat per key, in insertion order, so its length is the store size |
| Cats.GetCat | src/modules/cat/cat.service.ts:25-33 | `getCat(id)` returns the stored cat exactly when id is a key, and otherwise fails with `Error("Can't find the cat")`; it returns no new store |
| Cats.GetCatSucceedsIff | src/modules/cat/cat.service.ts:25-33 | under the invariant a lookup succeeds exactly for the ids "1" .. "n", and the cat found carries the id it was looked up by |
| Cats.MissingCatMapsTo500 | src/modules/cat/cat.service.ts:28-30 | if the `Error` thrown for a missing cat were an Effect's failure value, the interceptor's table would answer it with 500 and "Can't find the cat", not with 404 |
| Cats.MissingCatPassesOnUnmapped | src/modules/cat/cat.service.ts:28-30 | as the code stands, the `Error("Can't find the cat")` thrown by `getCat` from a plain handler passes through the interceptor unmapped, and no Effect is run |
| Cats.CreateAllAppends | src/modules/cat/cat.service.ts:12-23 | a run of `createCat` calls keeps the invariant and appends the new cats to `values()` in call order, numbered on from the current size |
| Cats.FreshStoreListsCatsInOrder | src/modules/cat/cat.service.ts:8-23 | starting from an empty store, `getCats` lists the i-th created cat with id "i" and the i-th name, and the size is the number of cats created |
| Cats.ScenarioIds | test/app.e2e-spec.ts:29-51 | the first cat created gets id "1" and the second, with an empty name, gets "2" |
| Cats.ScenarioListing | test/app.e2e-spec.ts:54-70 | after creating "Fluffy", "", "Whiskers" and "Shadow", `getCats` is exactly the four cats with ids "1" to "4", in that order |
| Cats.ScenarioLookups | test/app.e2e-spec.ts:73-98 | in that store, id "1" finds Fluffy and ids "999" and "invalid" find nothing |

## Left out

- Interceptor.Intercept: an Effect's failure is assumed to reach `catchError` as the Effect's own failure value. The Effect library is not part of this model; if `Effect.runPromise` rejects with a wrapper around the failure (an `Error` of its own), only the generic Error rule, 500 with the wrapper's message, would apply in practice.
- Interceptor.Intercept: what happens to an error passed on unmapped (a handler that threw) is up to the framework's exception filters, which are not modelled.
- RxJS plumbing is not modelled: `switchMap`, `from`, `of`, `catchError` and the scheduling of `Effect.runPromise`. An Effect is its settled outcome. "Run once" is the `runs` count, not a real execution.
- Effect library internals are parameters: `Effect.isEffect` is the `Plain | Deferred` tag; `Schema.isSchema`, `Schema.decodeUnknownSync` and `TreeFormatter.formatErrorSync` are function-typed arguments. `ParseTree` is an abstract type.
- A schema `ParseError`'s own `name` and `message` are not modelled. The parse-error rule always fires before the generic Error rule reads them.
- Cats.GetCat: a 404 for a missing cat is not modelled. `getCat` (src/modules/cat/cat.service.ts:29) throws a plain `Error`, and `CatController.getCat` (src/modules/cat/cat.controller.ts:20-22) returns its result directly. The 404 `{message: "Resource not found"}` the end-to-end tests expect depends on a cat module that is not part of this model. Cats.ScenarioLookups therefore states only that those lookups fail.
- Cats.ScenarioIds: assumes the POST of `{invalidField: "test"}` (test/app.e2e-spec.ts:38-43) is rejected before `createCat` runs and creates no cat. `createCat` itself accepts any name, undefined included. Had that request reached it, it would take id "2" and the empty-name cat would get "3".
- Cats.ScenarioListing: rests on the same assumption. Had the `{invalidField: "test"}` POST reached `createCat`, the listing would hold five cats, not four.
- The 400 for `{invalidField: "test"}` in the end-to-end tests is not modelled. It depends on `src/modules/cat/cat.type.ts`, a `Schema.Struct` whose decoding lives in the schema library, and on route wiring.
- `src/modules/cat/cat.controller.ts` and `src/app.module.ts` are not modelled. They are delegation and dependency-injection wiring with no logic.
- Nest's JSON serialisation of exceptions is not modelled. For a string message Nest wraps it as `{statusCode, message, error}`, and an empty message becomes the default status text, so `StringError("")` reaches the client as "Internal Server Error". An object body, such as the interceptor's `{message, errors}`, is sent as given. The model keeps the status and the body passed to the constructor.
- Decimal.NatToString: JavaScript numbers lose integer precision above 2^53. Ids there are not modelled, and the model's integers are unbounded.
- OrderedMaps: `delete` and `clear` are not modelled because the service never calls them. The service's `db` field is public, so CreateCat requires only that the map be well formed. The promises that depend on the id invariant are stated under that invariant in Cats.CreateCatPreservesValid. `getCats` and `getCat` hand out the stored cat objects themselves, not copies, so a caller that assigns `cat.id` would break "every cat is stored under its own id". The model's `Cat` is an immutable record, and the invariant assumes no caller mutates a returned cat.
- Concurrency is not modelled. The store is mutated only from the single-threaded event loop.
