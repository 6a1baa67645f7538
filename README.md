# shurs short-ID core in Dafny

This project models the core of the `shurs` URL shortener. That core is the short-ID
pipeline. A base62 generator turns random bytes into ids of the configured length (8 by
default). An in-memory link
store maps ids to original URLs. A coordinator runs a bounded retry loop: it generates
candidates, checks each against the store, saves the first free one, and sorts the
errors into kinds. The repository keeps several revisions of this logic side by side.
Each revision is modelled as written:

- `Base62` (`internal/helper/base62.go`): the charset, `GenerateRandomBase62` (an array
  filled in a loop), `IsValidBase62String`, and the map-based `GenUnicID` loop.
- `IdGenerator` (`internal/service/idgenerator/base62.go`): `Base62Generator`, whose
  length is fixed when it is built.
- `MemoryRepository` (`internal/repository/memory/storage.go`) and `AppStorage`
  (`internal/app/storage_memory.go`): twin classes over a `map<string, string>` field.
  `Save` updates the map in place.
- `Links`: the contract both stores keep on their map. No link is ever lost or
  overwritten.
- `Coordinator`: the retry loop common to all three revisions, written as a
  specification. `Trace` is the record of the attempts, with one probe per `Generate`
  call. `Verdict` says how the run ended. `Outcome` is the `(id, error)` pair returned.
  Also here is the `NotFound` pass-through of `GetOriginalURL`.
- `Shortener` (`internal/usecase/shortener/usecase.go`) and `AppService`
  (`internal/app/service.go`): classes whose loops are proved against `Trace`. Each
  `CreateShortURL` is proved against a `CreateOutcome` function.
- `Errors`: Go errors as a datatype. `Wrapped` stands for `fmt.Errorf` with `%w`, and
  `Is` stands for `errors.Is`.

Inputs that stand for things outside the code:

- The random bytes are an input. `entropy` is what `crypto/rand` would deliver. A read
  of `length` bytes fails exactly when fewer bytes are supplied.
- The use case's generator is an interface. Its outcomes are an input: `gen(k)` is the
  result of the k-th `Generate` call.
- Existence checks can be made to fail with `existsFails(k)`. The store interface
  allows this error, although the in-memory stores never raise it.

Two facts about the code shape the model:

- Neither store locks around the check-then-insert in `Save`, so the model is
  sequential.
- The use case reports a save conflict with an error that does not wrap `ErrConflict`
  (internal/usecase/shortener/usecase.go:64). The service wraps every save error with
  `%w` (internal/app/service.go:46), so `errors.Is(err, ErrConflict)` still holds for
  its callers.

## Model

| member | source | states |
|---|---|---|
| `Base62.CharsetIsAlphanumeric` | internal/helper/base62.go:12 | the charset has 62 symbols, each in `[0-9a-zA-Z]` |
| `Base62.AlphanumericInCharset` | internal/helper/base62.go:12 | every character of `[0-9a-zA-Z]` is in the charset, so the charset is exactly that class |
| `Base62.SymbolOf` | internal/helper/base62.go:21-23 | the symbol of a random byte is always in `[0-9a-zA-Z]` (computed from `b % 62` by character ranges) |
| `Base62.SymbolIsCharsetLookup` | internal/helper/base62.go:12-23 | the symbol of every byte is exactly the source's lookup `base62Charset[b % 62]` |
| `Base62.Encode` | internal/helper/base62.go:20-24 | the id has one symbol per random byte, symbol `i` is `SymbolOf(bytes[i])`, that is `charset[bytes[i] % 62]`, and every symbol is alphanumeric |
| `Base62.RandomBase62` | internal/helper/base62.go:14-26 | generation fails exactly when the source cannot supply `length` bytes; otherwise the id has `length` alphanumeric characters |
| `Base62.GenerateRandomBase62` | internal/helper/base62.go:10-27 | on a failed read it returns an empty result and the error; otherwise it returns exactly `length` characters, character `i` being `SymbolOf(entropy[i])`, that is `charset[entropy[i] % 62]` |
| `Base62.TryGenerate` | internal/app/service.go:62-66 | one generation as the retry loops see it: no id when the randomness source fails, otherwise the id `GenerateRandomBase62` returns |
| `Base62.IsValidBase62String` | internal/helper/base62.go:29-39 | true if and only if the string has 8 characters and each is a symbol of the generator's charset, which is the class `[0-9a-zA-Z]` |
| `Base62.AlphanumericIsCharset` | internal/helper/base62.go:29-39 | a character matches `[0-9a-zA-Z]` if and only if it is in the charset |
| `Base62.PositionOf` | internal/helper/base62.go:12-23 | every alphanumeric character sits at a charset position below 62 |
| `Base62.ValidIdsAreGenerable` | internal/helper/base62.go:10-39 | every string that passes the format check is the output of `GenerateRandomBase62(8)` on some random bytes, so the check accepts exactly the generator's length-8 outputs (with `GeneratedIdsAreValid`) |
| `Base62.GeneratedIdsAreValid` | internal/helper/base62.go:10-39 | every successful `GenerateRandomBase62(8)` output passes `IsValidBase62String` |
| `Base62.FormatCheckExamples` | internal/app/handlers_test.go:178-191 | `IsValidBase62String` accepts and rejects the test table's cases: wrong length, a `!`, the empty string |
| `Base62.GenUnicID` | internal/helper/base62.go:41-58 | the run is exactly `Trace` over the map's keys with checks that never fail: at most `attempts` generations, a failed one uses up its attempt. A returned id is not a key of the map, which the method cannot modify. Otherwise the error is the exhaustion error |
| `IdGenerator.NewBase62Generator` | internal/service/idgenerator/base62.go:13-15 | the generator keeps the length it was built with (a datatype value, never changed) |
| `IdGenerator.Base62Generator.Generate` | internal/service/idgenerator/base62.go:18-24 | delegates to the helper with the stored length; on failure `""` and the randomness error; on success an id of the configured length, all base62 |
| `IdGenerator.Outcomes` | internal/service/idgenerator/base62.go:18-24 | the outcome of a `Generate` call fails exactly when its random bytes run short; every id produced has the generator's length and only base62 characters |
| `IdGenerator.GenerateNth` | internal/service/idgenerator/base62.go:18-24 | the k-th `Generate` call, reading the k-th batch of random bytes, returns the k-th entry of `Outcomes`, with an error standing for no id and `""` returned with it |
| `Links.Save` | internal/repository/memory/storage.go:19-25 | save fails with `Conflict` exactly when the id is present, and then the map is unchanged; the key set becomes old keys plus `id`; the id maps to its old URL if it had one, else to the new URL; no existing link changes |
| `Links.Lookup` | internal/repository/memory/storage.go:28-34 | lookup fails with `NotFound` exactly when the id is absent; otherwise it returns the stored URL |
| `Links.AccountsStep` | internal/repository/memory/storage.go:19-25 | a create that links a fresh id to its URL, or fails with `""` and changes nothing, keeps the account of a run: distinct ids, each linked to its own URL, earlier links kept, key set equal to the earlier keys plus the returned ids |
| `Links.ExtendsIsPreorder` | internal/repository/memory/storage.go:18-45 | "only grows" is reflexive and transitive, so any sequence of saves keeps every earlier link |
| `Links.SaveThenLookup` | internal/repository/memory/storage.go:19-34 | looking up a just-saved id yields its URL, the earlier one if the id was taken |
| `Links.ConflictLaw` | internal/repository/memory/storage.go:19-34 | `Save(id, u1)` then `Save(id, u2)`: the second conflicts, changes nothing, and the id still resolves to the first URL |
| `Links.SaveIsolated` | internal/repository/memory/storage.go:23 | saving one id does not change the lookup of any other id |
| `MemoryRepository.Storage.constructor` | internal/repository/memory/storage.go:14-16 | a new store is empty |
| `MemoryRepository.Storage.Save` | internal/repository/memory/storage.go:19-25 | a present id gets `ErrConflict` and the map is unchanged; a fresh id is added and nothing else changes |
| `MemoryRepository.Storage.GetByID` | internal/repository/memory/storage.go:28-34 | returns `ErrNotFound` exactly when the id is absent; otherwise returns the stored URL and a nil error |
| `MemoryRepository.Storage.Exists` | internal/repository/memory/storage.go:37-40 | answers map membership, always with a nil error |
| `MemoryRepository.Storage.Close` | internal/repository/memory/storage.go:43-45 | returns nil and changes nothing (no `modifies`) |
| `MemoryRepository.SaveTwice` | internal/repository/memory/storage.go:19-34 | conflict law on a live store: the second save conflicts and the id keeps its first URL; the key set only grows |
| `AppStorage.InMemoryStorage.constructor` | internal/app/storage_memory.go:11-15 | a new store is empty |
| `AppStorage.InMemoryStorage.Save` | internal/app/storage_memory.go:18-25 | a present id gets `ErrConflict` and the map is unchanged; a fresh id is added and nothing else changes |
| `AppStorage.InMemoryStorage.GetByID` | internal/app/storage_memory.go:28-35 | returns `ErrNotFound` exactly when the id is absent; otherwise returns the stored URL |
| `AppStorage.InMemoryStorage.Exists` | internal/app/storage_memory.go:38-43 | answers map membership with a nil error |
| `AppStorage.InMemoryStorage.Close` | internal/app/storage_memory.go:46-48 | returns nil and changes nothing |
| `AppStorage.SaveTwice` | internal/app/storage_memory.go:18-35 | saving the same id twice: the second save conflicts and the first URL is kept |
| `Coordinator.Trace` | internal/usecase/shortener/usecase.go:31-49 | the attempts come in order, one `Generate` call each, and there are never more than `attempts` of them. The loop continues only past a failed generation or a collision. It stops early only at a free id or a failed check, and makes no attempt when `attempts <= 0` |
| `Coordinator.TraceIsUnique` | internal/usecase/shortener/usecase.go:31-49 | any attempt record with the properties above is the trace, so those properties pin the loop's behaviour down |
| `Coordinator.Outcome` | internal/usecase/shortener/usecase.go:37-49 | the error is nil exactly when a free id was found, and then that id is returned; otherwise `""` comes back with either the wrapped existence-check error or the exhaustion error |
| `Coordinator.StopsAtFirstStop` | internal/usecase/shortener/usecase.go:31-49 | the first attempt that does not continue ends the run: exactly `j + 1` `Generate` calls |
| `Coordinator.FoundIsFirstFree` | internal/usecase/shortener/usecase.go:43-45 | the loop returns `id` if and only if `id` is the first generated candidate whose check said free, within budget, with every earlier attempt a generation failure or a collision |
| `Coordinator.AbortIsImmediate` | internal/usecase/shortener/usecase.go:37-41 | a failing existence check ends the run with that check: no later `Generate` call, and the run is aborted |
| `Coordinator.GaveUpIffAllContinue` | internal/usecase/shortener/usecase.go:31-49 | the loop gives up if and only if every attempt of the budget failed to generate or collided, and then exactly `max(attempts, 0)` `Generate` calls were made |
| `Coordinator.CollidingGeneratorExhausts` | internal/usecase/shortener/usecase.go:31-49 | a generator that only yields stored ids exhausts the budget after exactly `attempts` `Generate` calls and `attempts` existence checks |
| `Coordinator.FaultFreeNeverAborts` | internal/repository/memory/storage.go:37-40 | with checks that never fail, as with the in-memory stores, the loop never aborts, and a found id is not in the store |
| `Coordinator.FoundWasGeneratedAndFree` | internal/usecase/shortener/usecase.go:32-45 | a found id was produced by some `Generate` call within budget and is not a key of the store |
| `Coordinator.PassNotFound` | internal/usecase/shortener/usecase.go:73-79 | an error stays an error, and `errors.Is` still finds it in what is returned. `NotFound` passes through unchanged. Any other error is itself wrapped as a get error, with `""` as the URL. Without an error the URL passes through |
| `Shortener.SaveError` | internal/usecase/shortener/usecase.go:60-68 | a save conflict becomes exactly the "unexpected conflict" error for that id, which no longer reports `ErrConflict`; any other store error is itself wrapped as a save error and stays visible to `errors.Is` |
| `Shortener.CreateOutcome` | internal/usecase/shortener/usecase.go:53-70 | a create succeeds exactly when the search finds a free id. The fresh id is then linked to the URL and nothing else changes. On failure the store is unchanged, `""` is returned, and the error is the search's own error (`Outcome` of how the search ended) wrapped as "could not generate", so `errors.Is` finds it. The key set only grows |
| `Shortener.CreateThenLookup` | internal/usecase/shortener/usecase.go:53-79 | round trip: after a successful create, `GetOriginalURL` of the returned id gives the original URL |
| `Shortener.SuccessiveIdsDiffer` | internal/usecase/shortener/usecase.go:53-70 | two successful creates on the same store return different ids, and the first link survives |
| `Shortener.ServeLaws` | internal/usecase/shortener/usecase.go:53-70 | for any sequence of creates on one store: the successful ones return pairwise distinct ids that were new to the store, each linked to its own URL; failed ones return `""`; no earlier link changes; the final keys are the earlier keys plus the returned ids |
| `Shortener.ServeFromEmpty` | internal/usecase/shortener/usecase.go:53-80 | starting from an empty store, after any sequence of creates, each returned id resolves to its URL, and an id resolves at all if and only if some create returned it; any other id gets `NotFound` |
| `Shortener.CollisionsExhaust` | internal/usecase/shortener/usecase.go:31-58 | a generator that yields only stored ids makes the create fail with the wrapped exhaustion error after exactly `attempts` `Generate` calls, and the store is unchanged |
| `Shortener.CreatedIdsAreBase62` | internal/usecase/shortener/usecase.go:32-45 | with `Base62Generator`, a created id has the generator's length and only base62 characters; at length 8 it passes `IsValidBase62String` |
| `Shortener.CheckExists` | internal/usecase/shortener/usecase.go:37-41 | the existence check through the repository interface: membership and a nil error from the in-memory store, or a store fault |
| `Shortener.UseCase.constructor` | internal/usecase/shortener/usecase.go:21-27 | the use case keeps its repository and attempt budget |
| `Shortener.UseCase.GenUniqueID` | internal/usecase/shortener/usecase.go:30-50 | the calls made are exactly `Trace`, and the result is `Outcome` of how it ended. A returned id was generated within budget and is not in the store. Otherwise `""` comes back with the exhaustion error or the wrapped check error. The store is only read |
| `Shortener.UseCase.CreateShortURL` | internal/usecase/shortener/usecase.go:53-70 | the calls made are exactly `Trace`, and the new store, id and error are `CreateOutcome` of the old store. No `Save` happens when the search fails |
| `Shortener.UseCase.GetOriginalURL` | internal/usecase/shortener/usecase.go:73-80 | the stored URL with a nil error when the id is present, `""` with `NotFound` passed through when it is absent |
| `Shortener.UseCase.CreateThenGet` | internal/usecase/shortener/usecase.go:53-80 | on a live store, a successful create followed by a get returns the original URL for a fresh id; a failed create leaves the store unchanged |
| `AppService.WrapSaveError` | internal/app/service.go:41-46 | every save error, a conflict included, is wrapped as a storage error; `errors.Is` still finds the cause, conflicts included |
| `AppService.CreateOutcome` | internal/app/service.go:34-47 | a create succeeds exactly when the search finds a free id. That id has the configured length, is base62, and is linked to the URL with nothing else changed. On failure the error is exactly the search's own error (`Outcome` of how the search ended), returned unchanged, and the store is untouched |
| `AppService.GeneratedIdShape` | internal/app/service.go:62-68 | an id generated within budget has the configured length and only base62 characters |
| `AppService.CreateThenLookup` | internal/app/service.go:34-57 | round trip: after a successful create, `GetOriginalURL` of the returned id gives the original URL |
| `AppService.ServeLaws` | internal/app/service.go:34-47 | for any sequence of creates on one store: the successful ones return pairwise distinct ids that were new to the store, each linked to its own URL; failed ones return `""`; no earlier link changes; the final keys are the earlier keys plus the returned ids |
| `AppService.ServeFromEmpty` | internal/app/service.go:34-57 | starting from an empty store, after any sequence of creates, each returned id resolves to its URL, and an id resolves at all if and only if some create returned it; any other id gets `NotFound` |
| `AppService.DefaultLengthIdsAreValid` | internal/app/service.go:62-77 | with the default length 8, every created id passes `IsValidBase62String` |
| `AppService.CheckExists` | internal/app/service.go:69-74 | the existence check through the store interface: membership and a nil error, or a store fault |
| `AppService.ShortenerService.constructor` | internal/app/service.go:24-31 | the service keeps its store, id length and attempt budget |
| `AppService.ShortenerService.GenUnicID` | internal/app/service.go:59-81 | the calls made are exactly `Trace` over the helper's outputs for each attempt's random bytes, and the result is `Outcome` of how it ended. A returned id is not in the store and has `idLength` base62 characters. Otherwise `""` comes back with the exhaustion error or the wrapped check error |
| `AppService.ShortenerService.CreateShortURL` | internal/app/service.go:34-47 | the calls made are exactly `Trace`, and the new store, id and error are `CreateOutcome` of the old store. A failed search returns its error unchanged and saves nothing |
| `AppService.ShortenerService.GetOriginalURL` | internal/app/service.go:50-57 | the stored URL with a nil error when the id is present, `""` with `NotFound` passed through when it is absent |
| `AppService.ShortenerService.CreateThenGet` | internal/app/service.go:34-57 | on a live store, a successful create followed by a get returns the original URL for a fresh id; a failed create leaves the store unchanged |

## Left out

- HTTP handlers, routing, middleware, URL validation (`IsValidURL`), configuration
  loading, server start-up and logging. They are plumbing around the core, and URL
  parsing depends on `net/url`, which is not part of this model.
- Concurrency. Neither store holds a lock, so the model is sequential. As a result the
  use case's "unexpected conflict on save" branch cannot be reached with the in-memory
  store: a free id always saves. `Shortener.SaveError` still states how that branch
  classifies a conflict.
- Save and lookup failures of other backing stores. Only existence-check faults are
  injected. `SaveError`, `WrapSaveError` and `PassNotFound` state how the other errors
  would be classified. The in-memory stores never produce them.
- `context.Context` arguments and cancellation. Neither revision checks the context.
- Error message texts. Only the error kinds and which error wraps which are modelled.
- The distribution of ids. `crypto/rand` is replaced by input bytes. No statement is
  made about the bias of `% 62`.
- Negative id lengths. Go's `make` panics on them, so lengths are `nat`.
- Byte strings. `GenerateRandomBase62` returns a byte slice of ASCII codes and the
  callers convert it with `string(...)`. The model returns the characters directly.
  `IsValidBase62String` compares the byte length with 8, which equals the character
  count whenever every character is in `[0-9a-zA-Z]`.
- The two-argument `IsValidBase62String(s, length)` called from the middleware. That
  revision is not part of this model. The one-argument, length-8 version is modelled.
- `Shortener.UseCase.constructor`: the use case holds no generator field. The
  generator's outcomes are passed to each call instead. `IdGenerator.GenerateNth` shows
  that the k-th `Generate` call of a `Base62Generator` returns the k-th entry of
  `IdGenerator.Outcomes`, and `Shortener.CreatedIdsAreBase62` states what ids a use case
  over those outcomes creates.
- Error sentinels. `internal/domain/repository` is not part of this model. Its
  `ErrNotFound` and `ErrConflict` are distinct Go values from those of
  `internal/app/storage.go`. The model has one of each, because each revision uses
  only its own.
