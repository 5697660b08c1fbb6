# Pokedex: expiring response cache and location paging

A model in Dafny of the core of a command-line explorer for a creature-catalog
web API. The explorer is written in Go. The model covers two parts:

- **The expiring byte cache** (`internal/pokecache/cache.go`). It maps a request
  key (a URL) to an entry holding the raw response body and the time the entry
  was stored. Its operations are `NewCache`, `Add`, `Get` and a reaping pass
  (`reapLoop`), which deletes every entry older than the cache's interval. The
  cache is the class `PokeCache.Cache`. Its `entries` field is a `map` that
  `Add` and `Reap` reassign. The reaping pass is a loop over the keys, in any
  order. It is proved to leave exactly `Expire(old entries, now, interval)`.
- **The command-line glue of `main.go` that has logic in it.**
  - `cleanInput` trims a line, lower-cases it and splits it into words. It is
    modelled with pure functions in module `Input`.
  - The paging commands `map` (`CommandMap`) and `mapb` (`commandPrevious`)
    overwrite the `config` links and fill the cache. They are the methods
    `Pagination.CommandMap` and `Pagination.CommandPrevious` on a `Config`
    object and a `Cache`. Each is proved equal to a specification function
    (`MapStep`, `PreviousStep`). The properties of the commands are stated on
    those functions.

Time is an integer number of nanoseconds passed in as `now`. Two things are
abstract inputs:

- The HTTP request and the reading of its body (`fetch: string -> Response`).
- The JSON decoding of a body (`decode: Bytes -> Option<Page>`).

A Go `[]byte` is a `seq<bv8>`, and the nil slice is the empty sequence.

A reader might expect `NewCache` to reject a bad interval and to start a
reaper. The code does neither, and the model follows the code:

- `NewCache` does not reject a zero or negative interval.
- `NewCache` never starts `reapLoop`, and nothing else in the repository calls
  it. Entries are therefore never removed in the program as written. The model
  has an explicit `Reap(now)` that any caller may run.
- There is no timer and no `Stop` operation.

Since no reaper runs periodically, the model states the single-pass guarantee:
after a pass, every entry is at most `interval` old.

## Model

| member | source | states |
|---|---|---|
| PokeCache.Cache.constructor | internal/pokecache/cache.go:19-24 | a new cache has no entries and keeps the interval it was given, unchecked; `interval` is a `const` field, so nothing changes it afterwards |
| PokeCache.Cache.Add | internal/pokecache/cache.go:26-34 | the entry for the key becomes the value stamped with `now`, whether or not the key was present; the key set becomes the old keys plus the key; every other entry is unchanged |
| PokeCache.Cache.Get | internal/pokecache/cache.go:36-45 | `found` holds exactly when the key is present, whatever the entry's age; then the value is the stored one; on a miss the value is empty; the cache is not modified |
| PokeCache.Cache.Reap | internal/pokecache/cache.go:47-56 | after one pass over the keys in any order, the entries are exactly `Expire` of the old entries at `now` |
| PokeCache.IsStale | internal/pokecache/cache.go:52 | no contract of its own: an entry is stale when strictly more than `interval` has passed since it was stored; `Expire`, `ReapAtBoundaryKeeps` and `ReapPastBoundaryDeletes` state what follows from the strict test |
| PokeCache.Expire | internal/pokecache/cache.go:51-55 | a pass keeps a subset of the keys; each survivor keeps its value and timestamp and is not older than the interval; every entry not older than the interval survives (the test is a strict `>`) |
| PokeCache.ExpireIdempotent | internal/pokecache/cache.go:51-55 | a second pass at the same instant changes nothing |
| PokeCache.ExpireLater | internal/pokecache/cache.go:51-55 | a pass followed by a later pass leaves what the later pass alone leaves |
| CacheScenarios.NewCacheMisses | internal/pokecache/cache.go:19-24 | on a fresh cache, `Get` misses and returns the empty value |
| CacheScenarios.AddThenGet | internal/pokecache/cache.go:26-44 | after `Add(k, v)` at `t`, `Get(k)` returns `(v, true)` and the entry is stamped `t` |
| CacheScenarios.OverwriteThenGet | internal/pokecache/cache.go:30-33 | after `Add(k, v1)` at `t1` and `Add(k, v2)` at `t2`, `Get(k)` returns `(v2, true)` and the stamp is `t2` |
| CacheScenarios.AddOtherKey | internal/pokecache/cache.go:30 | adding under another key leaves the first key's value and stamp as they were |
| CacheScenarios.StaleEntryStillServed | internal/pokecache/cache.go:40-44 | an entry older than the interval is still returned while no pass has run |
| CacheScenarios.ReapAtBoundaryKeeps | internal/pokecache/cache.go:52 | an entry exactly `interval` old survives a pass |
| CacheScenarios.ReapPastBoundaryDeletes | internal/pokecache/cache.go:52-53 | an entry `interval + 1` old is deleted by a pass, and `Get` then misses |
| CacheScenarios.ReapKeepsFreshOnly | internal/pokecache/cache.go:51-55 | a pass deletes the stale entry and keeps the fresh one with its value; a second pass at the same instant changes nothing |
| Input.LowerChar | main.go:38 | an upper-case letter `A`–`Z` becomes the lower-case letter at the same place in the alphabet; a character that is not upper-case is kept; so the result is never upper-case, and white space stays white space while nothing else becomes white space |
| Input.Lower | main.go:38 | no contract of its own: `strings.ToLower` applies `LowerChar` to every character and keeps the length. Its meaning is carried by `LowerChar`'s contract (each `A`–`Z` to its own lower-case letter, all else kept), `LowerAppend` and `LowerKeepsLowerCase` |
| Input.LowerAppend | main.go:38 | lower-casing works character by character: the lower-cased concatenation is the concatenation of the lower-cased parts |
| Input.LowerKeepsLowerCase | main.go:38 | a text with no upper-case letter is unchanged by lower-casing |
| Input.TrimSpace | main.go:37 | the result is a slice of the text starting after the leading white space; only white space follows it; it neither starts nor ends with white space |
| Input.TrimSpaceSplit | main.go:37 | the line is its leading white space, then the trimmed text, then trailing white space: trimming only removes white space at both ends |
| Input.Fields | main.go:39 | every field is non-empty and contains no white space; a text with no upper-case letters gives fields with none |
| Input.CleanInput | main.go:36-40 | every word is non-empty and contains no white space and no upper-case letter |
| Input.FieldsLeadingSpace | main.go:39 | leading white space does not change the fields |
| Input.FieldsTrailingSpace | main.go:39 | trailing white space does not change the fields |
| Input.FieldsSplit | main.go:39 | any white-space character between two texts splits them: the fields of `a + [c] + b` are the fields of `a` followed by the fields of `b` |
| Input.FieldsEmpty | main.go:39 | a text has no fields exactly when it is all white space |
| Input.FieldsJoin | main.go:39 | words joined with single spaces split back into the same words |
| Input.FieldsConcat | main.go:39 | the fields, run together, are the non-space characters of the text in their original order |
| Input.CleanInputUntrimmed | main.go:36-40 | the trim step is redundant: the result is the fields of the lower-cased line |
| Input.WhitespaceOnly | main.go:37-39 | a line has no words exactly when it is all white space |
| Input.CleanInputSeparator | main.go:39 | a tab or a newline separates words just as a space does |
| Input.CleanInputOrder | main.go:38-39 | the words, run together, are the lower-cased line with its white space removed, so the words keep the order of the line |
| Input.CleanInputIdempotent | main.go:36-40 | cleaning the words joined by single spaces gives the same words |
| Input.CleanInputLeadingSpace | main.go:37-39 | white space before a line does not change its words |
| Input.CleanInputSeparatorRun | main.go:39 | a non-empty run of white space between two texts splits them: the words of `a + sep + b` are the words of `a` followed by those of `b` |
| Input.CleanInputTwoWords | main.go:39 | two words with white space between them clean to the two words, lower-cased |
| Input.CleanInputThreeWords | main.go:39 | three words separated by single white-space characters clean to the three words, lower-cased |
| Input.CaseSpaces | repl_test.go:10-13 | `"  hello  world  "` cleans to `["hello", "world"]` |
| Input.CaseUpper | repl_test.go:14-17 | `"Charmander Bulbasaur PIKACHU"` cleans to `["charmander", "bulbasaur", "pikachu"]` |
| Input.CaseBlank | repl_test.go:18-21 | `"   "` cleans to no words |
| Input.CaseTabNewline | repl_test.go:22-25 | `"Golang\tIs\nGreat"` cleans to `["golang", "is", "great"]` |
| Pagination.PageUrl | main.go:132-136 | the requested URL is `Next` when `Next` is not empty, and the first listing page `FirstPageUrl` when it is; so it is never empty |
| Pagination.ListedNames | main.go:178-195 | the printed names are the longest prefix of the results made of names; when shorter than the results, the next element is not a name |
| Pagination.ListedNamesUnique | main.go:183-195 | the contract of `ListedNames` admits exactly one sequence of names |
| Pagination.ShowPage | main.go:161-197 | the entries and the source are kept, and the result satisfies `ShowsPage`: a body that does not decode leaves the links as they were, prints nothing and reports `DecodeFailed`; a decoded page sets `Next` and `Previous` to its links or `""`; without a results array nothing is printed and the error is `ResultsNotArray`; otherwise the names up to the first non-name are printed, and there is no error exactly when every element is a name, `BadLocation` otherwise |
| Pagination.MapStep | main.go:129-198 | the body comes from the cache exactly when the URL is cached, and no request is made then. The error is one met before decoding exactly when no body was obtained (`BodyOf`) or it does not decode. A failed request reports `FetchFailed`, another status than 200 `BadStatus` with that status, an unread body `ReadFailed`; in each case nothing is printed. Once a body is obtained, the outcome is the one `ShowsPage` describes for it. The cache changes exactly on a miss whose request succeeded with status 200 and whose body was read; it then holds that body under the URL, stamped `now`. Before a page is decoded, an error leaves `Next` at the requested URL and `Previous` as it was. After decoding, `Next` and `Previous` are the page's links, or `""` where absent, and the page's body is in the cache. With no error, every result is a name and all are printed |
| Pagination.DecodedPageSetsLinks | main.go:161-181 | when the body obtained for the URL decodes to a page, `Next` and `Previous` become the page's links or `""`, and the only possible errors are `ResultsNotArray`, exactly when there is no results array, and `BadLocation` |
| Pagination.PreviousStep | main.go:200-211 | with `Previous` equal to `""` or `"nil"`, nothing changes and nothing is requested; otherwise it is a `map` command from `Next` = old `Previous`, `Previous` = `""`, served from the cache exactly when old `Previous` is cached |
| Pagination.HitIgnoresFetch | main.go:138-140 | on a cache hit the outcome is the same whatever the request would return: no request is made |
| Pagination.CachedBodyActsAsFetched | main.go:138-159 | a cached body is treated like a fresh one: when the cache holds the body the request would return, the links, printed names and error match those of an uncached run |
| Pagination.FailedBackClearsPrevious | main.go:200-209 | going back to an uncached page whose request fails leaves `Next` at the old `Previous` and `Previous` empty |
| Pagination.Config.constructor | main.go:81 | `config{}` starts with both links empty |
| Pagination.CommandMap | main.go:129-198 | the new `Next`, `Previous`, cache entries and report are those `MapStep` gives for the old state |
| Pagination.ShowBody | main.go:161-197 | once a body is at hand, the new `Next`, `Previous` and report are those `ShowPage` gives: a body that does not decode changes nothing; otherwise the links are the page's, and names are printed until the first element that is not one |
| Pagination.CommandPrevious | main.go:200-211 | the new `Next`, `Previous`, cache entries and report are those `PreviousStep` gives for the old state |

## Left out

- The mutex of `Cache`: each operation is one atomic step of a single-threaded model. Concurrent callers are not modelled.
- The wall clock: `time.Now` and `time.Since` become the integer parameter `now`. The saturation of `time.Duration` arithmetic on overflow is not modelled.
- `PokeCache.Cache.Reap` judges the whole pass at the one instant `now`. `time.Since` at `cache.go:52` reads the clock again for every entry, so an entry that becomes stale during the pass may be deleted in the program and kept in the model.
- A periodic reaper and a `Stop` operation: the code has neither.
- `Input.IsSpace`: it covers only ASCII white space (space, `\t`, `\n`, `\v`, `\f`, `\r`). `unicode.IsSpace` also accepts U+0085, U+00A0 and the other Unicode spaces, and those are not modelled.
- `Input.Lower`: it changes only `A`–`Z`. Full Unicode case mapping in `strings.ToLower` is not modelled. A Go string is a sequence of bytes and a Dafny `string` is a sequence of characters. So invalid UTF-8, which `strings.ToLower` rewrites to U+FFFD, cannot be given to the model.
- The REPL loop, prompt, stdin scanning, printing, command table and `commandExit` (`os.Exit`): these are I/O. One defect there is not modelled: `main.go:106` reads `words[1]` without checking the length. So `explore`, `catch` or `inspect` typed with no argument ends the program with an index-out-of-range panic.
- `commandHelp`: it only prints, in Go's unspecified map order.
- `exploreArea`, `catch` and `inspect`: they do not use the cache. `catch` depends on `rand.Float64` and a floating-point comparison, and `inspect` only formats and prints.
- The HTTP request, `io.ReadAll` and `json.Unmarshal` are foreign library calls. They are the abstract inputs `fetch` and `decode`. The text of error messages and of printed lines is not modelled. `MapReport` records which source message was printed, the location names printed and which error was returned. `BadLocation` stands for two different errors of the code: "location is not a map" (`main.go:184-187`) and "'name' key not found or not a string" (`main.go:189-192`). `decode` turns both into a `None` element of the results, and the model does not tell them apart.
