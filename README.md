# cfig configuration registry in Dafny

This project models the core of `cfig`, a Python library that lets an
application declare configuration items. Each item has a key, a
documentation string and a resolver that turns a raw string into a typed
value. Values are looked up lazily from environment variables and from
files named by `*_FILE` variables.

The model has four modules:

- `Wrappers` (`wrappers.dfy`): `Option`, `Result` and `Outcome`. These
  stand in for Python's `None` and for a call that raises.
- `Sources` (`sources.dfy`): the environment source and the file source.
  `cfig/sources.py` and its split successors `cfig/sources/env.py` and
  `cfig/sources/envfile.py` are modelled once. They differ only in how
  the default environment is bound, and both bindings read the live
  process environment. The rows below cite `cfig/sources.py`. The same
  code sits at `cfig/sources/env.py:37-42` (`_process_key` and `get`),
  `cfig/sources/env.py:15` (defaults), `cfig/sources/envfile.py:16-17`
  (the `_FILE` suffix) and `cfig/sources/envfile.py:19-27` (file `get`).
- `Errors` (`errors.dfy`): the exception hierarchy as a datatype, with
  its method resolution order. It also holds the aggregate
  `BatchResolutionFailure`: its message, built line by line, and its
  `repr`.
- `Config` (`config.dfy`):
  - the raw-value lookup across ordered sources;
  - the lazy item, a class `Item` with a cell state
    `Unresolved | Resolved(v)` and a `Force` method;
  - the registry, a class `Configuration` with `items`, `docs` and their
    insertion order;
  - the batch passes: `fetch_all`, collect-all `resolve`,
    `resolve_failfast` and `unresolve`.

The process environment and the file system are one value of type
`World`. It is passed to every operation that reads them, so a test that
changes the environment between two passes is two different `World`s.
Resolvers are total Dafny functions `string -> Result<T, Error>`. An
exception a resolver raises is a `Failure`. The type parameter `T` of
`Item<T>` and `Configuration<T>` stands for any Python value a resolver
returns: one configuration's items may resolve to different Python types
(an `int` for one key, None or an `int` for another), and a single `T`
covers them all as a union of those values.

Each batch pass is specified twice:

- on pure views of the cells, by the functions `CollectAll` and
  `FailFast`;
- by the loop methods, whose postconditions tie the returned values and
  every item's new state to those functions.

The lemmas next to the functions state what the passes promise: which
values and errors they gather, how the two modes relate, and that cached
values replay until `unresolve`.

Details of the code that the model follows as written:

- A failed resolution is not cached. After a failing `Force` the item is
  still unresolved, so the next pass reads the world again
  (`cfig/tests/test_all.py:29-39`: `fetch_all` fails, a variable is set,
  and the second `fetch_all` succeeds). This holds for one item and for
  both batch passes.

- An optional item whose lookup finds nothing resolves to None, and its
  resolver is never called (`cfig/config.py:135-136`). The resolver does
  not receive the absence.
- An environment source returns an empty variable as `""`, not as
  absence (`cfig/sources.py:48`). Only the registry's lookup skips empty
  values (`cfig/config.py:172`).
- `cfig/config.py:76` and `cfig/config.py:195` raise
  `errors.UnknownKeyError` and `errors.DuplicateError`. Neither class is
  defined in `cfig/errors.py`. The model raises the error kinds
  `UnknownResolverName` and `DuplicateKey`, whose classes are
  `UnknownResolverNameError` and `DuplicateProxyNameError`.

## Model

| member | source | states |
|---|---|---|
| Sources.ProcessKey | cfig/sources.py:43-44 | the variable name is the prefix, then the key, then the suffix, each at its fixed position |
| Sources.Lookup | cfig/sources.py:46-48 | the answer exists exactly when the processed name `prefix + key + suffix` is a variable of the source's environment, and it is that variable's value; an empty value is an answer |
| Sources.Get | cfig/sources.py:59-67 | no variable, no value for either kind; the plain source answers with the variable; the file source answers only with the contents of the non-empty path the variable names |
| Sources.ProcessKeyInjective | cfig/sources.py:43-44 | `prefix + key + suffix` names a different variable for each key, since prefix and suffix are fixed per source |
| Sources.DefaultEnvironmentGet | cfig/sources.py:21 | default prefix and suffix are empty, so a default source looks the key up unchanged in the process environment |
| Sources.DefaultFileSourceVariable | cfig/sources.py:56-57 | the file source's default suffix is `_FILE`, so key K reads the variable `prefix + K + "_FILE"` |
| Sources.FileSourceGet | cfig/sources.py:59-67 | no path variable gives no value; an empty path or a path naming no file gives no value; otherwise the value is the file's whole contents |
| Sources.FileSourceIgnoresFilesWhenUnset | cfig/sources/envfile.py:20-22 | with the path variable unset, the answer is None for every file system |
| Sources.MissingFileIsAbsence | cfig/sources.py:63-67 | a path variable naming a missing file behaves exactly as if the variable were removed from the environment the source reads, the process environment or its own mapping |
| Sources.GetDependsOnlyOnItsVariable | cfig/sources.py:46-48 | `get` has no other input than its variable (and the file it names): two worlds that agree there give the same answer |
| Config.Truthy | cfig/config.py:172 | Python truthiness of an answer: present and not the empty string (no contract; used by the lookups below) |
| Config.RetrieveOptional | cfig/config.py:165-177 | the result is None if and only if no source gives a non-empty value; otherwise it is the value of the first source that does, and it is non-empty |
| Config.RetrieveStopsAtFirstValue | cfig/config.py:170-174 | once a source answers, later sources are never consulted: appending sources changes nothing; with no answer, the lookup is the lookup in the appended sources |
| Config.RetrieveRequired | cfig/config.py:179-187 | fails with `MissingValueError(key)` if and only if no source gives a non-empty value; otherwise returns the optional lookup's value |
| Config.Evaluate | cfig/config.py:129-161 | with no non-empty value, a required item fails with `MissingValue(key)` and an optional one is None, and the result does not depend on the resolver; otherwise both kinds give the resolver applied to the first non-empty value, errors included |
| Config.Item.constructor | cfig/config.py:129-144 | a new item is unresolved, and its factory has not run |
| Config.Item.IsResolved | cfig/tests/test_config.py:131-136 | `__resolved__`: the item holds a cached value (no contract; `Force` and `Unresolve` state how it changes) |
| Config.Item.Force | cfig/config.py:130-161 | a resolved item answers from its cache, changes nothing and runs nothing; an unresolved item runs its factory once, calls the resolver exactly when a value exists, and caches a successful result; afterwards the item is resolved exactly when the read succeeded, so a failure leaves it unresolved |
| Config.Item.Unresolve | cfig/tests/test_config.py:262-265 | the item drops its cached value, is no longer resolved, and nothing else changes |
| Config.Configuration.constructor | cfig/config.py:46-62 | sources default to `DEFAULT_SOURCES` when None or empty; `items` and `docs` start empty |
| Config.Configuration.RegisterItem | cfig/config.py:189-200 | a key already in `items` or `docs` fails with `DuplicateKey` and changes nothing; otherwise both maps gain the key, so they keep one key set |
| Config.Configuration.Required | cfig/config.py:78-99 | the `required()` decorator creates an unresolved item, registers it with its doc, and returns it; a duplicate key fails and changes nothing |
| Config.Configuration.Optional | cfig/config.py:101-122 | the same for `optional()` |
| Config.Configuration.SnapshotKeys | cfig/config.py:194-200 | registered items have distinct keys, listed in insertion order |
| Config.Configuration.FetchAll | cfig/config.py:202-205 | forces every item in insertion order and fails with the first error (as `FailFast` defines it); the tallies change as `FailFastCounted` says: items up to that error are forced, their factory run once if unresolved and their resolver once more if a value was found, and the items after it are untouched, no factory or resolver run |
| Config.Configuration.ResolveFailFast | cfig/tests/test_config.py:147-171 | returns the value map or the first error exactly as `FailFast` computes them on the items' views; the items' views and counters change as `FailFastCounted` says, so nothing after the first error is evaluated |
| Config.Configuration.ResolveAll | cfig/tests/test_config.py:121-145 | returns the values `CollectAll` gathers, or a new `BatchResolutionFailure` carrying exactly its error list and the message `MessageLines` of that list joined by newlines; every item is forced, and by `CollectAllCounted` the factory runs once for each item that was unresolved and the resolver once more for each that also found a value |
| Config.Configuration.Unresolve | cfig/tests/test_config.py:262-265 | every item becomes unresolved and is otherwise unchanged, counters included |
| Config.ForceAt | cfig/config.py:205 | forcing the item at one index returns `ForceResult` of its old view and changes its tally as `Counted` says, and no other item's |
| Config.ForceFailFast | cfig/config.py:204-205 | the forcing loop of `fetch_all`, stopping at the first error: the result is `FailFast` of the old views, and the tallies satisfy `FailFastCounted` |
| Config.ForceCollectAll | cfig/tests/test_config.py:79-88 | the forcing loop of the collect-all pass, which never stops at an error: the result is `CollectAll` of the old views, and every tally changes as `Counted` says |
| Config.FailFastCountedMeans | cfig/config.py:204-205 | after a fail-fast pass each view changes as `FailFastEffect` says, and each item's factory and resolver counters grow by one exactly when the pass reached it unresolved (the resolver: and it found a value) |
| Config.CollectAllCountedMeans | cfig/tests/test_config.py:121-145 | after a collect-all pass every view is forced, and each counter grows by one exactly for an item that was unresolved (the resolver: that also found a value) |
| Config.FailFastCountedOnFailure | cfig/config.py:204-205 | a loop stopped at the first failing item reports that item's error as `FailFast` does, with the counted fail-fast effect |
| Config.FailFastCountedOnSuccess | cfig/config.py:204-205 | a loop that went through every item without error had the counted fail-fast effect |
| Config.UnresolveEach | cfig/tests/test_config.py:262 | the loop that unresolves every item: every view becomes `Cleared` of its old view, and no counter changes |
| Config.CollectAll | cfig/tests/test_config.py:79-88 | collect-all on views: forces the cells in order, successes into the value map, failures appended to the error list, no stop (properties below) |
| Config.FailFast | cfig/tests/test_config.py:90-98 | fail-fast on views: forces the cells in order and stops at the first failure, raising it as it is (properties below) |
| Config.FailingIndices | cfig/tests/test_config.py:86-88 | the indices it lists are in range and each names a failing cell |
| Config.FailingIndicesExact | cfig/tests/test_config.py:86-88 | the listed indices strictly increase, and every failing cell is listed: each failing cell exactly once, in order |
| Config.Cleared | cfig/tests/test_config.py:264-265 | after `unresolve` every cell is unresolved and is otherwise the same |
| Config.CollectAllValues | cfig/tests/test_config.py:134-145 | with distinct keys, the value map holds exactly the keys that succeeded, each with its value |
| Config.CollectAllErrors | cfig/tests/test_config.py:86-88 | the error list has one entry per failing cell, in the cells' order: its k-th entry is the key and the error of the k-th failing cell |
| Config.CollectAllErrorKeysDistinct | cfig/errors.py:103-104 | with distinct item keys the error list holds each key once, as the `dict` it stands for, so its length is the count the message prints |
| Config.FailFastIsFirstError | cfig/tests/test_config.py:90-98 | fail-fast succeeds exactly when collect-all gathers no error, with the same values; otherwise it raises the first error collect-all gathers |
| Config.FailFastFailsIffSomeFailure | cfig/tests/test_all.py:28-36 | fail-fast succeeds if and only if every item succeeds |
| Config.CollectAllResolvesAll | cfig/tests/test_config.py:134-139 | after a collect-all pass without error, every item is resolved |
| Config.CachedBatchIgnoresWorld | cfig/tests/test_config.py:245-260 | over resolved cells a batch gathers no error and the same values in every world |
| Config.FailFastThenRetry | cfig/tests/test_all.py:29-39 | after a fail-fast pass, the next pass in any world answers from the cache for the items the first pass resolved, and reads the new world for the failing item and every item after it |
| Config.CollectAllThenRetry | cfig/tests/test_all.py:29-39 | after a collect-all pass, the next pass in any world answers from the cache for the items that succeeded, and reads the new world for the items that failed |
| Config.CacheReplaysBatch | cfig/tests/test_config.py:251-260 | after an error-free pass, the next pass in any changed world returns the same values |
| Config.UnresolveUndoesBatch | cfig/tests/test_config.py:262-265 | `unresolve` after any batch pass gives back the cells as they were before it, unresolved |
| Config.ResolveUnresolveCycle | cfig/tests/test_config.py:221-276 | resolve, change the environment, resolve again (cached values), unresolve, resolve (the new environment's values) |
| Errors.Mro | cfig/errors.py:6-79 | the resolution order starts at the class, ends at `BaseException`, and has one entry per level of depth |
| Errors.IsSubclass | cfig/errors.py:6-79 | `issubclass`: the second class is in the first's resolution order (no contract; the lemmas below state it) |
| Errors.Parent | cfig/errors.py:6-79 | every class but `BaseException` has one declared base class, one level nearer the root |
| Errors.MroRoots | cfig/errors.py:6-79 | the ancestry of `Exception`, of `CfigError`, of the aggregate failure and of foreign classes, written out |
| Errors.MroTable | cfig/errors.py:12-51 | the ancestry of `DeveloperError`, `UserError`, `DefinitionError`, `ConfigurationError` and `ProxyRegistrationError`, written out |
| Errors.MroLeaves | cfig/errors.py:18-68 | the ancestry of the four classes the library raises, written out |
| Errors.ResolutionErrorsAreUserErrors | cfig/errors.py:44-62 | `MissingValueError` and `InvalidValueError` are `ConfigurationError`, `UserError`, `CfigError`, and not developer errors |
| Errors.DefinitionErrorsAreDeveloperErrors | cfig/errors.py:12-41 | `UnknownResolverNameError` and `DuplicateProxyNameError` are `DefinitionError`, `DeveloperError`, `CfigError`, and not user errors |
| Errors.HierarchySplit | cfig/errors.py:79-83 | a class derives from `BatchResolutionFailure` if and only if it is that class; every other class except the root derives from `Exception` |
| Errors.ResolutionErrorsAreExceptions | cfig/errors.py:79-83 | every error the model's `Error` type can hold (cfig's own errors and the resolver errors it models) is an `Exception` and never the aggregate failure |
| Errors.BatchFailureIsNotAnException | cfig/errors.py:79-83 | the aggregate failure is neither an `Exception` nor a `CfigError` |
| Errors.NatToString | cfig/errors.py:104 | `str(n)` is a non-empty string of digits without a leading zero |
| Errors.DecimalRoundTrip | cfig/errors.py:104 | the digits printed for n read back as n |
| Errors.PadRight | cfig/errors.py:111 | the key, left-aligned, space-padded to the width, never cut |
| Errors.MaxKeyLength | cfig/errors.py:106 | the padding is at least every key's length and equals some key's length |
| Errors.Header | cfig/errors.py:104 | the first line is the count, whose digits read back as the number of entries, then the fixed text |
| Errors.EntryLine | cfig/errors.py:111-113 | an entry line starts with `"* "` and is as long as the marker, the padded key, the arrow, the class name, `": "` and the text together |
| Errors.MessageLines | cfig/errors.py:104-113 | the message has the header line counting the entries, then exactly one line per entry in order, every key padded to the length of the longest key |
| Errors.Join | cfig/errors.py:115 | `"\n".join(lines)` (no contract; `SplitJoin` is its inverse) |
| Errors.EntryLines | cfig/errors.py:108-113 | one line per entry, in order, each `"* " + padded key + " → " + class name + ": " + text` |
| Errors.EntryLineLayout | cfig/errors.py:111-113 | in each entry line the key starts at column 2, spaces follow it up to the width, and the arrow stands right after the width |
| Errors.FormatMessage | cfig/errors.py:103-115 | the loop that appends the lines builds the message of `MessageLines` joined by newlines |
| Errors.SplitJoin | cfig/errors.py:115 | joining lines that hold no newline and splitting again gives the lines back |
| Errors.MessageSplitsIntoLines | cfig/errors.py:115 | when no key, class name or error text holds a newline, the message splits back into exactly its lines |
| Errors.BatchResolutionFailure.constructor | cfig/errors.py:103-117 | a non-empty error list with distinct keys gives the formatted message, and `errors` is exactly the list passed in |
| Errors.BatchResolutionFailure.ReprText | cfig/errors.py:119-120 | `repr(self)` (its layout is stated by `ReprCountsErrors`) |
| Errors.BatchResolutionFailure.ReprCountsErrors | cfig/errors.py:119-120 | `repr` is `<BatchResolutionFailure: n errors>` where n reads back as the number of entries |

## Left out

- Transparent proxying is left out. Python operators on a
  `lazy_object_proxy.Proxy` delegate to its value, and a proxy of None is
  not None. Items here are read only through `Force`.
- `lazy_object_proxy` is not part of this model. Its caching is modelled
  by the cell state of `Item`, with a failure left uncached as above.
- Key derivation from the resolver's `__name__` is left out
  (`cfig/config.py:67-76`). Keys are explicit parameters, and
  `UnknownResolverName` is only an error value.
- `required(key=..., doc=...)`, the command-line interface and
  `MissingDependencyError` are left out. None of them appears in the
  modelled `cfig/config.py`.
- Logging calls are left out. They have no effect on results.
- Real I/O is left out. The environment and the files are the maps of
  `World`. I/O errors other than a missing file are not modelled.
- Aliasing of an explicit environment dictionary is left out. A source
  built with an explicit mapping keeps the mapping's contents at
  construction; later mutation of a shared dict is not modelled.
- `cfig/sources/base.py`, `cfig/customtyping.py` and
  `cfig/__init__.py` are left out. They hold an abstract signature, type
  aliases and re-exports. As a consequence `Source` is a closed datatype
  with only the two built-in kinds, so a user-defined subclass of the
  abstract `Source` cannot be given to a `Configuration` in the model.
- Resolver errors: a resolver is modelled as raising only `Exception`
  subclasses outside cfig's hierarchy (`Unexpected`, of class
  `Foreign`). A resolver that raises a `BaseException` that is not an
  `Exception` (`SystemExit`, `KeyboardInterrupt`, a nested
  `BatchResolutionFailure`) or a subclass of a cfig class is not
  modelled, so `ResolutionErrorsAreExceptions` and the `IsSubclass`
  facts do not cover such errors.
- Threads are left out. Nothing in the library is concurrent.
- Resolver results: a resolver that returns Python's None is modelled as
  returning a value. `Resolved(None)` is kept for the optional item whose
  lookup finds nothing.
- Errors.BatchResolutionFailure.constructor: requires a non-empty error
  list. With none, Python's `max` raises `ValueError`, and that path is
  not modelled. It also requires distinct keys, which a `dict` always
  has. The only caller, `ResolveAll`, constructs it only after an error,
  from the collect-all error list, whose keys are distinct.
- Config.Configuration.RegisterItem: requires an item that this
  configuration created, under the same key and sources, that is not
  registered yet. Its only callers, `Required` and `Optional`, guarantee
  this.
