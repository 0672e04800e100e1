# Repository names

A model of `RepositoryName`, the validated, deduplicated name of an external
repository in the build system's label graph. It covers:

- the syntax validator and its four fixed rejection reasons;
- the name value: a name string plus an optional owner repository from which
  the name is not visible;
- the value operations: stripped name, `stripName`, default/main tests,
  canonical form, the non-visible tag and equality;
- the two derived paths (exec path under a layout prefix, runfiles path under
  `..`) and the decoder `fromPathFragment` that inverts the exec path;
- the validating factory `create`, the trusted factory
  `createFromValidStrippedName`, and the name cache that both go through.

Files:

- `wrappers.dfy`: `Option` (Java `null` is `None`) and `Result` (a thrown
  `LabelSyntaxException` is `Failure(message)`).
- `repository_name.dfy`, module `RepositoryNames`: the validator, the
  `RepositoryName` datatype, the value operations and path derivation as
  functions, and the specification functions `Load`, `Create` and
  `FromPathFragment`, with lemmas.
- `repository_name_cache.dfy`, module `RepositoryNameCache`: class
  `NameCache`, whose `entries` map is the cache. Its methods `Get` (lookup
  plus loader), `Create`, `CreateFromValidStrippedName` and `FromPathFragment`
  update the map. `Create` and `FromPathFragment` tie their results to the
  specification functions of the same name, `Get` ties its result to `Load`,
  and `CreateFromValidStrippedName` returns exactly `RepositoryName("@" + name, None)`.
  Each method states the new map. Each method also keeps the
  invariant `Valid()`: every entry is keyed by its own name, has no owner, and
  has a key the validator accepts.

The pattern `@[\w\-.]*` is matched with a left-to-right scan
(`RepoNameCharsFrom`). `\w` is ASCII `[A-Za-z0-9_]`. A lemma proves that the
scan agrees with a per-character statement.

`create(s)` returns the same result every time it is called with `s`. The
method's result always equals the function `RepositoryNames.Create(s, sanitize)`,
and that function depends only on `s` and the cache's `sanitize`. After the
first success for any `s` other than `""` and `"@"`, the entry is in the map,
keyed by `s`; `""` and `"@"` never enter the map through `Create`.

The path layout prefixes are not part of this model. They are the two
`LabelConstants` values. Here they are one-segment strings passed in as
`LayoutPrefixes`. Paths are sequences of segments.

The accessors `IsVisible`, `GetOwnerRepoIfNotVisible`, `IsDefault`, `IsMain`
and `GetName` are plain field reads. The lemmas below state their properties,
so they have no rows of their own.

The doc comment at line 89 calls the input of `createFromValidStrippedName`
"known-valid", but line 93 sends `"@" + name` through the same validating
loader as `create`. The model keeps that validation and turns "known-valid"
into `requires Validate("@" + name) == None`.

## Model

| member | source | states |
|---|---|---|
| RepositoryNames.RepoNameCharsFromIff | src/main/java/com/google/devtools/build/lib/cmdline/RepositoryName.java:49 | the scan for `[\w\-.]*` accepts exactly when every character from the start position on is a letter, digit, `_`, `-` or `.` |
| RepositoryNames.Validate | src/main/java/com/google/devtools/build/lib/cmdline/RepositoryName.java:147-150 | `""` and `"@"` are never rejected |
| RepositoryNames.ValidateAcceptsExactly | src/main/java/com/google/devtools/build/lib/cmdline/RepositoryName.java:147-168 | no error exactly for `""`, `"@"`, and `'@'` followed by one or more allowed characters other than `"@."` and `"@.."` |
| RepositoryNames.ValidateReasons | src/main/java/com/google/devtools/build/lib/cmdline/RepositoryName.java:153-165 | each reason, as an if-and-only-if: must-start-with-`@` for non-empty strings without a leading `@`; the `@.` and `@..` reasons for exactly those strings; the character-set reason for every other `@`-string with a disallowed character |
| RepositoryNames.ValidateExamples | src/main/java/com/google/devtools/build/lib/cmdline/RepositoryName.java:153-165 | `@...`, `@a.b`, `@a..` and `@foo-bar_1.2` are accepted; `@.`, `@..`, `foo` and `@foo/bar` get their specific reasons |
| RepositoryNames.ConstantsWellFormed | src/main/java/com/google/devtools/build/lib/cmdline/RepositoryName.java:35-47 | DEFAULT, MAIN, BAZEL_TOOLS and LOCAL_CONFIG_PLATFORM are valid, visible names; only DEFAULT is default and only MAIN is main |
| RepositoryNames.RepositoryName.StrippedName | src/main/java/com/google/devtools/build/lib/cmdline/RepositoryName.java:174-179 | `""` for the default repository; otherwise the name minus its first character |
| RepositoryNames.StripName | src/main/java/com/google/devtools/build/lib/cmdline/RepositoryName.java:204-206 | removes exactly one leading `@` if present (`"@" + r` is the input); otherwise the identity |
| RepositoryNames.StrippedNameRestoresName | src/main/java/com/google/devtools/build/lib/cmdline/RepositoryName.java:170-206 | for a valid name other than DEFAULT, `"@" + strippedName() == getName()`; `stripName(getName()) == strippedName()` |
| RepositoryNames.StrippedNameIsPlainSegment | src/main/java/com/google/devtools/build/lib/cmdline/RepositoryName.java:156-165 | the stripped name of a valid non-sentinel name is non-empty, not `.` or `..`, and has no `/`: it is one plain path segment |
| RepositoryNames.RepositoryName.ToNonVisible | src/main/java/com/google/devtools/build/lib/cmdline/RepositoryName.java:186-198 | the result keeps `getName()`, is not visible, and `getOwnerRepoIfNotVisible()` is the given owner |
| RepositoryNames.ToNonVisibleTagsOwner | src/main/java/com/google/devtools/build/lib/cmdline/RepositoryName.java:181-198 | tagging preserves validity, both paths and the canonical form; the result equals no visible name; re-tagging with the same owner changes nothing |
| RepositoryNames.RepositoryName.GetCanonicalForm | src/main/java/com/google/devtools/build/lib/cmdline/RepositoryName.java:230-236 | empty exactly for default and main; equal to `getName()` for every name except main |
| RepositoryNames.CanonicalFormConflatesOnlyMainAndDefault | src/main/java/com/google/devtools/build/lib/cmdline/RepositoryName.java:208-236 | MAIN and DEFAULT share the canonical form `""` while only MAIN is main; otherwise valid names have equal canonical forms exactly when their names are equal |
| RepositoryNames.RepositoryName.Equals | src/main/java/com/google/devtools/build/lib/cmdline/RepositoryName.java:273-284 | comparing name and owner is exactly value equality |
| RepositoryNames.RepositoryName.GetExecPath | src/main/java/com/google/devtools/build/lib/cmdline/RepositoryName.java:245-254 | empty for default and main; otherwise the layout's prefix followed by the segment that, with the name's first character put back, is the name |
| RepositoryNames.RepositoryName.GetRunfilesPath | src/main/java/com/google/devtools/build/lib/cmdline/RepositoryName.java:260-263 | empty for default and main; otherwise `..` followed by the segment that, with the name's first character put back, is the name |
| RepositoryNames.ExecPathDeterminesName | src/main/java/com/google/devtools/build/lib/cmdline/RepositoryName.java:245-254 | for valid non-sentinel names, equal exec paths (same layout) exactly when the names are equal |
| RepositoryNames.RunfilesPathDeterminesName | src/main/java/com/google/devtools/build/lib/cmdline/RepositoryName.java:256-263 | for valid non-sentinel names, equal runfiles paths exactly when the names are equal; `"@"` plus the second segment is the name |
| RepositoryNames.Load | src/main/java/com/google/devtools/build/lib/cmdline/RepositoryName.java:55-66 | the loader succeeds exactly when the key validates, with a visible name holding the key; otherwise the message is `invalid repository name '<sanitized>': <reason>` |
| RepositoryNames.Create | src/main/java/com/google/devtools/build/lib/cmdline/RepositoryName.java:73-86 | `""` gives DEFAULT and `"@"` gives MAIN; success exactly when the input validates, and then `getName()` is the input and the name is visible and valid; failure carries the loader's message |
| RepositoryNames.FromPathFragment | src/main/java/com/google/devtools/build/lib/cmdline/RepositoryName.java:104-125 | a result exactly when the path has two or more segments, starts with the layout's prefix and `"@" + p[1]` is valid; the result is the visible name `"@" + p[1]` and `p[2..]` |
| RepositoryNames.ExecPathRoundTrip | src/main/java/com/google/devtools/build/lib/cmdline/RepositoryName.java:96-125 | for a visible, valid, non-sentinel name, `fromPathFragment(getExecPath(n, L) ++ rest, L)` gives `(n, rest)` |
| RepositoryNameCache.NameCache.constructor | src/main/java/com/google/devtools/build/lib/cmdline/RepositoryName.java:51-54 | the cache starts empty and satisfies its invariant |
| RepositoryNameCache.NameCache.Get | src/main/java/com/google/devtools/build/lib/cmdline/RepositoryName.java:51-66 | the lookup returns what the loader specifies; it stores the entry on success and leaves the map unchanged on failure; it keeps the invariant |
| RepositoryNameCache.NameCache.Create | src/main/java/com/google/devtools/build/lib/cmdline/RepositoryName.java:73-86 | the result is the `Create` function's; the sentinels and failures leave the map unchanged, and a success stores the name under its string; it keeps the invariant |
| RepositoryNameCache.NameCache.CreateFromValidStrippedName | src/main/java/com/google/devtools/build/lib/cmdline/RepositoryName.java:88-94 | for a valid `"@" + name`, returns the visible name `"@" + name` whose stripped name is `name`, and caches it under `"@" + name` (also for `""`); it keeps the invariant |
| RepositoryNameCache.NameCache.FromPathFragment | src/main/java/com/google/devtools/build/lib/cmdline/RepositoryName.java:104-125 | the result is the `FromPathFragment` function's; the map grows only by the decoded non-main name; it keeps the invariant |

## Left out

- Weak-value retention, eviction, garbage collection and thread safety of the cache (lines 51-54) are not modelled: the cache is a map that only grows, and callers rely on value equality.
- String interning (line 65) and object identity (`this == object`, line 275) are not modelled: they affect memory sharing only.
- RepositoryNames.RepositoryName.Equals: uses plain string equality, not the platform path policy, which may compare case-insensitively on some systems; `hashCode` (lines 286-291) is not modelled.
- The control-character sanitizer is not part of this model; it is a `string -> string` parameter (`NameCache.sanitize`) used only in the error message.
- RepositoryNames.RepositoryName.GetExecPath: path normalisation inside `getRelative` is not modelled; the stripped name is appended as one segment, which StrippedNameIsPlainSegment shows is exact for every valid non-sentinel name.
- RepositoryNames.RepositoryName.GetRunfilesPath: same simplification as GetExecPath.
- Paths are taken as relative and already normalised: a `Path` cannot hold an absolute path, but it can hold segment lists no normalised path fragment has (an empty segment, one containing `/`, or `..` after a segment), and RepositoryNames.FromPathFragment and RepositoryNames.ExecPathRoundTrip do not fold such segments away as the path type would.
- The values of the two `LabelConstants` prefixes are not part of this model; they are given one-segment strings, and `startsWith` compares the first segment by plain string equality.
- RepositoryNames.RepositoryName.ToNonVisible: the owner parameter is a non-null string by type, so the `checkNotNull` failure for `null` is not modelled.
- RepositoryNameCache.NameCache.CreateFromValidStrippedName: invalid input is excluded by a precondition; the code would let the loader's exception escape unwrapped.
- Exception plumbing (`CompletionException` unwrapping, `propagateIfPossible`) is replaced by the `Result` datatype.
- Serialization constants and `toString` (which returns the name, like `getName`) are not modelled.
