# Package-repository syncing and search-type selection, modelled in Dafny

This project models four pieces of a code-search server.

- **Go-modules syncer** (`vcs_syncer_go_modules.dfy`, module `GoModules`): keeps one bare git repository per Go module in step with that module's versions.
  - It gathers candidate versions from the static configuration and from the dependencies store.
  - It keeps the candidates that the module proxy knows.
  - It creates a tag for each kept version that has none; the newest version also moves the `latest` branch.
  - It deletes the tags of versions that are no longer wanted.
  - The bare repository is a class with a tag set and a `latest` pointer. `git`, the proxy's HTTP answers and the store are parameters.
  - The push steps see the proxy's `.zip` answers as a function `zips` from a dependency to that answer. `Fetch` passes `ProxyZips`, which is `GetZip` of the configured client.
  - `Fetch` is proved equal to a function of its inputs, `FetchSpec`. Lemmas prove the filter, push, deletion, convergence and idempotence properties about that function.
- **npm coordinate model** (`npm_packages.dfy`, module `NpmPackages`): packages `(@scope/)?name` and dependencies `name@version`.
  - It covers the validating constructor, the printers, the parsers with their round trips, `Equal`, JSON validation and the in-place dependency sort.
  - The sort is proved sorted and a permutation.
- **Go module proxy client** (`gomodproxy.dfy`, module `GoModProxy`): the GOPROXY protocol client.
  - It builds request paths for `.info`, `list` and `.zip`.
  - It fails over across several proxies in order, stopping at the first success or the first error other than NotFound.
  - It classifies HTTP statuses, and only 404 and 410 mean "not found".
- **Search type and limit selection** (`search.dfy`, module `Search`).
  - `version` or `patternType` give a first search type, and a `patterntype:` field in the query overrides it.
  - Structural search can be switched off.
  - The default result limit is 30, or 500 for streaming search that is not structural.

Two small helper modules support the rest:
- `Results` holds `Option` and `Result`.
- `Text` models `strings.Split` as `Split`, its inverse `Join`, and Go's lexicographic string order as `StringLess`.

Collaborators that the code calls but does not define are fields of datatypes, and the lemmas hold for every such function. These are: URL parsing, module path and version escaping, the HTTP round trip, JSON decoding, the Go dependency parser and tag function, the store, the query parser, and the outcome of each `git` command.

Where the prose description of the system and the code differ, the model follows the code:
- `RepoName` of a scoped npm package is `npm/<scope>/<name>`, with no `@`.
- An npm scope may contain `.`, as the scope pattern `[\w\-\.]+` allows.

There is one exception, listed under "## Findings". The proxy client's `get` loses every request error to a shadowed variable (`internal/extsvc/gomodproxy/client.go:111` and `:128`).
- The model states the evidently intended `get` (`GetFrom`, `GetSpec`, `Get`) and uses it everywhere, in particular in the syncer.
- The `get` as written is modelled beside it (`GetFromAsWritten`, `GetAsWritten`, `GetVersionAsWritten`), with lemmas that relate the two.

## Model

| member | source | states |
|---|---|---|
| GoModules.StoreVersions | cmd/gitserver/server/vcs_syncer_go_modules.go:179-185 | one dependency per store row, in store order, with the row's name and version |
| GoModules.ConfigVersionsMembers | cmd/gitserver/server/vcs_syncer_go_modules.go:158-168 | a dependency is a configured candidate iff some configured entry parses to it and its path is the module asked for; malformed entries are skipped |
| GoModules.ConfigVersionsAppend | cmd/gitserver/server/vcs_syncer_go_modules.go:158-168 | configuration order is kept: the candidates of a concatenation are the concatenated candidates |
| GoModules.ModuleVersions | cmd/gitserver/server/vcs_syncer_go_modules.go:157-188 | the loops return the configured candidates followed by all store rows, or the store's error |
| GoModules.CloneableOkIff | cmd/gitserver/server/vcs_syncer_go_modules.go:94-107 | the filter succeeds iff every `GetVersion` answer is a success or NotFound |
| GoModules.CloneableMembers | cmd/gitserver/server/vcs_syncer_go_modules.go:94-107 | the filter keeps exactly the candidates whose `GetVersion` succeeded |
| GoModules.CloneableAppend | cmd/gitserver/server/vcs_syncer_go_modules.go:94-107 | filtering distributes over concatenation, so relative order is kept and the first error wins |
| GoModules.CloneableErrIsFirstFatal | cmd/gitserver/server/vcs_syncer_go_modules.go:96-103 | a filter error is the answer for some candidate, is not NotFound, and every earlier candidate passed |
| GoModules.CloneableErrorSticks | cmd/gitserver/server/vcs_syncer_go_modules.go:96-103 | once a prefix fails, the whole filter fails with that error |
| GoModules.CloneableStep | cmd/gitserver/server/vcs_syncer_go_modules.go:96-104 | one more candidate is kept on a successful `GetVersion`, skipped on NotFound, and ends the filter with any other error |
| GoModules.FilterCloneable | cmd/gitserver/server/vcs_syncer_go_modules.go:94-107 | the in-place filter leaves exactly the kept candidates at the front of the array, or returns the first fatal error |
| GoModules.HaveOfListing | cmd/gitserver/server/vcs_syncer_go_modules.go:109-120 | reading back a `git tag` listing of non-empty, newline-free names gives exactly those names |
| GoModules.ReadTags | cmd/gitserver/server/vcs_syncer_go_modules.go:114-120 | the loop collects exactly the non-empty lines of the output |
| GoModules.DependencyTags | cmd/gitserver/server/vcs_syncer_go_modules.go:132-135 | the loop collects the tag of every kept candidate |
| GoModules.BareRepository.constructor | cmd/gitserver/server/vcs_syncer_go_modules.go:67-70 | a freshly initialised bare repository has no tags, no `latest` and no pushes |
| GoModules.PushDependencyTagEffect | cmd/gitserver/server/vcs_syncer_go_modules.go:201-242 | a materialisation succeeds iff its zip is fetched and its steps succeed (a non-latest version skips the last two); success adds the tag, and moves `latest` to it only for the latest version; no tag is ever removed |
| GoModules.GitPushDependencyTag | cmd/gitserver/server/vcs_syncer_go_modules.go:201-291 | the repository changes as `PushDependencyTag` says; the attempt is logged |
| GoModules.PushPlanOnlyMissing | cmd/gitserver/server/vcs_syncer_go_modules.go:122-130 | every attempted push is for a kept candidate whose tag was not in the initially read set |
| GoModules.PushPlanCoversMissing | cmd/gitserver/server/vcs_syncer_go_modules.go:122-130 | every kept candidate whose tag was missing is attempted, flagged latest exactly at index 0 |
| GoModules.PushPlanLatestOnlyFirst | cmd/gitserver/server/vcs_syncer_go_modules.go:122-130 | only the first attempt can be flagged latest, and then it is for index 0 |
| GoModules.PushPlanAllMissing | cmd/gitserver/server/vcs_syncer_go_modules.go:122-130 | when no tag is present, each entry is attempted in order, so a duplicate entry is pushed again |
| GoModules.PushPlanNothingMissing | cmd/gitserver/server/vcs_syncer_go_modules.go:122-125 | when every tag is present, nothing is attempted |
| GoModules.PushPlanSucceeds | cmd/gitserver/server/vcs_syncer_go_modules.go:122-130 | if every candidate's materialisation goes through, every planned attempt does |
| GoModules.PushPlanTags | cmd/gitserver/server/vcs_syncer_go_modules.go:122-134 | the planned attempts create exactly the wanted tags that were missing |
| GoModules.PushOneStep | cmd/gitserver/server/vcs_syncer_go_modules.go:126-129 | a successful materialisation advances the loop by one candidate; a failed one is where the whole loop stops, with that failure |
| GoModules.PushOne | cmd/gitserver/server/vcs_syncer_go_modules.go:126-129 | the loop body for a missing tag keeps the repository in step with `RunPushes` of the plan so far, or ends it with the plan's failure |
| GoModules.RunPushesErrorSticks | cmd/gitserver/server/vcs_syncer_go_modules.go:127-129 | the first push failure ends the loop: nothing after it runs |
| GoModules.RunPushesKeepsTags | cmd/gitserver/server/vcs_syncer_go_modules.go:122-130 | pushes never remove a tag, and their only error is a push failure |
| GoModules.RunPushesSuccess | cmd/gitserver/server/vcs_syncer_go_modules.go:122-130 | without a failure, the pushes add exactly the planned tags and attempt the whole plan |
| GoModules.RunPushesOkIff | cmd/gitserver/server/vcs_syncer_go_modules.go:122-130 | the push loop succeeds iff every planned materialisation does |
| GoModules.RunPushesLatest | cmd/gitserver/server/vcs_syncer_go_modules.go:122-130 | `latest` moves only for an attempt flagged latest |
| GoModules.PushMissing | cmd/gitserver/server/vcs_syncer_go_modules.go:122-130 | the push loop leaves the state, error and attempts that `RunPushes` of the plan gives |
| GoModules.DeleteUnwanted | cmd/gitserver/server/vcs_syncer_go_modules.go:137-145 | exactly the read tags that are not dependency tags and whose deletion succeeds are removed; `latest` is untouched |
| GoModules.Fetch | cmd/gitserver/server/vcs_syncer_go_modules.go:83-148 | the new repository state, the error and the attempted pushes are those of `FetchSpec` |
| GoModules.FetchEarlyErrorsChangeNothing | cmd/gitserver/server/vcs_syncer_go_modules.go:84-112 | an error before the pushes (bad repository name, store, proxy or `git tag` failure) leaves the repository unchanged and attempts no push |
| GoModules.FetchPushFailureDeletesNothing | cmd/gitserver/server/vcs_syncer_go_modules.go:127-129 | whenever `Fetch` fails, no tag has been deleted |
| GoModules.FetchSuccessTags | cmd/gitserver/server/vcs_syncer_go_modules.go:122-147 | on success the final tags are the old ones plus the pushed ones, minus exactly the unwanted read tags whose deletion succeeded; a wanted tag is never deleted |
| GoModules.RunPushesIgnoresDeletions | cmd/gitserver/server/vcs_syncer_go_modules.go:122-130 | the pushes have the same outcome whichever `git tag -d` calls would fail |
| GoModules.FetchErrorIgnoresDeletions | cmd/gitserver/server/vcs_syncer_go_modules.go:136-147 | a failed deletion does not abort `Fetch`: its error, its attempts and `latest` are the same whichever deletions fail, so a run that reaches the deletion loop returns no error |
| GoModules.FetchSuccessLatest | cmd/gitserver/server/vcs_syncer_go_modules.go:122-130 | on success `latest` points at the newest kept candidate's tag iff that tag was missing; otherwise it is unchanged |
| GoModules.FetchConverges | cmd/gitserver/server/vcs_syncer_go_modules.go:122-145 | with a faithful `git tag` listing and no failing push or deletion, `Fetch` succeeds and the tag set becomes exactly the wanted set |
| GoModules.FetchIdempotent | cmd/gitserver/server/vcs_syncer_go_modules.go:109-145 | a second such `Fetch` with identical inputs attempts no push, deletes nothing and leaves the repository as it was |
| GoModules.CloneCommand | cmd/gitserver/server/vcs_syncer_go_modules.go:61-79 | a directory or init failure yields no repository; otherwise a fresh repository holding what `Fetch` from empty produces, with the fetch error wrapped |
| NpmPackages.NewNpmPackage | internal/conf/reposource/npm_packages.go:46-54 | succeeds iff the scope is empty or matches the scope pattern and the name matches the name pattern; errors report the scope first |
| NpmPackages.ScopeExcludes | internal/conf/reposource/npm_packages.go:14-20 | a scope never contains `/` or `@` |
| NpmPackages.DottedNameExcludes | internal/conf/reposource/npm_packages.go:14-20 | a name or version never contains `/` or `@` |
| NpmPackages.DottedNameBySegments | internal/conf/reposource/npm_packages.go:19 | the name pattern `[\w\-]+(\.[\w\-]+)*` holds iff every dot-separated piece is a non-empty run of `[\w\-]` |
| NpmPackages.ParseNameAtVersion | internal/conf/reposource/npm_packages.go:25-28 | a parsed `name@version` tail has a valid name and version, keeps the given scope, and is the name, `@` and the version |
| NpmPackages.EqualPackage | internal/conf/reposource/npm_packages.go:56-58 | `Equal` holds iff both are nil or both point to equal packages |
| NpmPackages.EqualDependency | internal/conf/reposource/npm_packages.go:211-215 | dependency `Equal` holds iff both are nil or both are equal |
| NpmPackages.ParseNpmDependency | internal/conf/reposource/npm_packages.go:166-191 | every accepted string is the `PackageManagerSyntax` of the valid dependency parsed from it |
| NpmPackages.ParseDependencyComplete | internal/conf/reposource/npm_packages.go:166-197 | every valid dependency is parsed back from its `PackageManagerSyntax` |
| NpmPackages.PackageManagerSyntax | internal/conf/reposource/npm_packages.go:195-197 | the printed dependency starts with the package syntax and `@`, and the rest is the version |
| NpmPackages.ParsePrintedDependencyIsEqual | internal/conf/reposource/npm_packages.go:166-215 | parsing the printed form of a valid dependency gives an `Equal` dependency |
| NpmPackages.RepoName | internal/conf/reposource/npm_packages.go:116-121 | the name starts with `npm/`; for a valid package it holds no `@`, and its part after `npm/` parses back to the package |
| NpmPackages.RepoNameRoundTrip | internal/conf/reposource/npm_packages.go:116-121 | `ParseNpmPackageFromRepoURL(RepoName(p)) = p` for every valid package |
| NpmPackages.ParseNpmPackageFromRepoURL | internal/conf/reposource/npm_packages.go:62-75 | every accepted repository path is the `RepoName` of the valid package parsed from it |
| NpmPackages.ParseRepoPath | internal/conf/reposource/npm_packages.go:62-75 | every accepted `(scope/)?name` is the repository path of the valid package parsed from it |
| NpmPackages.CloneURL | internal/conf/reposource/npm_packages.go:123-126 | the clone URL of a valid package parses back to it |
| NpmPackages.PackageSyntaxRoundTrip | internal/conf/reposource/npm_packages.go:79-85 | `ParseNpmPackageFromPackageSyntax(PackageSyntax(p)) = p` for every valid package |
| NpmPackages.ParseNpmPackageFromPackageSyntax | internal/conf/reposource/npm_packages.go:79-85 | every accepted package string is the `PackageSyntax` of the valid package parsed from it |
| NpmPackages.PackageSyntaxInjective | internal/conf/reposource/npm_packages.go:139-144 | distinct valid packages have distinct package syntax |
| NpmPackages.PackageSyntax | internal/conf/reposource/npm_packages.go:139-144 | for a valid package the syntax is non-empty, starts with `@` iff the package is scoped, and has no other `@` |
| NpmPackages.MatchesDependencyString | internal/conf/reposource/npm_packages.go:130-132 | for a valid package and a string that parses as a dependency, the string matches iff the parsed dependency is on that package |
| NpmPackages.MatchesDependencyStringIff | internal/conf/reposource/npm_packages.go:130-132 | a valid package matches a valid dependency's printed form iff the dependency is on that package |
| NpmPackages.Scheme | internal/conf/reposource/npm_packages.go:199-201 | the scheme is `npm`, and every repository name starts with the scheme and `/` |
| NpmPackages.PackageVersion | internal/conf/reposource/npm_packages.go:203-205 | the version is what the package-manager syntax carries after the package and `@`, and what the git tag carries after `v` |
| NpmPackages.GitTagFromVersion | internal/conf/reposource/npm_packages.go:207-209 | the tag is `v` followed by the version |
| NpmPackages.GitTagInjective | internal/conf/reposource/npm_packages.go:207-209 | two dependencies share a tag iff their versions are equal |
| NpmPackages.MarshalJSON | internal/conf/reposource/npm_packages.go:95-97 | the helper of a valid package rebuilds it through `NewNpmPackage`; an invalid one is rejected |
| NpmPackages.NpmPackageCell.UnmarshalJSON | internal/conf/reposource/npm_packages.go:99-111 | decode errors and pairs that `NewNpmPackage` rejects leave the receiver unchanged; success overwrites it; no error iff decoding worked and the pair is valid |
| NpmPackages.PackageBeforeTotalOrder | internal/conf/reposource/npm_packages.go:226-229 | scope-descending, then name-descending is a strict total order on packages |
| NpmPackages.SortLessIsStrictWeakOrder | internal/conf/reposource/npm_packages.go:221-230 | the comparator is a strict weak order whenever `versionGreaterThan` is one |
| NpmPackages.SortNpmDependencies | internal/conf/reposource/npm_packages.go:220-231 | the array ends up sorted by the comparator and is a permutation of the input |
| NpmPackages.InsertAt | internal/conf/reposource/npm_packages.go:220-231 | one insertion pass extends the sorted prefix by one element and permutes the array |
| NpmPackages.SortedGroupsByPackage | internal/conf/reposource/npm_packages.go:217-231 | after sorting, a package's dependencies are contiguous and newer versions come first |
| Text.SplitCount | cmd/gitserver/server/vcs_syncer_go_modules.go:115 | `strings.Split` gives one piece more than there are separators |
| Text.SplitPiecesHaveNoSeparator | cmd/gitserver/server/vcs_syncer_go_modules.go:115 | no piece contains the separator |
| Text.JoinSplit | cmd/gitserver/server/vcs_syncer_go_modules.go:115 | joining the pieces with the separator gives back the string |
| Text.SplitJoin | cmd/gitserver/server/vcs_syncer_go_modules.go:115 | splitting a join of separator-free pieces gives back the pieces |
| Text.StringLessTotal | internal/conf/reposource/npm_packages.go:226-229 | Go's string `<` relates any two distinct strings one way |
| Text.StringLessTransitive | internal/conf/reposource/npm_packages.go:226-229 | Go's string `<` is transitive |
| GoModProxy.Do | internal/extsvc/gomodproxy/client.go:131-156 | the body is returned iff the status is 200; any other status gives `Error{Path, Code, Message: body}` |
| GoModProxy.IsNotFound | internal/extsvc/gomodproxy/client.go:169-171 | a not-found error is a response error with a non-success status, exactly what a request answered with that status and message reports |
| GoModProxy.DoNotFoundIff | internal/extsvc/gomodproxy/client.go:169-171 | a request is "not found" iff the proxy answered 404 or 410 |
| GoModProxy.RequestPaths | internal/extsvc/gomodproxy/client.go:115 | the request paths are `<mod>/@v/<version>.info`, `<mod>/@v/list` and `<mod>/@v/<version>.zip` |
| GoModProxy.Get | internal/extsvc/gomodproxy/client.go:93-129 | the failover loop returns what `GetSpec` says: the corrected `get` of the client.go:111 Finding, which keeps the error of the last request |
| GoModProxy.GetWithoutRequest | internal/extsvc/gomodproxy/client.go:93-98 | a failed path escape is an error before any request; no proxy at all gives an empty body and no error |
| GoModProxy.GetFirstDecisive | internal/extsvc/gomodproxy/client.go:99-126 | proxies are asked in order; after NotFound answers, the first success or non-NotFound error is the result (corrected `get` of the client.go:111 Finding) |
| GoModProxy.GetAllNotFound | internal/extsvc/gomodproxy/client.go:93-128 | when every proxy says NotFound, the result is the last proxy's NotFound error (corrected `get` of the client.go:111 Finding) |
| GoModProxy.GetStopsAtInvalidURL | internal/extsvc/gomodproxy/client.go:111-114 | when the failover reaches an unparseable base URL, it stops there with an error |
| GoModProxy.GetVersionShape | internal/extsvc/gomodproxy/client.go:50-67 | a version-escape failure is an error before any request; a result has the module asked for and the decoded version |
| GoModProxy.GetVersion | internal/extsvc/gomodproxy/client.go:50-67 | equals `GetVersionSpec`, over the corrected `get` of the client.go:111 Finding |
| GoModProxy.ListVersions | internal/extsvc/gomodproxy/client.go:70-81 | one entry per newline-separated piece of the body, a trailing empty piece included, each with the module asked for; errors of the corrected `get` of the client.go:111 Finding pass through |
| GoModProxy.ListedVersionsRebuildBody | internal/extsvc/gomodproxy/client.go:76-78 | the listed versions hold no newline, and joining them with newlines gives the body back |
| GoModProxy.GetZipShape | internal/extsvc/gomodproxy/client.go:84-91 | a version-escape failure comes before any request, then a path-escape failure; otherwise the archive is what the failover returns for `<mod>/@v/<version>.zip` |
| GoModProxy.GetZip | internal/extsvc/gomodproxy/client.go:84-91 | the `.zip` body for the escaped version, or the escape error, or the request error of the corrected `get` of the client.go:111 Finding |
| GoModProxy.GetFromAsWrittenDropsErrors | internal/extsvc/gomodproxy/client.go:99-128 | the failover as written ends as the intended one, except that every failed request becomes an empty body without an error |
| GoModProxy.GetAsWrittenDropsErrors | internal/extsvc/gomodproxy/client.go:93-128 | `get` as written is the intended `get` with request errors dropped; its only errors are a failed path escape and an unparseable base URL |
| GoModProxy.AsWrittenGetVersionNeverNotFound | internal/extsvc/gomodproxy/client.go:50-67 | over `get` as written, `GetVersion` never fails with NotFound |
| GoModProxy.OneMissingProxyAsWritten | internal/extsvc/gomodproxy/client.go:50-128 | with one proxy answering 404, the intended `GetVersion` reports NotFound, while the code as written fails to decode an empty body; `ListVersions` and `GetZip` as written see an empty body and no error |
| Search.DetectSearchType | cmd/frontend/graphqlbackend/search.go:148-172 | with `patternType`: `literal`, `regexp` and `structural` map to their types and anything else is an error; without it: `V1` gives regex, `V2` gives literal, and anything else is an error; this error message is the corrected half of the search.go:159 Finding, not the message as written |
| Search.DetectIgnoresVersion | cmd/frontend/graphqlbackend/search.go:150-160 | `version` is ignored when `patternType` is given |
| Search.DetectPatternTypeName | cmd/frontend/graphqlbackend/search.go:150-160 | each search type is selected by exactly its own name |
| Search.AsWrittenMessageHidesValue | cmd/frontend/graphqlbackend/search.go:159 | the error message as written, which formats the pointer, never equals the message naming the rejected value when that value has a non-hex character |
| Search.AsWrittenMessageExample | cmd/frontend/graphqlbackend/search.go:159 | for the pattern type `regex`, the message as written shows `0x` and an address, not `regex` |
| Search.CorrectedMessageNamesValue | cmd/frontend/graphqlbackend/search.go:159 | the corrected message ends in the rejected value |
| Search.Recognised | cmd/frontend/graphqlbackend/search.go:183-190 | `regex`/`regexp`, `literal` and `structural` select their types, each iff |
| Search.LastPatternTypeIsLastRecognised | cmd/frontend/graphqlbackend/search.go:182-192 | the last recognised `patterntype:` value decides; with none, the given type stands |
| Search.NoPatternTypeKeepsType | cmd/frontend/graphqlbackend/search.go:182-192 | without a recognised `patterntype:` value the given search type is returned |
| Search.LastSetterDecides | cmd/frontend/graphqlbackend/search.go:182-192 | a recognised `patterntype:` value with none after it decides the search type |
| Search.PatternTypeFieldCaseInsensitive | cmd/frontend/graphqlbackend/search.go:175-176 | field names are compared after lowercasing, so `PatternType:` counts |
| Search.OverrideSearchType | cmd/frontend/graphqlbackend/search.go:174-193 | the visitor loop computes `OverrideSpec`; a parse failure returns the input type unchanged |
| Search.SearchContextsQueryEnabled | cmd/frontend/graphqlbackend/search.go:84 | enabled iff experimental features are set and `searchContextsQuery` is not explicitly false |
| Search.DefaultLimit | cmd/frontend/graphqlbackend/search.go:104-111 | 500 iff the protocol is streaming and the search is not structural; 30 otherwise |
| Search.ArgsToInputs | cmd/frontend/graphqlbackend/search.go:57-137 | the steps compute `ArgsToInputsSpec` |
| Search.StructuralDisabledFails | cmd/frontend/graphqlbackend/search.go:79-81 | a final structural type with structural search disabled gives the error and never reaches planning |
| Search.InputsTypeAndLimit | cmd/frontend/graphqlbackend/search.go:104-132 | produced inputs carry the overridden type, the limit that type and protocol imply, and the original query and protocol |

## Left out

- Rate limiting in the proxy client (the per-URL limiter, its wait, the delay warning) is left out. It depends on time and concurrency.
- Context cancellation is left out everywhere.
- GoModProxy.Get: `http.NewRequestWithContext` failing is not modelled. With the method `GET` and a parsed URL it does not fail.
- GoModProxy.Get: models the corrected `get` of the client.go:111 Finding, which returns the last request error. As written, that error is dropped; see GoModProxy.GetAsWrittenDropsErrors.
- GoModProxy.GetFirstDecisive: states the corrected `get`. As written, a decisive request error gives an empty body and no error.
- GoModProxy.GetAllNotFound: states the corrected `get`. As written, all-NotFound gives an empty body and no error.
- GoModProxy.GetVersion: uses the corrected `get`. As written, a version no proxy has fails in decoding, never with NotFound (GoModProxy.AsWrittenGetVersionNeverNotFound).
- GoModProxy.ListVersions: uses the corrected `get`. As written, a failed request gives one version, the empty one, and no error.
- GoModProxy.GetZip: uses the corrected `get`. As written, a failed request gives an empty archive and no error.
- Search.DetectSearchType: its error for an unrecognised `patternType` names the rejected value. This is the corrected message of the search.go:159 Finding; as written, the message shows the pointer's address (Search.UnrecognizedPatternTypeMessageAsWritten).
- GoModProxy.Attempt: the error path is `/` followed by the joined request path, which is what `url.URL.String` writes for a base URL with a host. A base URL without a host is not distinguished.
- GoModProxy.JoinPath: only drops empty elements and joins with `/`. `path.Join`'s cleaning of `.`, `..` and doubled slashes is not modelled.
- Response and zip bodies are strings rather than byte slices.
- `Error.Error` message formatting is left out. The model keeps errors structured, without their text.
- The wrapping messages of `errors.Wrap`/`Wrapf` are left out for the same reason.
- GoModProxy.IsNotFound: assumes `errcode.IsNotFound` recognises exactly the package's own `*Error` through its `IsNotFound` method (client.go:169), and no other error. `errcode` is not part of this model, so this assumption is unverified.
- GoModules.CloneableOkIff, GoModules.CloneableMembers and GoModules.CloneableStep: the NotFound skip at vcs_syncer_go_modules.go:98 rests on that same unverified assumption. If `errcode` looked for a different method, the skip would never fire, and every proxy NotFound would end `Fetch` with an error.
- `json.Marshal`/`json.Unmarshal` are abstracted:
  - `UnmarshalJSON` receives the decoded helper or the decode error;
  - `GetVersion` decodes its body through a parameter.
- An `NpmDependency` whose embedded package pointer is nil is not modelled. The parsers never produce one.
- NpmPackages.SortNpmDependencies: requires `versionGreaterThan` to be a strict weak order. `sort.Slice` gives no ordering guarantee otherwise.
- NpmPackages.SortNpmDependencies: the algorithm behind `sort.Slice`, and which permutation it picks among ties, are not modelled. The contract is "sorted and a permutation".
- `versionGreaterThan` and the Maven coordinate model are parameters or absent. They are defined outside these files.
- Real git, process and file-system work are abstracted:
  - temporary directories, writing and unzipping the archive, stripping the outer directory;
  - `git init/add/commit/tag/remote/push/rev-parse`.

  A materialisation is modelled by its effect on the bare repository's tags and `latest`. Parameters say which step fails. Commit contents and dates are not modelled.
- The Go dependency parser, `GitTagFromVersion` for Go and the store query are parameters.
- A Go dependency is modelled as the proxy's `Module` record. `dep.PackageSyntax()` is taken to be its `Path`, and `dep.PackageVersion()` its `Version` (vcs_syncer_go_modules.go:89, 96, 165, 208). Those methods are defined outside these files, so this is an unverified assumption.
- The git outcome of materialising a dependency (`failingStep`) is a function of the dependency alone. So a dependency listed twice, which GoModules.PushPlanAllMissing shows is attempted twice, fails or succeeds the same way on both attempts. Flaky git commands that fail only on one attempt are not modelled.
- The `placeholderGoDependency` logging sentinel and all logging are left out.
- `Type`, `IsCloneable` and `RemoteShowCommand` are constant-returning interface members and are not modelled.
- GoModules.Dependencies (vcs_syncer_go_modules.go:190-195) and Search.GetBoolPtr (search.go:195-200) are trivial accessors and have no row of their own. Their effect is stated by GoModules.ModuleVersions and Search.SearchContextsQueryEnabled.
- GoModules.CloneCommand returns the repository, not the no-op `git --version` command that only satisfies the interface.
- GoModules.CloneCommand always fetches into a new, empty bare repository. On an existing directory, `os.MkdirAll` and `git --bare init` keep the tags already there; that case is not modelled.
- GoModules.FetchConverges and GoModules.FetchIdempotent assume the `git tag` output lists exactly the repository's tags. The output itself is a parameter.
- The deletion loop visits tags in an unspecified order, as Go's map iteration does. The result does not depend on it.
- Search: several parts of `argsToInputs` are left out:
  - the query plan and its parse tree;
  - feature flags;
  - tracing;
  - the search-context substitution step, of which only the enable flag is modelled;
  - settings lookup and site configuration, which are parameters.
- Search: the resolver, `hydrateInputs` with its `sync.Once`, `Inputs`, `rawQuery` and `decodedViewerFinalSettings` are GraphQL plumbing and are left out.
- Search.Lower: lowercases ASCII only. For comparing a field name with `patterntype` this agrees with `strings.ToLower`. No non-ASCII character lowercases to a letter of that word.
- Search.SearchInputs: the code-monitor ID is an unbounded `int`, not an `int64`. Its decoding is a parameter.

## Findings

| source | as written | input that shows it | evidently intended | confidence | as-written member | corrected member |
|---|---|---|---|---|---|---|
| cmd/frontend/graphqlbackend/search.go:159 | the error for an unrecognised `patternType` formats the `*string` pointer with `%v`, printing its address | `patternType` pointing to `"regex"`: the message is `unrecognized patternType: 0x…` | the message names the rejected value (`*patternType`) | high; not executed | Search.AsWrittenMessageHidesValue | Search.CorrectedMessageNamesValue |
| internal/extsvc/gomodproxy/client.go:111 | `reqURL, err := url.Parse(baseURL)` declares a new `err` in the loop, `do`'s error at :122 goes to it, and :128 returns the outer `err`, still nil | one proxy answering 404: `get` returns a nil body and a nil error, so `GetVersion` fails to decode instead of reporting NotFound, `ListVersions` returns one empty version and `GetZip` an empty archive | `get` returns the last request's error, NotFound included, so callers can skip versions no proxy has | high; not executed | GoModProxy.OneMissingProxyAsWritten | GoModProxy.GetAllNotFound |
