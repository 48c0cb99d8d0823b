# semantic-release pull-request analyzer, modelled in Dafny

The plugin turns GitHub pull-request labels into a semantic-release release
type. `verifyConditions` checks the plugin configuration: a `labels` map from
label name to release type, and a GitHub token. It also resolves the repository
but ignores the result. `analyzeCommits`
walks the commits of a release. For each commit whose subject reads
`Merge pull request #N from …` it looks up pull request N. It maps every label
of that pull request through `labels` onto a fixed seven-rung ladder
(`prerelease` < `prepatch` < `patch` < `preminor` < `minor` < `premajor` <
`major`). It returns the highest rung found, or `undefined` when no label maps
onto the ladder.

The model keeps the deterministic core of `index.js` and proves what it
promises:

- `wrappers.dfy`: `Option`, `Result` and `Outcome`, for `undefined` and thrown errors.
- `decimal.dfy`: digit strings, `parseInt(_, 10)` and the printing of a number in a template literal.
- `js_values.dfy`: the JavaScript values a configuration can hold. Also truthiness, `typeof`, property reads, `??` and `String(v)`.
- `release_types.dfy`: the ladder, `indexOf`/`includes` on it, and `releaseTypes[i]`.
- `host.dfy`: the pipeline context (environment, repository URL, commits) and the errors the plugin throws.
- `repository.dfy`: `parseRepository`, `mapOptional` and the three-source fallback `getRepositoryInfo`.
- `github_api.dfy`: the token check of `createGitHubApiFetcher`.
- `pull_request.dfy`: the merge-subject match of `getPullRequestInfo` and the path of the lookup.
- `analysis.dfy`: what `analyzeCommits` computes, as functions, with the lemmas about it.
- `plugin.dfy`: `verifyConditions` and `analyzeCommits` as methods with their loops.

`analyzeCommits` destructures `{ labels }` and then hands `labels` itself to
`createGitHubApiFetcher` and `getRepositoryInfo` (index.js:129-131). The model
keeps this. Inside analysis, `token` and `repository` are therefore read from
the label map. Two consequences are proved. A label map that passes
verification can never supply a repository, because no rung contains a slash.
The plugin config's own `token` never reaches analysis.

`verifyConditions` calls `getRepositoryInfo` and discards its result
(index.js:123). So an unresolvable repository does not make verification fail.
Only `analyzeCommits` fails on it, when it destructures the result
(index.js:131). Resolving can still throw in both entry points. A `repository`
option that is an object with its own `toString` entry cannot be converted to
a string for `exec` (index.js:73). The model carries that error through
`GetRepositoryInfo`.

## Model

| member | source | states |
|---|---|---|
| `ReleaseTypes.IndexOf` | index.js:5-13 | the position of a ladder string on the seven-rung ladder; -1 exactly for every other value |
| `ReleaseTypes.RungAt` | index.js:156 | `releaseTypes[i]`: a rung exactly for positions 0..6, whose position is `i`; `undefined` otherwise |
| `ReleaseTypes.RungsDistinct` | index.js:5-13 | no two positions hold the same rung |
| `JsValues.TypeOf` | index.js:112 | `typeof` is "object" exactly for objects and `null` |
| `JsValues.Truthy` | index.js:109 | falsy exactly for `undefined`, `null`, `false`, `0` and the empty string |
| `JsValues.Prop` | index.js:109-112 | a property read is `undefined` unless the value is an object with an entry of that name, and then it gives the first such entry's value |
| `JsValues.Lookup` | index.js:150 | a property read gives the value of the first entry with that name, `undefined` when there is none |
| `JsValues.ToJsString` | index.js:73 | the string `exec` matches against: a string is itself, no other value prints with a slash, and the conversion throws exactly for an object with its own `toString` entry |
| `ReleaseTypes.OnLadder` | index.js:116 | `includes` holds exactly for a string equal to one of the seven rungs |
| `Decimal.ParseDecimal` | index.js:98 | a digit string denotes 0 exactly when every digit is `0` |
| `Decimal.NatToString` | index.js:100 | a pull request number prints as a non-empty digit string without leading zeros; it starts with 0 only for 0 |
| `Decimal.ParsePrinted` | index.js:98-100 | parsing the printed number gives the number back |
| `Decimal.PrintParsed` | index.js:98-100 | printing the value of a digit string without leading zeros gives that string back |
| `Decimal.PrintInjective` | index.js:100 | different numbers print differently |
| `Repository.ParseRepository` | index.js:72-79 | a result exactly for text with one slash and non-empty text on both sides; the result's owner and repo are slash-free, non-empty and rebuild the text |
| `Repository.ParseFormat` | index.js:72-79 | round trip: `owner/repo` built from slash-free non-empty parts parses back to those parts |
| `Repository.FirstSlashOf` | index.js:73 | a slash with no slash before it is where the owner part ends |
| `Repository.ConfigSource` | index.js:72-87 | an undefined `repository` option gives `undefined`; the option throws exactly when it is an object with its own `toString` entry; a repository read from it is the option's own `owner/repo` string |
| `Repository.GetRepositoryInfo` | index.js:85-91 | throws exactly when the `repository` option throws; otherwise the first of config option, repository URL and GITHUB_REPOSITORY that is defined and parses; `undefined` exactly when none does |
| `Repository.UndefinedSourcesSkipped` | index.js:81-91 | `mapOptional` never calls the parser on an undefined source: without a repository URL the URL parser does not matter, without a `repository` option the result is that of the other two sources, and without GITHUB_REPOSITORY the environment adds nothing |
| `Repository.ExplicitRepositoryWins` | index.js:87 | a valid `owner/repo` option is the result whatever the other two sources hold |
| `Repository.UnparseableSourcesFallThrough` | index.js:86-90 | an option that is set but does not parse, and an unparseable URL, fall through to GITHUB_REPOSITORY |
| `Repository.OnlyStringsParse` | index.js:72-79 | an option that is not a string (`null`, a boolean, a number, an object) never names a repository: it gives `undefined` or throws |
| `GitHubApi.ResolveToken` | index.js:15-25 | a token results exactly when the config token is truthy, or is nullish and GITHUB_TOKEN is non-empty; the result is that token; a nullish config throws first |
| `GitHubApi.FalsyTokenHidesEnvironment` | index.js:20-21 | a config token that is set but falsy makes the check throw even when GITHUB_TOKEN is set |
| `PullRequest.DigitRun` | index.js:94 | the length of the leading run of digits: all digits, followed by a non-digit or the end |
| `PullRequest.MatchMergeSubject` | index.js:94-98 | a number only for subjects `Merge pull request #<digits> from…`, and it is the decimal value of those digits |
| `PullRequest.MatchComplete` | index.js:94-98 | every subject of that form is recognised, with the value of its digits |
| `PullRequest.MatchExample` | index.js:94-98 | `Merge pull request #42 from feature/x` names pull request 42 |
| `PullRequest.RejectExample` | index.js:94-97 | `Merge pull request #42: fix` is skipped: its digits are not followed by ` from` |
| `PullRequest.PullRequestPath` | index.js:99-101 | the path is `/repos/{owner}/{repo}/pulls/` followed by a digit string without leading zeros that parses back to the pull request number |
| `PullRequest.PathDistinguishesNumbers` | index.js:99-101 | two pull request numbers of one repository share a lookup path only if they are equal |
| `PullRequest.PathCarriesSubjectNumber` | index.js:98-101 | a subject whose number has no leading zeros is looked up at `/repos/{owner}/{repo}/pulls/` followed by exactly those digits |
| `PullRequest.LeadingZerosDropped` | index.js:98-100 | `#007` is looked up as pull request 7 |
| `Analysis.LabelIndex` | index.js:149-151 | a label's position is -1 exactly when the label is absent from the map or mapped to a value off the ladder, and otherwise the rung it is mapped to |
| `Analysis.PullRequestLabels` | index.js:94-101 | labels are looked up only for a merge subject, at the path of the number its digits denote |
| `Analysis.CommitIndexes` | index.js:138-151 | every position a commit contributes lies in -1..6 |
| `Analysis.MergeCommitIndexes` | index.js:138-151 | a merge commit contributes one position per label of the pull request looked up for its number, in label order |
| `Analysis.MaxOf` | index.js:154 | `Math.max(k, ...xs)` is at least `k` and every element, and is `k` or one of the elements |
| `Analysis.MaxOfConcat` | index.js:154 | folding `Math.max` list after list equals one `Math.max` over the concatenation |
| `Analysis.MaxOfSameElements` | index.js:154 | the maximum depends only on which values occur |
| `Analysis.InFlatten` | index.js:137-155 | a position occurs in the concatenated lists exactly when it occurs in one of them |
| `Analysis.AllIndexes` | index.js:137-155 | every position contributed by the commits lies in -1..6 |
| `Analysis.AllIndexesConcat` | index.js:137-155 | the positions of two runs of commits are those of the first followed by those of the second |
| `Analysis.AllIndexesStep` | index.js:137-155 | one more commit appends exactly its own positions |
| `Analysis.InAllIndexes` | index.js:137-155 | a position occurs among all positions exactly when some commit contributes it |
| `Analysis.ReleaseType` | index.js:154-156 | the result is a ladder string or `undefined`; `Analysis.HighestRungWins` states which rung |
| `Analysis.RungOfHighest` | index.js:154-156 | the rung at the maximum is `undefined` exactly when every position is -1, and otherwise is the rung of a position no other exceeds |
| `Analysis.HighestRungWins` | index.js:133-156 | the release type is the rung of the highest position any label of any merged pull request maps to; `undefined` exactly when none maps onto the ladder |
| `Analysis.CommitOrderIrrelevant` | index.js:137-155 | two orderings of the same commits give the same release type |
| `Analysis.RunningIndexNeverDecreases` | index.js:135-155 | the index after a prefix of the commits never exceeds the index after a longer prefix |
| `Analysis.OffLadderCommitChangesNothing` | index.js:154 | a commit whose positions are all -1 leaves the result unchanged |
| `Analysis.SilentCommitIndexes` | index.js:94-151 | a commit that is no merge, whose lookup has no labels, whose label list is empty, or whose labels are all absent from the map or mapped off the ladder contributes only -1 |
| `Analysis.SilentCommitChangesNothing` | index.js:144-154 | such a commit leaves the result unchanged |
| `Analysis.SameRungNotAdditive` | index.js:154 | when every label that maps onto the ladder maps to the same rung, that rung is the result, not a higher one |
| `Plugin.InvalidLabelError` | index.js:117-119 | the error names the label and the printed value, and is the conversion error exactly when the value cannot be printed |
| `Plugin.VerifyConditions` | index.js:108-124 | passes exactly when the labels are a truthy object with every value on the ladder, a token resolves and resolving the repository does not throw; otherwise throws, in this order, missing labels, not an object, the error for the first label whose value is off the ladder, missing token, the conversion error of the `repository` option; an unresolvable repository never makes it fail |
| `Plugin.Setup` | index.js:129-131 | analysis proceeds exactly when a token and a repository resolve from the label map; otherwise it throws the token error, the conversion error of the `repository` entry, or the destructuring error |
| `Plugin.AnalyzeCommits` | index.js:129-157 | after setup, the loop returns the release type of `Analysis.ReleaseType` over all commits, always a ladder string or `undefined` |
| `Plugin.ValidLabelsHaveNoRepositoryOption` | index.js:129-131 | a label map that passes verification never supplies a repository of its own |
| `Plugin.ValidLabelsNeverNameRepository` | index.js:85-91 | with such a label map as config, the repository comes from the repository URL or GITHUB_REPOSITORY only |
| `Plugin.ConfigTokenIgnoredByAnalysis` | index.js:129-130 | without a `token` entry in the label map and without GITHUB_TOKEN, analysis throws for a missing token whatever the config's own `token` is |

## Left out

- `fetchGitHubApi` (index.js:28-49): the HTTP request, header merging, query strings and HTTP error messages are network I/O. The pull-request lookup is a total function from request path to an optional list of label names. So a failed request, which aborts `analyzeCommits`, is not modelled.
- `generateNotes` (index.js:162-181): a single POST whose result is the response's `body`; there is nothing to verify beyond I/O.
- `parseGitHubUrl` (index.js:52-70) relies on the WHATWG `URL` parser. It is a parameter of type `string -> Option<Repo>`. The shape of its result (an `owner` that can be `undefined`) is not modelled.
- `apiUrl` and GITHUB_API_URL (index.js:16-19) only feed the HTTP request and are not modelled.
- `async`/`await`: the entry points run sequentially and have no concurrency to model.
- Pull request numbers are unbounded naturals: `parseInt` precision and the exponent form JavaScript prints for numbers of 10^21 and above are not modelled.
- JavaScript values are limited to `undefined`, `null`, booleans, integers, strings and plain objects. Functions, arrays, symbols, big integers, `NaN` and fractions are not modelled.
- `JsValues.Prop`: reading a property of a primitive, or an inherited property, gives `undefined`. The source would read `length`, a character, or a prototype member, none of which is a ladder string, a token key or a repository key. So a label's position is the same either way.
- `JsValues.Lookup`: an `Object` may list the same key twice, and a read gives the first entry. A JavaScript object has unique keys, so such values do not occur; distinct keys are not required.
- `Plugin.AnalyzeCommits` and `Plugin.VerifyConditions` require the plugin configuration to be an object, which the release pipeline always passes.
