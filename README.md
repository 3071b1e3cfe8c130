# ByteLegend remotes and pull-request URLs, modelled in Dafny

This project models the small logical core of the ByteLegend fork of the
GitHub pull-request extension for the editor:

- the three substring helpers of `src/bytelegend/utils.ts`
  (`substringBeforeLast`, `substringAfterLast`, `substringAfter`), over a
  model of JavaScript's `indexOf` / `lastIndexOf`, including the empty
  target;
- the owner / repository / number extraction that `fetchPullRequestModel`
  applies to a pull-request page URL such as `https://github.com/owner/repo/pull/1`;
- the fixed shapes of the stub `ByteLegendRepositoryState`,
  `ByteLegendGitRepository` (its remote list and the authority of its root URI)
  and `ByteLegendGit`;
- the generic `Remote` of `src/common/remote.ts`: its getters, which read the
  parsed protocol, its `equals`, `parseRemote` and the loop of
  `parseRepositoryRemotes`;
- the `ByteLegendRemote` of `src/bytelegend/remote.ts`: its derived
  fields, its URL-only `equals` and `getByteLegendRemote`.

Files:

- `wrappers.dfy`: `Option` (for `null`/`undefined`) and `Result` (for a thrown error).
- `js_strings.dfy`: occurrence of a substring, `indexOf` and `lastIndexOf`, and the
  injectivity of joining around a separator character.
- `common_remote.dfy`: module `CommonRemote`.
- `bytelegend_remote.dfy`: module `ByteLegendRemotes`.
- `bytelegend_utils.dfy`: module `ByteLegendUtils`.

Every class of the core assigns its fields only in its constructor, so each one
is a Dafny `datatype` and its getters are member functions. `parseRepositoryRemotes`
is the one loop in the core. It is a method with a `for` loop over the
repository's remotes. The `urls.forEach` inside it is a second method with a
loop of its own. Both are proved equal to specification functions: `ParsedRemotes`
and `ParsedUrls`, which concatenate per-element results in order. The lemmas about
the output's order, size, provenance and completeness are proved about that function.

`Protocol` (`src/common/protocol.ts`) is not part of this model. Its
constructor (URL parsing) and its `update({ type })` are passed in as a value of
`ProtocolParser`, a pair of arbitrary functions. Every property is therefore
stated relative to whatever that parser returns. The `Remote` getters `host`,
`owner` and `repositoryName` read the corresponding fields of the parsed
protocol (`src/common/remote.ts:24-32`).

A remote whose URL does not parse to a non-empty host is meant to be invalid.
The code does not make its construction fail, though: `parseRemote` returns
`null`, and the `Remote` constructor checks nothing. The model follows the code.
`ParseRemote` returns `None`, and only a `Remote` produced by `ParseRemote` is
known to have a host.

## Model

| member | source | states |
|---|---|---|
| JsStrings.IndexOf | src/bytelegend/utils.ts:67 | `indexOf`: -1 exactly when the target occurs nowhere; otherwise an index where it occurs with no occurrence before it |
| JsStrings.LastIndexOf | src/bytelegend/utils.ts:57 | `lastIndexOf`: -1 exactly when the target occurs nowhere; otherwise an index where it occurs with no occurrence after it |
| JsStrings.FirstOccurrenceFrom | src/bytelegend/utils.ts:67 | the forward scan behind `indexOf` finds the first occurrence at or after its start, or reports none |
| JsStrings.LastOccurrenceUpTo | src/bytelegend/utils.ts:57 | the backward scan behind `lastIndexOf` finds the last occurrence at or before its start, or reports none |
| ByteLegendUtils.SubstringBeforeLast | src/bytelegend/utils.ts:56-59 | unchanged input when the target does not occur; otherwise the result followed by the target is a prefix of the input and the target occurs at no later index; never longer than the input |
| ByteLegendUtils.SubstringAfterLast | src/bytelegend/utils.ts:61-64 | unchanged input when the target does not occur; otherwise the suffix starting right after the last occurrence; never longer than the input |
| ByteLegendUtils.SubstringAfter | src/bytelegend/utils.ts:66-69 | unchanged input when the target does not occur; otherwise the suffix after an occurrence with none before it; never longer than the input |
| ByteLegendUtils.NameSplitsBack | src/bytelegend/utils.ts:46 | "owner/repo" with slash-free parts splits back into owner (before the last '/') and repo (after the first '/') |
| ByteLegendUtils.PullRequestCoordinatesOf | src/bytelegend/utils.ts:45-48 | the extracted owner, repository and number text are each no longer than the URL |
| ByteLegendUtils.OwnerAndRepoOfUrl | src/bytelegend/utils.ts:45 | the text between "github.com/" and the last "/pull" of a page URL with a digit number is exactly the owner-and-repository part |
| ByteLegendUtils.NumberOfUrl | src/bytelegend/utils.ts:48 | the text after the last '/' of a page URL with a digit number is exactly that number |
| ByteLegendUtils.ExtractFromPullRequestUrl | src/bytelegend/utils.ts:40-48 | for "https://github.com/O/R/pull/N" with O, R slash-free and N digits, the extraction yields O, R and N |
| ByteLegendUtils.PullRequestUrlRoundTrip | src/bytelegend/utils.ts:45-46 | a ByteLegend remote's `url` + "/pull/" + N extracts back to its owner and repository, and `getByteLegendRemote` rebuilds the same remote |
| ByteLegendUtils.ByteLegendRepositoryState.GitRemotes | src/bytelegend/utils.ts:74-76 | the `remotes` getter lists the constructor's remotes, one git-API remote per stored remote, in order |
| ByteLegendUtils.NewByteLegendGitRepository | src/bytelegend/utils.ts:94-98 | the repository's state holds exactly `[remote]`; the root authority is owner + "+" + repositoryName + "+main" |
| ByteLegendUtils.RootAuthorityInjective | src/bytelegend/utils.ts:96-98 | for owners without '+', equal root authorities come from the same remote |
| ByteLegendUtils.ByteLegendRepositoryParsesToNothing | src/common/remote.ts:85-103 | `parseRepositoryRemotes` on the ByteLegend repository yields no remote, since its remote has no fetch or push URL |
| ByteLegendUtils.ByteLegendGit.Repositories | src/bytelegend/utils.ts:260-262 | `repositories` is exactly the one wrapped repository |
| ByteLegendUtils.ByteLegendGit.State | src/bytelegend/utils.ts:264-266 | `state` is always "initialized" |
| ByteLegendUtils.RegisteredProviderShape | src/bytelegend/utils.ts:53 | the provider registered for a remote has one repository, whose state holds exactly that remote, and is initialized |
| CommonRemote.Remote.AuthProviderId | src/common/remote.ts:39-41 | the enterprise provider exactly when the configured enterprise authority equals the host, GitHub otherwise (also when none is configured) |
| CommonRemote.Remote.Host | src/common/remote.ts:24-26 | `host` is the host of the parsed protocol |
| CommonRemote.Remote.Owner | src/common/remote.ts:27-29 | `owner` is the owner of the parsed protocol |
| CommonRemote.Remote.RepositoryName | src/common/remote.ts:30-32 | `repositoryName` is the repository name of the parsed protocol |
| CommonRemote.Remote.Equals | src/common/remote.ts:49-64 | `equals` holds exactly when remote name, host, owner and repository name all agree; the URL is not compared |
| CommonRemote.ProtocolFor | src/common/remote.ts:71-76 | the protocol parsed from the URL, re-typed with the original protocol's type exactly when one is given |
| CommonRemote.EqualsIgnoresUrlAndType | src/common/remote.ts:49-64 | changing only the URL (or the protocol type) of a remote leaves it equal to the original |
| CommonRemote.EqualsIsEquivalence | src/common/remote.ts:49-64 | `equals` is reflexive, symmetric and transitive |
| CommonRemote.EqualsKeepsAuthProvider | src/common/remote.ts:39-41 | equal remotes get the same authentication provider under any enterprise configuration |
| CommonRemote.ParseRemote | src/common/remote.ts:67-83 | no remote for an empty URL, none when the (re-typed) protocol has an empty host; otherwise a remote with exactly the given name and URL, that protocol, and a non-empty host |
| CommonRemote.CandidateUrls | src/common/remote.ts:88-94 | at most two URLs, all non-empty, never the same URL twice, the fetch URL first when it is set |
| CommonRemote.CandidateUrlsMembers | src/common/remote.ts:88-94 | a URL is a candidate exactly when it is the set fetch URL, or the set push URL that differs from the fetch URL |
| CommonRemote.CollectUrls | src/common/remote.ts:88-94 | the two conditional pushes produce exactly the candidate URLs |
| CommonRemote.ParsedUrl | src/common/remote.ts:96-99 | one URL yields at most one remote |
| CommonRemote.PushParsedUrls | src/common/remote.ts:95-100 | the `forEach` loop appends exactly the parsed remotes of the URLs, in order, to what was there |
| CommonRemote.ParseRepositoryRemotes | src/common/remote.ts:85-103 | the loop over the repository's remotes returns exactly `ParsedRemotes` of them |
| CommonRemote.FetchThenPush | src/common/remote.ts:88-100 | one git remote yields its fetch remote then its push remote, each only when its URL is considered and parses with a host |
| CommonRemote.ParsedUrlsAppend | src/common/remote.ts:95-100 | parsing two URL lists one after the other gives the parse of their concatenation |
| CommonRemote.ParsedRemotesAppend | src/common/remote.ts:87-101 | outputs follow input order: the remotes from a prefix of the input come first |
| CommonRemote.ParsedRemotesBound | src/common/remote.ts:85-103 | at most two remotes per input remote |
| CommonRemote.ParsedUrlsExactly | src/common/remote.ts:95-100 | a remote is parsed from a URL list exactly when it has the list's name, a URL of the list, that URL's protocol, and a non-empty host |
| CommonRemote.ParsedRemotesExactly | src/common/remote.ts:85-103 | provenance and completeness: a remote is in the output exactly when it has the name of some input remote, one of that remote's candidate URLs, that URL's protocol, and a non-empty host |
| ByteLegendRemotes.ByteLegendRemote.Name | src/bytelegend/remote.ts:8-10 | `name` is the owner, then '/', then the repository name |
| ByteLegendRemotes.ByteLegendRemote.IsReadOnly | src/bytelegend/remote.ts:13 | the remote is read-only |
| ByteLegendRemotes.ByteLegendRemote.FetchUrl | src/bytelegend/remote.ts:11 | `fetchUrl` is never set |
| ByteLegendRemotes.ByteLegendRemote.PushUrl | src/bytelegend/remote.ts:12 | `pushUrl` is never set |
| ByteLegendRemotes.ByteLegendRemote.GitProtocol | src/bytelegend/remote.ts:20-22 | `gitProtocol` is what the Protocol parser makes of the `url` followed by ".git" |
| ByteLegendRemotes.ByteLegendRemote.RemoteName | src/bytelegend/remote.ts:8-16 | `remoteName` is the same text as `name`, owner + "/" + repositoryName |
| ByteLegendRemotes.ByteLegendRemote.Url | src/bytelegend/remote.ts:17-19 | `url` is "https://github.com/" followed by the name |
| ByteLegendRemotes.ByteLegendRemote.GitProtocolUrl | src/bytelegend/remote.ts:20-22 | the protocol is parsed from the `url` followed by ".git" |
| ByteLegendRemotes.ByteLegendRemote.Host | src/bytelegend/remote.ts:23-25 | `host` is "ghapi.bytelegend.com" |
| ByteLegendRemotes.ByteLegendRemote.NormalizedHost | src/bytelegend/remote.ts:26-28 | `normalizedHost` always fails |
| ByteLegendRemotes.ByteLegendRemote.AuthProviderId | src/bytelegend/remote.ts:29-31 | `authProviderId` is always GitHub |
| ByteLegendRemotes.ByteLegendRemote.AsGitRemote | src/bytelegend/remote.ts:8-13 | seen as a git-API remote: named by `name`, read-only, with neither fetch nor push URL set |
| ByteLegendRemotes.GetByteLegendRemote | src/bytelegend/remote.ts:37-39 | the remote has exactly the given owner and repository name |
| ByteLegendRemotes.ByteLegendRemote.Equals | src/bytelegend/remote.ts:32-34 | against another ByteLegend remote, equal exactly when the names agree; against a generic remote, exactly when its URL is this remote's GitHub page |
| ByteLegendRemotes.EqualsIsEquivalence | src/bytelegend/remote.ts:32-34 | URL-only `equals` is reflexive, symmetric and transitive |
| ByteLegendRemotes.UrlInjective | src/bytelegend/remote.ts:17-34 | for owners without '/', `equals` between ByteLegend remotes holds exactly when owner and repository agree |
| ByteLegendRemotes.UrlAmbiguousWithSlashes | src/bytelegend/remote.ts:17-19 | without that restriction, ("a/b", "c") and ("a", "b/c") are different but have the same URL |

## Left out

- `getDefaultByteLegendRemote`, its module-level cache and `commands.executeCommand('bytelegend.getContext')` (`src/bytelegend/utils.ts:28-37,51-54`): calls into the editor host. `registerByteLegendGitProvider` is kept only as the shape of the provider it registers.
- `GitHubRepository` and its `getPullRequest` (`src/bytelegend/utils.ts:47-48`): a network call. `src/github/githubRepository.ts` is not part of this model.
- `parseInt`: the number is kept as the text it is applied to. Its value, and the NaN cases for non-digit text, are not modelled.
- The roughly forty other `ByteLegendGitRepository` methods (`src/bytelegend/utils.ts:100-255`): each only logs a trace and throws "Method not implemented".
- The `EventEmitter`/`Event` fields of the state and the provider: host event plumbing.
- `Uri.parse('github1s:/').with(...)` belongs to a foreign library. Only the authority string it is given is modelled.
- The internals of `Protocol`: URL parsing, `normalizeUri` and `update`. `Remote.normalizedHost` depends on `normalizeUri` and is not modelled.
- `Remote.authProviderId` reads `getEnterpriseUri()` from the configuration. Here it takes that authority as a parameter instead.
- `ByteLegendRemote.gitProtocol`: the parser is abstract, so only the URL it is given is pinned down.
- JsStrings.IndexOf, JsStrings.LastIndexOf: indices count Unicode scalar values, while JavaScript counts UTF-16 code units, so the numbers differ after a character outside the Basic Multilingual Plane. The substrings the helpers cut out are the same for well-formed text. Strings holding a lone surrogate cannot be represented.
- ByteLegendUtils.PullRequestCoordinatesOf: its own contract only bounds the lengths of the extracted texts, because the function is total over arbitrary URLs. What it extracts from a well-formed pull-request URL is stated in `ExtractFromPullRequestUrl`.
- `webviews/editorWebview/overview.tsx`: React view composition with no logic.
