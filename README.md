# Edition engine and session file store of the France-ioi task editor backend

This project models the two backend files of the France-ioi task editor that carry logic
worth stating, and proves properties of the model.

- **`backend/edition.ts`** keeps one git working copy per repository and one
  edit branch per task folder. It does the following:
  - derives the working-copy key and the edit-branch name;
  - checks the repository allow-list;
  - picks the trunk (`master`, `main` or `editor`);
  - synchronises the edit branch with the trunk (`updateGit`);
  - commits a session's files back (`commitEdition`);
  - compares the edit branch's history with the trunk's (`getHistory`);
  - publishes the edit branch: straight to production, as a branch for a manual request, or as a GitLab merge request or GitHub pull request (`publishEdition`);
  - resolves diff targets and defaults the request arguments.
- **`backend/editorApi.ts`** serves the files of an editing session: listing, read, positional write and delete. Every path is confined to the session directory by a guard.

## How the model is built

| Dafny file (module) | What it models |
|---|---|
| `wrappers.dfy` (`Wrappers`) | `Option`. |
| `js_text.dfy` (`JsText`) | The JavaScript string built-ins the core relies on: `trim`, `includes`, `parseInt`, and `replace` of the first match. |
| `naming.dfy` (`Naming`) | The pure rules of `edition.ts`: working-copy key, edit branch, allow-list, trunk selection, subdirectory normalisation, credential choice, diff target and GitLab project id. |
| `divergence.dfy` (`Divergence`) | `getHistory`: two scans over arrays of history entries with counters, early exit and an in-place flag. |
| `git_steps.dfy` (`GitSteps`) | An abstract git. A `World` object records the trace of commands and provider requests issued. The reply to each one comes from a `Responder`, a function of the trace so far and the command. A plan is a list of `Step`s; each step is a command whose failure is fatal or tolerated, or a thrown error. `RunSteps` is the reference executor of a plan. |
| `edition.dfy` (`Edition`) | `updateGit`, `commitEdition` and `publishEdition` as methods on a `World`, each proved equal to a specification function (`SyncSpec`, `CommitSpec`, `PublishSpec`). |
| `edition_properties.dfy` (`EditionProperties`) | The step order, failure and routing properties of those three operations. |
| `requests.dfy` (`Requests`) | `queryToArgs`, the router's allow-list gate and `makeErrorFunction`. |
| `paths.dfy` (`Paths`) | Node's path resolution on segments, and the session path guard: as written, and corrected. |
| `session_store.dfy` (`SessionStore`) | The session store: a `SessionFiles` class holding a map from path to bytes and a set of directories. It covers get, put (positional write) and delete, the PUT query validation and the token check. |
| `listing.dfy` (`Listing`) | `recursiveDirList` over a tree of directory entries in the order the directory reads return them. |

Some parts are not modelled by their real implementations; each becomes a parameter or a function argument instead:

- **md5** is a function `string -> HexDigest` (32 hexadecimal characters).
- **The random publish id** is the digest it produces.
- **Node's URL parser** returns an `Option<UrlParts>`. `None` stands for the `Invalid URL` exception.
- **`process.env.GITLAB_PASSWORD`** is an optional string.
- **The configuration** is a `GitConfig` value.

## Model

| member | source | states |
|---|---|---|
| Naming.RepositoryKey | backend/edition.ts:28 | The key has one character per UTF-16 code unit of the trimmed URL with one trailing `.git` removed. Each unit is kept when it is an ASCII letter or digit and becomes `_` otherwise. So the key holds only alphanumerics and `_`. |
| Naming.RepositoryKeyLength | backend/edition.ts:28 | The key is as long as the trimmed URL without `.git` is in JavaScript, counting a character above U+FFFF as two. |
| Naming.AstralCharacterIsTwoUnderscores | backend/edition.ts:28 | `a` followed by U+1F600 is keyed `a__`: one underscore per code unit. |
| Naming.RepositoryKeyIsFixedPoint | backend/edition.ts:28 | A key used as a URL maps to itself. |
| Naming.RepositoryKeyConflatesSeparators | backend/edition.ts:28 | Two URLs that differ only in which non-alphanumeric characters they contain share one working copy. |
| Naming.EditBranch | backend/edition.ts:32-34 | The edit branch is `editor-` followed by 8 hexadecimal digits, 15 characters in all. |
| Naming.EditBranchIgnoresRepository | backend/edition.ts:32-34 | The name depends on the subdirectory alone: equal subdirectories give equal branches whatever the repository. |
| Naming.RepositoryAllowed | backend/edition.ts:36-41 | A repository is allowed when no list is configured, and otherwise exactly when it is in the list. |
| Naming.AllowListExtremes | backend/edition.ts:36-41 | With no list every repository passes. A configured empty list refuses every one. A listed repository passes, and one not listed is refused. |
| Naming.SelectTrunk | backend/edition.ts:72-77 | The trunk is `master` exactly when it is listed, `main` exactly when `master` is not and `main` is, and `editor` exactly when neither is. |
| Edition.TrunkOf | backend/edition.ts:64-78 | The same selection, with a failed listing giving `editor`. |
| Edition.MainBranch | backend/edition.ts:64-78 | Issues exactly one branch listing and returns `TrunkOf` of its reply. |
| Naming.NormalizeSubdirStripsOneSlashEachSide | backend/edition.ts:157 | Normalising `/q/` gives `q` when `q` has no surrounding blanks or slashes: one leading and one trailing slash are removed. |
| Naming.NormalizeSubdirKeepsNormalized | backend/edition.ts:157 | An already normalised subdirectory is left unchanged. |
| Naming.NormalizeSubdir | backend/edition.ts:157 | The subdirectory is trimmed, then loses at most one leading and one trailing slash. |
| Naming.SetGitUser | backend/edition.ts:43-50 | The remote keeps the URL. User information is embedded exactly when both the username and the password are non-empty, and it is then that pair. |
| Naming.SetGitBackendUser | backend/edition.ts:56-62 | The remote keeps the repository URL. Each field is the provider's configured value when one is set (even empty), else the caller's. The lemmas below state the cases. |
| Naming.ConfiguredCredentialsWin | backend/edition.ts:56-62 | When the provider's user and password are both configured, the caller's credentials are never used. |
| Naming.OtherProviderIgnored | backend/edition.ts:56-62 | The other provider's configured credentials never affect the remote. |
| Naming.CallerCredentialsWhenNoneConfigured | backend/edition.ts:56-62 | With neither field configured for the provider, the caller's credentials are embedded when both are non-empty, and nothing otherwise. |
| Naming.EachFieldFallsBackAlone | backend/edition.ts:56-62 | A configured user with no configured password embeds the user and the caller's password. A configured password with no configured user embeds the caller's user and the configured password. |
| Naming.ConfiguredEmptySuppressesUserinfo | backend/edition.ts:56-62 | A field configured as the empty string is used as it is (`??` keeps it), so no user information is embedded. |
| Naming.IsGitlab | backend/edition.ts:52-54 | A URL counts as GitLab when it contains `//gitlab.com` anywhere. |
| Naming.IsGitlabWhenHostFirst | backend/edition.ts:52-54 | A URL whose authority starts with `gitlab.com` counts as GitLab. |
| Naming.IsGitlabForOtherHost | backend/edition.ts:52-54 | `https://gitlab.company.org/team/task` also counts as GitLab. |
| Naming.DiffTarget | backend/edition.ts:384-388 | `master` resolves to the trunk, `editor` to the edit branch, and any other target to itself. |
| Naming.GitlabProjectId | backend/edition.ts:332 | The project id is the pathname without its first character, with its first `/` replaced by `%2F`. |
| Naming.GitlabProjectIdEncodesFirstSlash | backend/edition.ts:332 | The project id of `/owner/rest` is `owner%2Frest`. Only the first slash is encoded. |
| GitSteps.World.Perform | backend/edition.ts:84-91 | Appends the command to the trace and returns the responder's reply to it. |
| GitSteps.Actions | backend/edition.ts:84-91 | The commands a plan would issue are its commands before the first thrown error. |
| GitSteps.RunStepsFollowsPlan | backend/edition.ts:84-94 | The executor issues a prefix of the plan's commands, and all of them when nothing fails. |
| GitSteps.RunStepsSucceedsIff | backend/edition.ts:84-94 | A plan runs without error exactly when every step passes: each fatal command succeeds and no step throws. |
| GitSteps.RunStepsErrorSource | backend/edition.ts:84-94 | An error is the message of the last issued command, which failed and was fatal, or the message of the step that threw. |
| GitSteps.Attempt | backend/edition.ts:88 | One step on the world: the trace grows by the command, and a failure counts only when the step is not tolerated. |
| Edition.UpdateGit | backend/edition.ts:80-104 | The trace grows by exactly the commands `SyncSpec` issues, and the completion is the one it gives. |
| Edition.SyncBranches | backend/edition.ts:86-91 | The six steps after the listing run as `RunSteps` of `SyncSteps` says. |
| EditionProperties.SyncIssuesStepsInOrder | backend/edition.ts:84-103 | With only branch creation allowed to fail, `updateGit` issues fetch, branch listing, checkout trunk, pull, create branch, checkout branch, set upstream to `origin/<branch>`, pull, and reports success. |
| EditionProperties.SyncStopsAtFirstFatalFailure | backend/edition.ts:84-94 | `updateGit` never throws. On a failure, the last command issued is the one that failed, it is neither the branch creation nor the listing, and its message is returned. Otherwise all eight commands were issued and it reports success. |
| Edition.SyncSpec | backend/edition.ts:80-104 | The reference for `updateGit`: fetch, list branches, then the six sync steps. A failure becomes a failure response, and nothing is thrown. |
| Edition.CommitEdition | backend/edition.ts:147-175 | The trace grows by exactly the commands `CommitSpec` issues, and the completion is the one it gives. |
| Edition.CommitSession | backend/edition.ts:157-166 | Checkout, sidecar removal and copy run as `RunSteps` of the commit plan says. |
| Edition.CommitAndPush | backend/edition.ts:168-172 | Stage, commit and push run as the rest of the plan says. |
| Edition.CommitSpec | backend/edition.ts:147-175 | The reference for `commitEdition`: the two checks, then the commit plan. A failure after the checks is thrown. |
| EditionProperties.CommitValidatesBeforeAnyCommand | backend/edition.ts:36-41 | No command is issued exactly when the repository is outside a configured allow-list (`Repository not allowed`) or the session id is empty (`No session ID provided`). With no list, every repository passes. Otherwise the first command is the checkout of the normalised edit branch. |
| EditionProperties.CommitIssuesStepsInOrder | backend/edition.ts:160-172 | When nothing fatal fails, the commit issues: checkout, sidecar removal, copy, stage all, commit with the fixed author, push with the backend credentials. |
| EditionProperties.CommitWithMalformedUrlNeverPushes | backend/edition.ts:168 | With an unparsable URL, nothing is staged, committed or pushed. |
| EditionProperties.CommitWithMalformedUrlThrowsAfterCopy | backend/edition.ts:166-168 | With an unparsable URL, the commit throws `Invalid URL` after the copy. |
| EditionProperties.CommitUsesBranchOfBareSubdir | backend/edition.ts:157-160 | A commit for `/q/` checks out the edit branch that `updateGit` creates for `q`. |
| EditionProperties.CommitMissesBranchOfSlashedSubdir | backend/edition.ts:157-160 | When the digests of `/q/` and `q` differ in their first 8 digits, that checkout is not the branch `updateGit` creates for `/q/`. |
| Edition.PublishBranchName | backend/edition.ts:300 | The publish branch is `publish-` followed by 8 hexadecimal digits. |
| Edition.PublishEdition | backend/edition.ts:291-374 | The trace grows by exactly the commands `PublishSpec` issues, and the completion is the one it gives. |
| Edition.PublishBranches | backend/edition.ts:295-302 | The common steps, and then the routed ones, run as `RunSteps` of the publish plan says. |
| Edition.Route | backend/edition.ts:304-372 | The steps after the publish branch is checked out run as the route for the publication kind says. |
| Edition.PublishSpec | backend/edition.ts:291-374 | The reference for `publishEdition`: list branches, the common steps, then the route for the publication kind. A failure is thrown. |
| EditionProperties.PublishToProduction | backend/edition.ts:304-313 | `prod` issues the common steps. It then merges the trunk, checks out the trunk, merges the publish branch and pushes with the caller's credentials. No request is made. |
| EditionProperties.PublishForManualRequest | backend/edition.ts:315-322 | `mpr` pushes with the backend credentials and returns the publish branch. No request is made. |
| EditionProperties.PublishOpensRequest | backend/edition.ts:324-372 | Any other kind pushes, then makes exactly one provider request, chosen by the URL's host. |
| EditionProperties.PublishPlanRequestIsLast | backend/edition.ts:318-372 | In every publish plan, a provider request can only be the last step. |
| EditionProperties.PublishRequestsAtMostOnce | backend/edition.ts:304-372 | Whatever git replies, a request is issued at most once, only as the last command, and only for kinds other than `prod` and `mpr`. It is the provider request for the URL. |
| EditionProperties.ProviderRequestTargetsProject | backend/edition.ts:324-366 | On `gitlab.com`: a merge request on project `owner%2Fname` with `{title, description, source_branch, target_branch}`. Elsewhere: a pull request at the URL's path with `{title, body, head, base}`. |
| Divergence.Additional | backend/edition.ts:213-230 | The count is the index of the first entry whose hash occurs in the other history, or the whole length. |
| Divergence.AdditionalIsUnique | backend/edition.ts:213-230 | That index is the only one with this property. |
| Divergence.ContainsHash | backend/edition.ts:216-222 | The inner scan finds a hash exactly when it occurs in the other history. |
| Divergence.ScanEditor | backend/edition.ts:213-230 | Returns `editorAdditional` equal to `Additional` of the editor history against the trunk's. Flags that one editor entry and changes nothing else. |
| Divergence.ScanTrunk | backend/edition.ts:231-248 | The mirror scan: `masterAdditional`, with only the first shared trunk entry flagged. |
| Divergence.GetHistory | backend/edition.ts:210-256 | Both counts and both flagged histories, as the two scans state. |
| Divergence.SharedFoundOnBothSides | backend/edition.ts:213-248 | One side stops before its end exactly when the other does: the histories share a hash. |
| Divergence.DisjointHistories | backend/edition.ts:213-248 | With no shared hash, both counts are the full lengths and nothing is flagged. |
| Divergence.LinearHistoryAhead | backend/edition.ts:213-248 | An editor history that is the trunk's plus newer commits counts exactly those commits, and the trunk side counts 0. |
| Divergence.WorkedExample | backend/edition.ts:213-248 | Editor `[c3,c2,c1,base]` against trunk `[t2,t1,base]` gives 3 and 2. |
| Requests.ArgNamesDistinct | backend/edition.ts:410-422 | The eleven argument names are distinct. |
| Requests.QueryToArgs | backend/edition.ts:409-428 | The keys are exactly the eleven argument names. Each value is the body field mapped to it, or `""` when that field is missing. |
| Requests.AdmitRequest | backend/edition.ts:430-438 | The status is 403 exactly when the `gitUrl` argument is not allowed. |
| Requests.MakeErrorFunction | backend/edition.ts:399-407 | The response is a failure exactly when the operation threw or returned a failure. A thrown error becomes a failure with its message. Any other response is the one returned. |
| Requests.CommitResponse | backend/edition.ts:399-407 | A caught commit yields either a failure or success. Success comes exactly when the repository is allowed, the session id is non-empty, the URL parses and every step passes. |
| Paths.Split | backend/editorApi.ts:27 | Splitting on `/` gives at least one piece, and no piece contains `/`. |
| Paths.SplitJoin | backend/editorApi.ts:27 | Nothing is lost: the pieces joined with `/` give back the string. |
| Paths.Resolve | backend/editorApi.ts:27 | Resolution keeps a path canonical: no empty, `.` or `..` segment. |
| Paths.ResolveOne | backend/editorApi.ts:27 | One segment: a name is appended, `""` and `.` leave the path as it is, and `..` drops the last segment but stays at the root. |
| Paths.ResolveConcat | backend/editorApi.ts:27 | Resolution goes segment by segment: resolving `a + b` is resolving `b` after `a`. |
| Paths.SessionFilePathAsWritten | backend/editorApi.ts:25-32 | The guard as written: the resolved path is accepted when its rendering starts with the session directory's rendering. |
| Paths.SessionFilePath | backend/editorApi.ts:25-32 | The corrected guard: the resolved path is accepted exactly when the session directory is a prefix of its segments. |
| Paths.CorrectedGuardIsStricter | backend/editorApi.ts:25-32 | Whatever the corrected guard accepts, the written one accepts too. |
| Paths.ResolveWithoutParentStaysBelow | backend/editorApi.ts:27 | A relative path without `..` resolves below the directory it starts from. |
| Paths.PathWithoutParentAccepted | backend/editorApi.ts:25-32 | A file path without `..` is always accepted. |
| Paths.SiblingDirectoryEscapes | backend/editorApi.ts:25-32 | The written guard accepts `../<id><more>/<name>`, a file in a sibling directory; the corrected guard refuses it. |
| Paths.SiblingDirectoryEscapesExample | backend/editorApi.ts:25-32 | Session `abc` reaches `abcd/notes.txt`. |
| SessionStore.ParsePutQueryOf | backend/editorApi.ts:136-143 | The check depends only on the two parsed values. |
| SessionStore.QueryWithoutTruncation | backend/editorApi.ts:136-143 | Unless truncate parses to 1, the query is accepted at the parsed offset without truncation. |
| SessionStore.ParsePutQuery | backend/editorApi.ts:136-143 | The request is refused exactly when the parsed truncate equals 1 and start is not 0. Otherwise the offset is the parsed start, and truncation is on exactly when truncate parses to 1. |
| SessionStore.MissingQueryIsPlainWrite | backend/editorApi.ts:136-137 | Missing parameters mean a non-truncating write at offset 0. |
| SessionStore.DecimalPutQuery | backend/editorApi.ts:136-143 | Decimal parameters are read as their values. |
| SessionStore.NegativeStartPassesQuery | backend/editorApi.ts:136-143 | A negative start passes validation when not truncating. |
| SessionStore.WriteAt | backend/editorApi.ts:76-77 | An empty payload leaves the content as it is, since the stream then never writes. Otherwise the new length is the larger of the old length and `start + |payload|`. The payload lies at `start`, old bytes elsewhere are kept, and a gap is filled with zeros. |
| SessionStore.WriteAtConsecutiveChunks | backend/editorApi.ts:76 | Writing two chunks back to back equals writing their concatenation. |
| SessionStore.PutKeepsStoreWellFormed | backend/editorApi.ts:65-81 | A write keeps the store well formed. Every file and directory stays inside the session directory, and every parent is a directory. |
| SessionStore.DeleteKeepsStoreWellFormed | backend/editorApi.ts:83-92 | So does a delete. |
| SessionStore.ForbiddenBeforeAnyAccess | backend/editorApi.ts:25-32 | A path the corrected guard `SessionFilePath` refuses is refused by get, put and delete alike, and nothing changes. The store uses that guard, not the string-prefix test as written. |
| SessionStore.PutChangesOnlyTarget | backend/editorApi.ts:65-81 | A write succeeds exactly when: the guard accepts, no ancestor is a file, the target is not a directory, and the offset is not negative. Only the target's content changes, no file disappears, and no directory is removed. The parent directories exist afterwards. |
| SessionStore.PutThenGet | backend/editorApi.ts:54-81 | After a successful write, a read returns the write at the offset over the old content, or over nothing when truncating or when the file was missing. An empty write leaves that content unpadded. |
| SessionStore.PutToMissingFileTruncates | backend/editorApi.ts:73-77 | For a missing file, a non-truncating write behaves as a truncating one: zeros up to the offset, then the payload. With no payload the file is created empty. |
| SessionStore.EmptyPutKeepsContent | backend/editorApi.ts:73-77 | A request with no body writes nothing: an existing file keeps its content under `r+`, and a truncated or new file is empty, whatever the offset. |
| SessionStore.DeleteRemovesOnlyThatFile | backend/editorApi.ts:83-92 | Delete removes exactly the target file and nothing else, and a read afterwards finds nothing. A missing target is reported and leaves the store unchanged. |
| SessionStore.GetSpec | backend/editorApi.ts:54-63 | The reference read: forbidden when the corrected guard refuses, not found, a failure for a directory, else the content. |
| SessionStore.PutSpec | backend/editorApi.ts:65-81 | The reference write: forbidden when the corrected guard refuses. A file among the ancestors fails the `mkdir -p`. Otherwise the parent directories are created, and a directory target or a negative offset fails. Else the payload is written at the offset, over nothing when truncating or when the file was missing. An empty payload pads nothing. |
| SessionStore.DeleteSpec | backend/editorApi.ts:83-92 | The reference delete: forbidden when the corrected guard refuses. A file is removed, a directory fails, and anything else is not found. |
| SessionStore.CheckToken | backend/editorApi.ts:16-19 | A token passes exactly when it is `testtoken`. |
| SessionStore.CheckTokenAcceptsOnlyTestToken | backend/editorApi.ts:16-19 | The check accepts exactly `testtoken`, and the session id never changes its answer. |
| SessionStore.TokenCheckNeverRefuses | backend/editorApi.ts:111-120 | The token the middleware passes always satisfies the check, whatever the session. |
| SessionStore.SessionFiles.Get | backend/editorApi.ts:54-63 | A read, behind the corrected guard, returns `GetSpec`: forbidden, not found, the file's content, or a failure for a directory. |
| SessionStore.SessionFiles.Put | backend/editorApi.ts:65-81 | A write, behind the corrected guard, keeps the store well formed, and its result and new state are those of `PutSpec`. |
| SessionStore.SessionFiles.Delete | backend/editorApi.ts:83-92 | A delete, behind the corrected guard, keeps the store well formed, and its result and new state are those of `DeleteSpec`. |
| SessionStore.SessionFiles.HandlePut | backend/editorApi.ts:135-144 | An invalid query gives 400 and leaves the store untouched. Otherwise the write is `PutSpec`, behind the corrected guard, with the parsed parameters. |
| Listing.RecursiveDirList | backend/editorApi.ts:34-48 | The loop-and-recursion walk returns `DirList` of the entries. |
| Listing.List | backend/editorApi.ts:50-52 | `getList` is the walk of the session directory from an empty prefix. |
| Listing.DirListIsFilePaths | backend/editorApi.ts:34-48 | The listing under a prefix is every file's segments joined by `/` and placed under the prefix, in depth-first order with each subdirectory spliced in at its position. Directories are absent and nothing is excluded. |
| Listing.ListIsEveryFile | backend/editorApi.ts:50-52 | `getList` names every file of the session by its relative path, with no leading slash. |
| Listing.ListExample | backend/editorApi.ts:34-52 | `[a.txt, src/[main.c], b]` lists as `a.txt`, `src/main.c`, `b`. |

## Observations

These are behaviours of the code as written that the model keeps. They are not defects that can be demonstrated:

- `commitEdition` hashes the *normalised* subdirectory into the edit-branch name. `updateGit`, `getHistory` and `publishEdition` hash it as given. A caller passing `/q/` to both therefore commits to a different branch than the one it synchronised. `EditionProperties.CommitUsesBranchOfBareSubdir` states which branch the commit uses.
- `isGitlab` tests whether the URL contains `//gitlab.com`. Publish routing instead compares the parsed host with `gitlab.com`, so credential choice and request choice can disagree, for instance for `https://gitlab.company.org`.
- An allow-list that is configured but empty rejects every repository. Only an absent list allows all.
- A production publication pushes with the caller's credentials (`setGitUser`). Every other push uses the configured backend credentials (`setGitBackendUser`).

## Findings

| source | as written | input that shows it | evidently intended | confidence | as-written member | corrected member |
|---|---|---|---|---|---|---|
| backend/editorApi.ts:25-32 | The sandbox guard checks that the resolved path *string* starts with the session directory *string*. | Session `abc` with file path `../abcd/notes.txt` resolves to `<sessions>/abcd/notes.txt`. That path starts with `<sessions>/abc`, so a file of another session whose id extends this one is read, written or deleted. | Accept only the session directory itself or paths below it, by comparing segments (equivalently, the directory followed by `/`). | not executed | Paths.SessionFilePathAsWritten, Paths.SiblingDirectoryEscapes | Paths.SessionFilePath, used by SessionStore.SessionFiles |

## Left out

- The Express routers and middleware, CORS, and JSON response shapes: route-level checks are modelled as functions (`AdmitRequest`, `HandlePut`, `CheckToken`).
- Configuration loading: the allow-list and credentials are a `GitConfig` parameter.
- The git library itself: commands are abstract actions whose replies come from a responder. There are no merge, pull or merge-base semantics, and the fire-and-forget clone is absent.
- md5, `Math.random` and Node's URL parser and serialiser are inputs (see above). `setGitUser`'s URL rewriting is kept as a `Remote` value holding the URL and the user information.
- The HTTP calls to GitLab and GitHub: only the request kind, endpoint target, token and body fields are modelled. The response's status and link are not, and a refused request is a failed command.
- `dirCopy` runs `cp -R` without being awaited. It is modelled as a tolerated command issued in order, so the race between the copy and the following `git add` is not represented.
- The removal of `variables.json` (existence test and `unlinkSync`) is one command whose failure is fatal, as an exception from `unlinkSync` would be. Whether the file exists is the responder's business.
- Concurrent requests on the shared working copy.
- `checkoutHashEdition`, `getLastCommits`, `prepareEdition` and the commented-out history logic in `updateGit` are outside the modelled core.
- `diffEdition`'s own git calls are not awaited in the source, and their order is not modelled. Only its target resolution (`DiffTarget`) is.
- `getBranchHistory` (the log query feeding `getHistory`) is not modelled. The histories are inputs.
- `getSessionDir`'s `path.join` of the configured folders: the session directory is an already canonical segment list.
- JavaScript numbers are unbounded integers here. `parseInt` is modelled on leading white space, an optional sign, a `0x`/`0X` prefix for base 16 and the longest run of digits, with no precision loss beyond 2^53 and no `-0`.
- Request body fields are taken as strings. `req.body[f] || ''` also turns the falsy non-strings `0`, `false` and `null` into `""` and passes other non-strings through; JSON values that are not strings are not modelled.
- Streams, pipes and MIME typing in `getFile` and `putFile`: a write is the whole payload at once.
- Filesystem errors are modelled only for a directory where a file is expected, a file where a directory is expected, and a negative offset. Permissions, full disks and other I/O errors are not.
- `recursiveDirList` works on a snapshot tree of entries. A concurrent change during the walk and `fs.statSync` failures are not represented.
- Listing.DirListIsFilePaths: stated for names a directory read can return (non-empty, slash-free), which is all the filesystem produces.
