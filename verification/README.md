# Verified model of the emulator's cores

This project models the stateful cores of an in-memory API emulator in Dafny and proves what they promise.

| part | modules |
|---|---|
| Git objects, refs, pulls, issues, comments and repositories of the GitHub service | `GitGraph`, `GitCopy`, `GitCopyLaws`, `GitHubDb`, `GitHubRefLaws`, `GitHubTrackerLaws`, `GitHubTrackerEffects`, `GitHubRuns`, `GitHubMerges`, `GitHubMergeEffects`, `GitHubHistory`, `GitHubPullCommits`, `GitHubMergedPulls`, `GitHubStalePull`, `GitHubService` |
| The configuration printer and parser | `YamlText`, `YamlParser`, `YamlPrinter`, `YamlRoundTrip`, `YamlKeys` |
| The indexed record store | `RecordStore`, `StoreObjects`, `WholeStore`, `StoreRoot` |
| The router's matcher and dispatch | `Router` |
| The Gmail mailbox and its MIME reader and writer | `Gmail`, `GmailLaws`, `GmailHistory`, `GmailLabels`, `GmailArrivals`, `GmailListing`, `GmailService`, `Base64`, `Mime`, `MimeRoundTrip`, `MimeParts` |
| Clerk organisations and e-mail addresses | `Clerk`, `ClerkLaws`, `ClerkEmails`, `ClerkService` |
| Paging | `Paging` |
| Shared: rows and look-ups, Go string and number functions | `Tables`, `GoText`, `GoNumbers` |

Each stateful part comes in three layers. A specification on values says what one step does (`GitHubDb`, `Gmail`, `Clerk`,
`RecordStore`, ...). Lemmas about the specification state what each step keeps, what a whole run keeps and what one step undoes.
Classes whose methods change their collections in place are proved against the specification; they loop where the program loops
over rows to change or collect them. Look-ups by key (`Find`), guards and patches that only compute a value (`MergeGuard`,
`SeedInitialGit`, `PatchedIssue`, ...) are functions that specification and class share.
`dafny verify dfyconfig.toml` checks everything.

Every store method and every request handler is one atomic step. Values from outside (clock readings, random names, fresh shas,
regular expressions, media types, UTF-8, printable runes) are parameters; where a theorem needs something of them, it says so in
its `requires` (for example `Supplied`, `Admissible`, `ControlsHidden`, `Faithful`).

Promises that the code does not keep on all inputs; for each there is a concrete input and an exact condition:

| promise | input that breaks it | exact condition |
|---|---|---|
| a merge keeps the history of its base branch | `StalePullLosesHistory` | `MergeIsForwardIff` |
| an insert without an id overwrites nothing | `LastIdOverwrites` | `InsertReplacesIff` |
| the auto id is above every stored id | `LastIdOverwrites` | `StepKeepsNumbered` |
| a collection is given back by its own snapshot | `OwnSnapshotRefused`, `RestoreWrapsAuto` | `SnapshotRestoresIff`, for a store `StoreSnapshotRestoresIff` |
| a refused restore of the whole store changes nothing | `RefusedRestoreLosesCollection` | `RefusedRestoreUnchangedIff` |
| indexed and unindexed look-up agree | `IndexMissesNil` | `IndexedIsScanIff` |
| the history rows tell the labels of messages that arrived since | `NewMessageLabelsUnknown` | `NewMessageReplaysIff` |
| messages carry only labels that exist | `DeletedLabelComesBack` | `StepKeepsMessagesIff` |
| messages and filters name only labels that exist | `DeletesUnderFilter` | `StepKeepsLabelsIff` |
| the user record names the primary address | `PatchLosesName` | `EventKeepsEmails` |
| a next page is offered exactly when items remain | `LastOffsetStartsOver` | `NextOfferedIff` |
| a numbered page is its window of the list | `LastPageNumberPanics`, `FarPageIsFirstPage` | `PageIsWindowIff` |
| a printed key is read back | `ColonKeyIsLost` | `KeyReadsBackIff` |

## Model

| member | source | states |
|---|---|---|
| `GitGraph.IsDescendantOf` | internal/services/github/routes_git.go:391-411 | The explicit-stack search returns true if and only if the ancestor is met from the descendant by zero or more parent links through stored commits; it terminates on cyclic graphs and where commits are missing (measure: unseen shas, then stack length). |
| `GitCopy.ObjectRows.MaterializeBlob` | internal/services/github/routes_pulls.go:540-557 | A named blob of the source is in the target afterwards, nothing there changes, and no sha is stored twice. |
| `GitCopy.ObjectRows.MaterializeTree` | internal/services/github/routes_pulls.go:512-538 | Recursive tree copy with a shared `seen` set: every tree that arrives has its blobs and its subtrees there or marked, existing objects are unchanged, no sha is stored twice; terminates on shared and cyclic trees. |
| `GitCopy.ObjectRows.MaterializeCommitGraph` | internal/services/github/routes_pulls.go:481-510 | Recursive commit copy with two shared `seen` sets: arriving commits equal the source's, their parents and whole trees arrive too, existing objects are unchanged, no sha is stored twice; terminates on cyclic graphs. |
| `GitCopyLaws.CopyIsComplete` | internal/services/github/routes_pulls.go:481-557 | Between self-contained repositories that agree on shared shas: every commit the head reaches in the source is in the target with the same parents and tree, with every tree and blob reachable from that tree; what the target held is unchanged and it stays self-contained. |
| `GitCopyLaws.CopyKeepsSelfContained` | internal/services/github/routes_pulls.go:481-557 | The copy leaves no dangling parent, tree, subtree or blob, and the two repositories still agree on shared shas. |
| `GitCopyLaws.SharedHistoryIsWhole` | internal/services/github/routes_pulls.go:481-557 | Whatever is reached from a commit that two self-contained, agreeing repositories share is whole in both. |
| `GitHubRefLaws.CreateRefLaw` | internal/services/github/routes_git.go:113-154 | A ref is created exactly when it is under `refs/`, the commit exists and the name is free; ref and branch tables then gain exactly that row, otherwise nothing changes; branches and head refs stay one table. |
| `GitHubRefLaws.PatchRefLaw` | internal/services/github/routes_git.go:156-204 | A ref moves exactly when it exists, the commit exists, and the move is forced or the old tip is an ancestor of the new one; branch and ref move together. |
| `GitHubRefLaws.DeleteRefLaw` | internal/services/github/routes_git.go:206-227 | Exactly the named ref and, for a head ref, its branch go away. |
| `GitHubRefLaws.SyncBranchLaw` | internal/services/github/routes_git.go:307-317 | Syncing a branch from a stored ref sets exactly that branch and adds no second ref. |
| `GitHubRefLaws.MoveBranchLaw` | internal/services/github/routes_git.go:289-296 | Moving a branch moves branch and ref together, or nothing when there is no such branch. |
| `GitHubRefLaws.DropBranchLaw` | internal/services/github/routes_git.go:298-305 | Dropping a branch drops its head ref with it and nothing else. |
| `GitHubTrackerLaws.NextNumber` | internal/services/github/routes_issues.go:406-419 | With issues numbered 1..n and every pull paired with an issue, the running maximum over both tables gives n + 1. |
| `GitHubTrackerLaws.CreateIssueLaw` | internal/services/github/routes_issues.go:215-269 | Creating an issue keeps numbers 1..n, pull/issue pairing, closing times and all counters exact. |
| `GitHubTrackerLaws.PatchIssueLaw` | internal/services/github/routes_issues.go:282-359 | An issue patch, with the pull synchronised from it, keeps pull and issue equal, closing time set exactly when closed, merged pulls closed, and the counters exact. |
| `GitHubTrackerLaws.CreatePullLaw` | internal/services/github/routes_pulls.go:105-164 | Creating a pull adds an issue of the same number that agrees with it, and keeps all of the above. |
| `GitHubTrackerLaws.PatchPullLaw` | internal/services/github/routes_pulls.go:193-244 | A pull patch, mirrored to its issue, keeps pull and issue equal and the counters exact. |
| `GitHubTrackerLaws.ClosePullLaw` | internal/services/github/routes_pulls.go:307-335 | Closing a pull and its issue by a merge keeps the pairing and takes exactly one from the open count, without help of the clamp at zero. |
| `GitHubTrackerLaws.CreateCommentLaw` | internal/services/github/routes_comments.go:83-125 | A new comment raises the count of its issue and, for a pull issue, of its pull, and both equal the stored comments. |
| `GitHubTrackerLaws.DeleteCommentLaw` | internal/services/github/routes_comments.go:160-182 | Deleting a comment lowers exactly those counts; they stay equal to the stored comments, so the clamp never acts. |
| `GitHubTrackerLaws.UncountLaw` | internal/services/github/routes_comments.go:160-196 | The loop that decrements every issue of a number changes exactly one issue and its pull. |
| `GitHubTrackerLaws.OpenCountUpdate` | internal/services/github/routes_issues.go:421-431 | The open count follows the change of state of one issue; the clamp at zero is never reached. |
| `GitHubTrackerEffects.EitherRoute` | internal/services/github/routes_issues.go:282-404 | Patching title, body and state of a pull through the issue route and through the pull route leaves the same repository and the same answer. |
| `GitHubTrackerEffects.ReopenUndoesClose` | internal/services/github/routes_issues.go:300-358 | Closing an open issue or pull and reopening it gives back the repository as it was, counter included. |
| `GitHubTrackerEffects.PatchIssueOutcome` | internal/services/github/routes_issues.go:282-359 | Exactly when an issue patch is done; it then changes that issue and its pull only, and the open count moves with the state. |
| `GitHubTrackerEffects.DeleteUndoesComment` | internal/services/github/routes_comments.go:83-196 | Deleting a comment just made gives back the repository as it was, both counters included. |
| `GitHubMerges.MergeObjectsOk` | internal/services/github/routes_pulls.go:289-305 | Before the merge commit is stored, its parents and its tree are in the base repository, for all three merge methods and for the same or another head repository. |
| `GitHubMerges.MergeEventOk` | internal/services/github/routes_pulls.go:256-342 | A merge keeps every invariant of every repository. |
| `GitHubMergeEffects.MergeEffect` | internal/services/github/routes_pulls.go:306-336 | After a merge the pull is merged and closed and its issue closed at the same instant, no other issue or pull changed, the open count is one less, and the head branch and ref are gone where the settings ask for it. |
| `GitHubHistory.MergeOutcome` | internal/services/github/routes_pulls.go:299-335 | The base ref stands at the merge commit; every other surviving ref of the repository stands where it was. |
| `GitHubRuns.CreateRepoOk` | internal/services/github/routes_repos.go:182-329 | A new repository, empty or with its initial commit, satisfies all invariants and its owner's public count stays exact. |
| `GitHubRuns.PatchRepoOk` | internal/services/github/routes_repos.go:331-411 | A patched repository keeps the invariants; a change of visibility moves the owner's public count by exactly one. |
| `GitHubRuns.DeleteRepoOk` | internal/services/github/routes_repos.go:413-433 | Deleting a repository with all its rows keeps the invariants and the owner's public count. |
| `GitHubRuns.OwnerLoses` | internal/services/github/routes_repos.go:525-542 | The decrement of the public count never meets the clamp at zero. |
| `GitHubHistory.EventKeepsOk` | internal/services/github/routes_git.go:113-227 | Every request keeps the whole invariant: self-contained objects, agreement between repositories, the branch/ref mirror, pull/issue pairing, numbers 1..n, exact counters. |
| `GitHubHistory.ReachableIsOk` | internal/services/github/routes_pulls.go:62-342 | The invariant holds in every state reachable from the empty service by any sequence of requests. |
| `GitHubHistory.EventKeepsHistory` | internal/services/github/routes_git.go:156-204 | One request keeps the old tip of a ref in the history of its new tip, unless it is a forced patch of that ref or a merge of a pull recorded at another base commit. |
| `GitHubHistory.RunKeepsHistory` | internal/services/github/routes_git.go:156-204 | Over whole runs without such requests, every commit reachable from an earlier tip of a ref stays reachable from its later tip. |
| `GitHubHistory.MergeIsForwardIff` | internal/services/github/routes_pulls.go:299-332 | A merge keeps the base branch's history if and only if the pull's recorded base commit, or for a merge commit its head, already contains the branch's tip. |
| `GitHubStalePull.StalePullLosesHistory` | internal/services/github/routes_pulls.go:299-332 | A run from the empty service: a repository with its first commit, a branch, two pulls, a squash merge of the first. Every value drawn is as its source gives it; the merge of the second pull then succeeds and drops the squashed commit from the history of `main`. |
| `GitHubPullCommits.EventKeepsPullsResolve` | internal/services/github/routes_pulls.go:105-342 | Every request keeps the base commit of each pull in its repository, and its head commit in the head repository for as long as that exists. |
| `GitHubPullCommits.RunKeepsPullsResolve` | internal/services/github/routes_pulls.go:105-342 | The same over whole runs. |
| `GitHubPullCommits.MergeAlwaysResolves` | internal/services/github/routes_pulls.go:256-304 | In every reachable state a merge goes through if and only if there is such a pull, open and no draft, at the head asked for, with an allowed method and a head repository that exists: the answer that its commits cannot be resolved is never given. |
| `GitHubMergedPulls.EventKeepsPulls` | internal/services/github/routes_pulls.go:179-342 | Every request leaves the pulls of a repository that is still there in place, under their numbers, and those merged merged. |
| `GitHubMergedPulls.MergedForGood` | internal/services/github/routes_pulls.go:203-259 | In every run from the empty service a merged pull is merged and closed for good, for as long as its repository exists, and every request to merge it again is refused. |
| `GitHubService.Service.HandleCreateRef` | internal/services/github/routes_git.go:113-154 | The handler, changing its collections in place, refines the step that the laws above are about, and keeps the invariant. |
| `GitHubService.Service.HandlePatchRef` | internal/services/github/routes_git.go:156-204 | The handler, changing its collections in place, refines the step that the laws above are about, and keeps the invariant. |
| `GitHubService.Service.HandleDeleteRef` | internal/services/github/routes_git.go:206-227 | The handler, changing its collections in place, refines the step that the laws above are about, and keeps the invariant. |
| `GitHubService.Service.HandleCreateIssue` | internal/services/github/routes_issues.go:215-269 | The handler, changing its collections in place, refines the step that the laws above are about, and keeps the invariant. |
| `GitHubService.Service.HandlePatchIssue` | internal/services/github/routes_issues.go:282-359 | The handler, changing its collections in place, refines the step that the laws above are about, and keeps the invariant. |
| `GitHubService.Service.HandleCreatePull` | internal/services/github/routes_pulls.go:62-166 | The handler, changing its collections in place, refines the step that the laws above are about, and keeps the invariant. |
| `GitHubService.Service.HandlePatchPull` | internal/services/github/routes_pulls.go:179-245 | The handler, changing its collections in place, refines the step that the laws above are about, and keeps the invariant. |
| `GitHubService.Service.HandleMergePull` | internal/services/github/routes_pulls.go:247-342 | The handler, changing its collections in place, refines the step that the laws above are about, and keeps the invariant. |
| `GitHubService.Service.HandleCreateComment` | internal/services/github/routes_comments.go:83-125 | The handler, changing its collections in place, refines the step that the laws above are about, and keeps the invariant. |
| `GitHubService.Service.HandleDeleteComment` | internal/services/github/routes_comments.go:160-182 | The handler, changing its collections in place, refines the step that the laws above are about, and keeps the invariant. |
| `GitHubService.Service.HandleCreateRepo` | internal/services/github/routes_repos.go:182-329 | The handler, changing its collections in place, refines the step that the laws above are about, and keeps the invariant. |
| `GitHubService.Service.HandlePatchRepo` | internal/services/github/routes_repos.go:331-411 | The handler, changing its collections in place, refines the step that the laws above are about, and keeps the invariant. |
| `GitHubService.Service.HandleDeleteRepo` | internal/services/github/routes_repos.go:413-433 | The handler, changing its collections in place, refines the step that the laws above are about, and keeps the invariant. |
| `YamlText.StripYAMLComment` | internal/core/config/yaml.go:390-421 | The flag-driven scan cuts at the first hash outside quotes that starts the line or follows a blank. |
| `YamlText.SplitYAMLKeyValue` | internal/core/config/yaml.go:252-284 | The flag-driven scan splits at the first colon outside quotes that ends the text or has a blank behind it. |
| `YamlText.UnquoteQuote` | cmd/emulate/main.go:836-839 | Unquoting a quoted string gives the string back, for every string. |
| `YamlText.QuoteIsToken` | internal/core/config/yaml.go:252-284 | A quoted string is one token: neither scanner sees a mark inside it, and behind it each is outside quotes again. |
| `YamlText.QuoteHasNoBreak` | cmd/emulate/main.go:836-839 | A quoted string has no line break, so it stays on its line. |
| `YamlParser.TokenizeYAML` | internal/core/config/yaml.go:53-79 | The loop over the source lines gives the lines that are neither blank nor comment, with their indentation, and refuses tabs and odd indentation. |
| `YamlParser.Parser.Block` | internal/core/config/yaml.go:81-96 | The method and the position it leaves are those of the recursive specification of a block. |
| `YamlParser.Parser.Fields` | internal/core/config/yaml.go:98-123 | The loops over mapping entries refine the specification, same errors and same position. |
| `YamlParser.Parser.Sequence` | internal/core/config/yaml.go:125-168 | The loop over sequence items refines the specification. |
| `YamlParser.Parser.Item` | internal/core/config/yaml.go:137-166 | One item: nested value, first field with the fields below it, or scalar. |
| `YamlParser.Parser.Value` | internal/core/config/yaml.go:196-208 | The value behind a key: nested, block scalar or scalar. |
| `YamlParser.Parser.Nested` | internal/core/config/yaml.go:245-250 | A nested value exists exactly when the next line is indented more than its parent. |
| `YamlParser.Parser.BlockScalar` | internal/core/config/yaml.go:210-243 | The loop over the lines of a block scalar, folding and chomping as the marker says. |
| `YamlParser.ParseYAMLDocument` | internal/core/config/yaml.go:21-51 | The document parser refines the specification: a mapping with nothing behind it, or an error. |
| `YamlPrinter.TopLevelConfigKeys` | cmd/emulate/main.go:704-725 | Exactly the keys of the configuration, in the order tokens, services, the rest sorted. |
| `YamlPrinter.Builder.WriteField` | cmd/emulate/main.go:727-766 | Appends exactly the lines of the field; refuses exactly the values of unsupported types. |
| `YamlPrinter.Builder.WriteMap` | cmd/emulate/main.go:768-775 | Appends exactly the lines of the map, keys sorted. |
| `YamlPrinter.Builder.WriteMapSlice` | cmd/emulate/main.go:777-834 | Appends exactly the lines of the list of maps. |
| `YamlPrinter.Builder.WriteItem` | cmd/emulate/main.go:777-834 | The separately written first field of an item gives the same lines as a map whose first line moved behind a dash. |
| `YamlPrinter.Builder.WriteScalar` | cmd/emulate/main.go:836-852 | Appends the scalar, and refuses exactly the unsupported types. |
| `YamlPrinter.EncodeYAML` | cmd/emulate/main.go:694-702 | Gives the printed document exactly when all values are of supported types. |
| `GoNumbers.ItoaReadsBack` | internal/core/config/yaml.go:315-317 | A printed 64-bit integer is parsed back as the same integer. |
| `YamlRoundTrip.ScalarIsToken` | internal/core/config/yaml.go:286-322 | Every printed scalar is one token and is parsed back as its value. |
| `YamlRoundTrip.FieldTextLaw` | internal/core/config/yaml.go:252-284 | A printed field is one clean line and splits into its key and its value, for every readable key and every scalar. |
| `YamlRoundTrip.TokenizeRender` | internal/core/config/yaml.go:53-79 | The tokenizer gives back exactly the printed lines. |
| `YamlRoundTrip.ValueReadsBack` | internal/core/config/yaml.go:196-208 | At any nesting, the parser reads a printed value back and stops at the line behind it. |
| `YamlRoundTrip.FieldsReadBack` | internal/core/config/yaml.go:98-123 | The fields of a printed map are read back on top of those read before. |
| `YamlRoundTrip.ItemsReadBack` | internal/core/config/yaml.go:125-168 | The items of a printed list of maps are read back in order. |
| `YamlRoundTrip.PrintedReadsBack` | internal/core/config/yaml.go:21-51 | Round trip: for every configuration of maps, lists of maps, lists of strings, strings, booleans and 64-bit integers with readable keys, at any nesting, parsing the printed text gives the same value. |
| `YamlRoundTrip.PrinterIsFaithful` | cmd/emulate/main.go:694-702 | Two configurations that print the same have the same value. |
| `YamlRoundTrip.PrintAndParse` | cmd/emulate/main.go:694-867 | The printer and the parser as they run, one behind the other, give the value back. |
| `YamlRoundTrip.PlainWordIsReadable` | internal/core/config/yaml.go:252-284 | Every identifier, and more generally every word without white space, colon, hash and quotes, is a readable key. |
| `YamlKeys.ColonKeyIsLost` | internal/core/config/yaml.go:252-284 | Concrete keys: `a: b` is not read back, `a:b` and `a b` are. |
| `YamlKeys.KeyReadsBackIff` | internal/core/config/yaml.go:98-123 | The exact condition on a key: the printed document of that one key is parsed back to it if and only if the key is readable, that is trimmed, on one line, no list item, and without an open quote, a comment or a separating colon. |
| `RecordStore.ReachableIsSound` | internal/core/store/store.go:182-394 | After any run from a new collection every record carries its id; on runs that store nothing under the largest 64-bit id, the auto id is above every stored id and all ids are positive. |
| `RecordStore.StepKeepsNumbered` | internal/core/store/store.go:188-194 | A step keeps the auto id above every stored id if and only if it does not store something under the largest 64-bit id, where the next auto id wraps around. |
| `RecordStore.InsertReplacesIff` | internal/core/store/store.go:182-208 | For every collection: an insert without a positive id stores its record under the auto id, changes no other, and replaces a record instead of adding one if and only if there is one under the auto id. |
| `RecordStore.FreshInsertOverwritesNothing` | internal/core/store/store.go:182-208 | While the auto id is above every stored id, an insert without a positive id adds one record and changes no other. |
| `RecordStore.LastIdOverwrites` | internal/core/store/store.go:188-194 | Concrete run after which the auto id is in use: the next insert without an id takes the place of a stored record. |
| `RecordStore.SnapshotAccepted` | internal/core/store/store.go:345-359 | A snapshot is accepted for restore exactly when all stored ids are positive. |
| `RecordStore.SnapshotRestoresIff` | internal/core/store/store.go:335-394 | For every collection whose records carry their ids, as all reachable ones do: its snapshot is accepted and gives items, fields and auto id back, whatever the target held, if and only if all ids are positive and the auto id is above them all, or has wrapped around behind the largest 64-bit id while that is in use. |
| `RecordStore.OwnSnapshotRefused` | internal/core/store/store.go:345-359 | Concrete run (the largest id, then an insert without one) after which no restore accepts the snapshot of the collection. |
| `RecordStore.RestoreWrapsAuto` | internal/core/store/store.go:381-392 | Concrete run (the largest id, then a small one) after which the snapshot is accepted and gives back another auto id. |
| `RecordStore.SnapshotRestores` | internal/core/store/store.go:335-394 | In particular a collection whose auto id is above every stored id is given back by its snapshot. |
| `RecordStore.IndexedIsScanIff` | internal/core/store/store.go:292-315 | The indexed look-up returns the same records in the same order as the scan if and only if the key is not the printed nil or no record lacks the field. |
| `RecordStore.IndexMissesNil` | internal/core/store/store.go:292-315 | Concrete run: the scan for nil finds a record that lacks the field, the index on that field does not. |
| `RecordStore.FoundLaw` | internal/core/store/store.go:292-315 | A look-up returns, in id order, exactly the records whose field prints as the key asked for; an index leaves nil and missing values out, so with and without one agree for every key but that of nil. |
| `StoreObjects.AddedAgrees` | internal/core/store/store.go:416-432 | Adding a record to an index keeps it in agreement with the records: an id is in a bucket exactly when that record has a non-nil value with that key, and no bucket is empty. |
| `StoreObjects.RemovedAgrees` | internal/core/store/store.go:434-450 | Removing a record from an index keeps the agreement, empty buckets dropped. |
| `StoreObjects.AgreeingIndexUnique` | internal/core/store/store.go:416-450 | Only one index agrees with given records, so equal records mean equal indexes, as after a restore. |
| `StoreObjects.Collection.AddToIndexes` | internal/core/store/store.go:416-432 | The loop over the indexes adds the record to each of them. |
| `StoreObjects.Collection.RemoveFromIndexes` | internal/core/store/store.go:434-450 | The loop over the indexes removes the record from each of them. |
| `StoreObjects.Collection.constructor` | internal/core/store/store.go:169-180 | A new collection has normalised fields, empty agreeing indexes and auto id one. |
| `StoreObjects.Collection.Insert` | internal/core/store/store.go:182-208 | Stores the stamped record under the chosen id, replaces what was there in the indexes, and keeps indexes and records in agreement. |
| `StoreObjects.Collection.Update` | internal/core/store/store.go:220-241 | Patches everything but the id, indexes kept in agreement; a missing id changes nothing. |
| `StoreObjects.Collection.UpdateFunc` | internal/core/store/store.go:243-272 | As an update with the patch computed from the record, or nothing when it is refused. |
| `StoreObjects.Collection.Delete` | internal/core/store/store.go:274-284 | Removes exactly that record, indexes kept in agreement. |
| `StoreObjects.Collection.FindBy` | internal/core/store/store.go:292-315 | Bucket or scan: the records the look-up specification names, in id order. |
| `StoreObjects.Collection.Clear` | internal/core/store/store.go:323-333 | Empties records and indexes and resets the auto id. |
| `StoreObjects.Collection.TakeSnapshot` | internal/core/store/store.go:335-343 | All records in id order, the auto id and the fields. |
| `StoreObjects.Collection.RestoreFrom` | internal/core/store/store.go:345-394 | Accepted exactly when every item has a positive id of its own; then records, fields, auto id and indexes are rebuilt, otherwise nothing changes. |
| `WholeStore.RestoreAllLaw` | internal/core/store/store.go:120-147 | A store restore succeeds exactly when every collection's snapshot is acceptable, and then the result does not depend on the prior state or on the order the map is visited in. |
| `WholeStore.StoreSnapshotRestoresIff` | internal/core/store/store.go:93-147 | The snapshot of a store restores it, into any store and in any order of visits, if and only if each of its collections meets the condition of `SnapshotRestoresIff`. |
| `WholeStore.StoreSnapshotRestores` | internal/core/store/store.go:93-147 | In particular a store in which every auto id is above all stored ids is given back by its snapshot. |
| `WholeStore.RefusedRestoreUnchangedIff` | internal/core/store/store.go:120-147 | With some snapshot unacceptable, the restore leaves the store as it was, whatever order the map is visited in, if and only if the snapshot drops no collection, every collection with an acceptable snapshot already is what it says, and every other one named is there with the same fields. |
| `WholeStore.UnchangedInOrder` | internal/core/store/store.go:124-140 | For one order of visits: a refused restore changes nothing exactly when no collection is dropped and those visited before the refused one already hold what their snapshots say. |
| `WholeStore.RefusedRestoreLosesCollection` | internal/core/store/store.go:124-140 | Concrete refused restore that has dropped a collection. |
| `StoreRoot.Store.Named` | internal/core/store/store.go:37-53 | Returns the named collection, makes it on first use, and refuses other index fields. |
| `StoreRoot.Store.Reset` | internal/core/store/store.go:79-91 | Empties every collection in place and the data. |
| `StoreRoot.Store.Snapshots` | internal/core/store/store.go:93-118 | The snapshot of every collection, and the data. |
| `StoreRoot.Store.RestoreFrom` | internal/core/store/store.go:120-147 | The in-place restore of collection objects refines the specification, refusals half-way included. |
| `Router.SearchLaw` | internal/core/http/router.go:256-298 | Sound and complete: a division of the parts among the segments is found whenever there is one, and the one found is greediest from the left. |
| `Router.MatchSegments` | internal/core/http/router.go:256-298 | The backtracking matcher over the shared map succeeds exactly when a division exists; the map then gains exactly the bindings of the greediest one, and a failed match adds nothing and drops at most the names it tried, so it leaves a map without those names as it was. |
| `Router.MatchRegex` | internal/core/http/router.go:267-280 | The loop over the runs of a regular-expression parameter, longest first, with set and delete on the shared map. |
| `Router.MatchRoute` | internal/core/http/router.go:240-254 | A route accepts a request exactly when method and path fit, and hands out the parameters of the greediest division. |
| `Router.Dispatch` | internal/core/http/router.go:196-230 | The first accepting route handles the request; a HEAD request falls back to the first GET route; fallback or not-found otherwise. |
| `Router.PathJoins` | internal/core/http/router.go:358-374 | Splitting a path loses nothing: the parts joined give the normalised path. |
| `Router.PathSplits` | internal/core/http/router.go:358-374 | Splitting a path built from slash-free parts gives the parts. |
| `GmailHistory.HistoryReplays` | internal/services/google/routes_gmail.go:972-1100 | From the current history id of any reachable mailbox, after any further run, folding all rows above it over what was known gives exactly the current messages, and the current labels of every message known that still exists. |
| `GmailHistory.NewMessageReplaysIff` | internal/services/google/helpers.go:695-782 | Of a message that arrived since, the replayed labels lack exactly those it was stored with and no row took away; so the rows tell its labels if and only if they took away every label it was stored with. |
| `GmailHistory.NewMessageLabelsUnknown` | internal/services/google/helpers.go:727-728 | Concrete run showing that the rows do not carry the labels a message arrived with. |
| `GmailHistory.EventKeepsInv` | internal/services/google/helpers.go:742-862 | Every handler keeps a replayed view up to date, history ids ascending and the row list exact. |
| `GmailHistory.ReachableIsSound` | internal/services/google/helpers.go:160-169 | In every reachable mailbox history ids ascend strictly in row order, whatever the clock does, except that the two rows of one label change share theirs. |
| `GmailHistory.EventKeepsRows` | internal/services/google/helpers.go:746-761 | No handler rewrites or drops a history row. |
| `GmailLaws.SyncedDraftsLaw` | internal/services/google/helpers.go:784-830 | From any draft rows whatever, synchronising leaves exactly one row for a draft message, none for another, and the rows of other messages alone. |
| `GmailLaws.EventKeepsDrafts` | internal/services/google/helpers.go:784-862 | Every handler keeps exactly one draft row per message with DRAFT and without SENT, and none for anything else. |
| `GmailLaws.RunKeepsDrafts` | internal/services/google/routes_gmail.go:317-452 | The same over whole runs. |
| `GmailLaws.ReachableKeepsDrafts` | internal/services/google/routes_gmail.go:317-452 | In every mailbox reached from the empty one there is exactly one draft row per message with DRAFT and without SENT, and none for anything else. |
| `GmailLaws.DraftIsLive` | internal/services/google/helpers.go:784-835 | Every draft row names a live message that is a draft. |
| `GmailLaws.CleanUpIdle` | internal/services/google/routes_gmail.go:288-297 | The clean-up of stale draft rows when listing never drops one. |
| `GmailLaws.LookupIdle` | internal/services/google/routes_gmail.go:440-452 | Nor does the clean-up when looking up a draft. |
| `GmailLabels.MutatedAllLaw` | internal/services/google/routes_gmail.go:208-227 | A batch changes the labels of exactly the messages it names, repeated ids included, and nothing else of any message but its history id. |
| `GmailLabels.CreatedLaw` | internal/services/google/helpers.go:695-731 | A new message is stored as given, with the labels that the matching filters in order leave it; no other message changes. |
| `GmailLabels.FilteredLaw` | internal/services/google/helpers.go:864-876 | Running the filters changes only that message's labels, to the fold of the matching filters. |
| `GmailLabels.DeletedLabel` | internal/services/google/routes_gmail.go:784-803 | After a label is deleted no message carries it. |
| `GmailLabels.FoldLaw` | internal/services/google/helpers.go:864-876 | A label is on a message behind the filters if and only if one of them adds it and none behind that takes it away, or it was there and none takes it away. |
| `GmailLabels.StepKeepsMessagesIff` | internal/services/google/routes_gmail.go:188-803 | A step keeps messages to existing labels if and only if it does not store a message to which some filter that hits adds a label that does not exist and that no later one takes away. |
| `GmailLabels.ReachableMessagesExist` | internal/services/google/routes_gmail.go:188-803 | In every mailbox reached without such an arrival all labels on messages exist. |
| `GmailLabels.StepKeepsLabelsIff` | internal/services/google/routes_gmail.go:784-803 | A step keeps messages and filters to existing labels if and only if it does not delete a label that a filter still adds. |
| `GmailLabels.ReachableLabelsExist` | internal/services/google/routes_gmail.go:784-803 | In every mailbox reached without deleting a label that a filter still adds, messages and filters carry existing labels only. |
| `GmailLabels.DeletesUnderFilter` | internal/services/google/routes_gmail.go:784-803 | Concrete run after which a filter adds a label that does not exist. |
| `GmailLabels.DeletedLabelComesBack` | internal/services/google/helpers.go:864-876 | Concrete run from the empty mailbox (make a label, make a filter that adds it, delete the label, receive a message) after which a message carries a label that does not exist. |
| `GmailArrivals.EventKeepsAttachments` | internal/services/google/helpers.go:664-731 | Every handler keeps attachments to messages that exist. |
| `GmailArrivals.ReachableAttachmentsLive` | internal/services/google/helpers.go:850-862 | In every reachable mailbox every attachment belongs to a message that exists. |
| `GmailArrivals.RemovedTakesAttachments` | internal/services/google/helpers.go:850-862 | A deleted message takes exactly its own attachments with it. |
| `GmailArrivals.UpdateReplacesAttachments` | internal/services/google/helpers.go:1210-1228 | A draft updated from raw text has exactly the attachments of that text; other messages keep theirs. |
| `GmailArrivals.ReplyJoinsThread` | internal/services/google/helpers.go:837-848 | A message without a thread of its own joins the thread of the first message, in row order, that the first known reply header names. |
| `GmailArrivals.ThreadSorted` | internal/services/google/routes_gmail.go:676-688 | The messages of a thread come in order of time. |
| `GmailListing.GroupRows` | internal/services/google/routes_gmail.go:983-1014 | The grouping loop: ids strictly ascending, one non-empty group an id, and all groups in order are exactly the selected rows in order. |
| `GmailListing.PagesReplay` | internal/services/google/routes_gmail.go:972-1029 | A client that walks the pages of the listing from a current id gets rows that replay the mailbox. |
| `GmailService.Mailbox.GenerateHistoryID` | internal/services/google/helpers.go:160-169 | A new id above the last one, whatever the clock says. |
| `GmailService.Mailbox.UpdateMessageLabels` | internal/services/google/helpers.go:763-782 | New labels, history id, the rows of the difference, and the drafts synchronised. |
| `GmailService.Mailbox.SyncDraftState` | internal/services/google/helpers.go:784-830 | The loop over the draft rows leaves the rows of the specification. |
| `GmailService.Mailbox.ApplyFilters` | internal/services/google/helpers.go:864-876 | The loop over the filters, each on what the one before left. |
| `GmailService.Mailbox.ResolveThreadID` | internal/services/google/helpers.go:837-848 | The two loops find the thread of the specification. |
| `GmailService.Mailbox.DropAttachments` | internal/services/google/helpers.go:1210-1213 | Drops exactly the attachments of the message. |
| `GmailService.Mailbox.AttachFiles` | internal/services/google/helpers.go:1214-1227 | Appends one attachment of the message per file, in order. |
| `GmailService.Mailbox.CreateStoredMessage` | internal/services/google/helpers.go:664-731 | Attaches, picks the thread, stores, records, filters and synchronises a new message. |
| `GmailService.Mailbox.DeleteMessage` | internal/services/google/helpers.go:850-862 | Records the deletion and drops the message with its drafts and attachments. |
| `GmailService.Mailbox.ThreadMessages` | internal/services/google/routes_gmail.go:676-688 | Selecting and inserting by time gives the thread of the specification, messages of one time in row order. |
| `GmailService.Mailbox.CurrentHistoryID` | internal/services/google/routes_gmail.go:1088-1100 | The largest id on any message or row, zero if there is none. |
| `GmailService.Mailbox.HandleCreate` | internal/services/google/routes_gmail.go:317-346 | Creating a message or a draft refines its step; a draft that is reported has a row. |
| `GmailService.Mailbox.HandleModify` | internal/services/google/routes_gmail.go:188-227 | Label changes of one message or a batch refine their step; unknown labels change nothing. |
| `GmailService.Mailbox.HandleDelete` | internal/services/google/routes_gmail.go:229-241 | Deleting one message or a batch refines its step. |
| `GmailService.Mailbox.HandleModifyThread` | internal/services/google/routes_gmail.go:606-658 | Label changes of a thread in time order refine their step. |
| `GmailService.Mailbox.HandleDeleteThread` | internal/services/google/routes_gmail.go:660-674 | Deleting a thread refines its step. |
| `GmailService.Mailbox.HandleUpdateDraft` | internal/services/google/routes_gmail.go:361-393 | Updating a draft refines its step: labels, history id, fields and, for raw text, the attachments. |
| `GmailService.Mailbox.HandleSendDraft` | internal/services/google/routes_gmail.go:412-421 | Sending a draft refines its step. |
| `GmailService.Mailbox.HandleDeleteDraft` | internal/services/google/routes_gmail.go:423-438 | Deleting a draft with its message refines its step. |
| `GmailService.Mailbox.HandleListDrafts` | internal/services/google/routes_gmail.go:283-297 | Listing with clean-up refines its step. |
| `GmailService.Mailbox.HandleDeleteLabel` | internal/services/google/routes_gmail.go:784-803 | Deleting a label and taking it from every message refines its step. |
| `GmailService.Mailbox.HandleCreateFilter` | internal/services/google/routes_gmail.go:883-915 | A filter is added exactly when it acts, its labels exist and it is no duplicate. |
| `Base64.DecodeEncode` | internal/services/google/helpers.go:1353-1353 | Decoding undoes URL base64 encoding on all byte strings (section 5 of RFC 4648). |
| `Mime.SplitEntity` | internal/services/google/helpers.go:1382-1389 | The body of a non-empty entity is strictly shorter than the entity. |
| `Mime.ParseMIMEHeaders` | internal/services/google/helpers.go:1391-1409 | The loop over the header lines with unfolding of continuations (section 2.2 of RFC 5322) refines its fold. |
| `Mime.Reader.Body` | internal/services/google/helpers.go:1424-1466 | Filling in one shared result, body by body, refines the specification and terminates for every input. |
| `Mime.Reader.Multipart` | internal/services/google/helpers.go:1411-1422 | The loop over the parts of a multipart body (section 5.1 of RFC 2046); every nested body is strictly shorter. |
| `Mime.ParseRawMessage` | internal/services/google/helpers.go:1352-1380 | The reader as it runs refines the specification; text no decoder accepts is not valid. |
| `MimeRoundTrip.CutHeader` | internal/services/google/helpers.go:1382-1389 | The header block of a written message is cut off exactly, whatever the body holds. |
| `MimeRoundTrip.HeadersReadBack` | internal/services/google/helpers.go:1391-1409 | All ten headers of a written message are read back, absent ones as empty, and no other header of the body reader appears. |
| `MimeRoundTrip.MessageReadsBack` | internal/services/google/helpers.go:1230-1253 | Round trip: for trimmed headers without line breaks and any text, reading the base64 of the written message gives the same headers and the text, trimmed, and nothing else. |
| `Base64.DecodePadded` | internal/services/google/helpers.go:1433-1437 | Decoding undoes padded standard base64, the form of attachments (section 4 of RFC 4648). |
| `MimeParts.PartsReadBack` | internal/services/google/helpers.go:1411-1422 | A body written as parts between delimiters is read as those parts, each with its own headers and its whole body, in order and at any nesting. |
| `MimeParts.MultipartReadsBack` | internal/services/google/helpers.go:1352-1422 | The base64 of a message of several parts is read back part by part. |
| `MimeParts.ContentsReadBack` | internal/services/google/helpers.go:1424-1466 | Of a message of any number of plain texts, HTML texts and base64 files, the first plain and the first HTML text that are not empty come back as they were, and the bytes of all files in order. |
| `ClerkLaws.EventKeepsOrgs` | internal/services/clerk/routes_organizations.go:56-153 | Every handler keeps `members_count` and `pending_invitations_count` exact, a user at most once in an organisation, and rows with live owners. |
| `ClerkLaws.RunKeepsOrgs` | internal/services/clerk/routes_memberships.go:51-147 | The same over whole runs, so the clamps at zero never act. |
| `ClerkLaws.LeftLaw` | internal/services/clerk/routes_memberships.go:143-145 | Ending a membership removes exactly that row and keeps the counts exact. |
| `ClerkLaws.RemoveUndoesJoin` | internal/services/clerk/routes_memberships.go:51-147 | Removing a member who just joined gives back the state as it was. |
| `ClerkLaws.UserDeletedLaw` | internal/services/clerk/routes_users.go:172-197 | The cascade removes exactly the user, the user's addresses, memberships and sessions, and keeps every organisation's count exact. |
| `ClerkLaws.OrgDeletedLaw` | internal/services/clerk/routes_organizations.go:135-153 | Deleting an organisation removes exactly its rows and keeps the counts of the others. |
| `ClerkLaws.InvitedAllLaw` | internal/services/clerk/routes_invitations.go:84-107 | A bulk invitation raises the pending count by the number of invitations. |
| `ClerkLaws.RevokedLaw` | internal/services/clerk/routes_invitations.go:109-133 | Revoking a pending invitation keeps the count exact, without help of the clamp. |
| `ClerkEmails.EmailCreatedLaw` | internal/services/clerk/routes_email_addresses.go:29-62 | Creating an address keeps one primary a user and the user record naming it. |
| `ClerkEmails.EmailPatchedLaw` | internal/services/clerk/routes_email_addresses.go:64-89 | Making an address primary takes the mark from the others and renames the record. |
| `ClerkEmails.EmailDeletedLaw` | internal/services/clerk/routes_email_addresses.go:91-115 | Deleting the primary address promotes the first one left, or clears the record. |
| `ClerkEmails.EventKeepsEmails` | internal/services/clerk/routes_users.go:151-151 | Every handler keeps at most one primary address a user; user records keep naming it if and only if the step does not patch another id into one. |
| `ClerkEmails.PatchLosesName` | internal/services/clerk/routes_users.go:151-151 | Concrete run: after a patch of another id the record names none of the user's addresses. |
| `ClerkEmails.ReachableIsSound` | internal/services/clerk/routes_email_addresses.go:29-126 | In every reachable state counts are exact and each user has at most one primary address; on runs without such a patch each record names it. |
| `ClerkService.Service.MakePrimaryEmail` | internal/services/clerk/routes_email_addresses.go:117-126 | The in-place handler refines the step that the laws above are about. |
| `ClerkService.Service.HandleCreateEmail` | internal/services/clerk/routes_email_addresses.go:29-62 | The in-place handler refines the step that the laws above are about. |
| `ClerkService.Service.HandlePatchEmail` | internal/services/clerk/routes_email_addresses.go:64-89 | The in-place handler refines the step that the laws above are about. |
| `ClerkService.Service.HandleDeleteEmail` | internal/services/clerk/routes_email_addresses.go:91-115 | The in-place handler refines the step that the laws above are about. |
| `ClerkService.Service.HandleCreateUser` | internal/services/clerk/routes_users.go:77-133 | The in-place handler refines the step that the laws above are about. |
| `ClerkService.Service.HandlePatchUser` | internal/services/clerk/routes_users.go:135-170 | The in-place handler refines the step that the laws above are about. |
| `ClerkService.Service.HandleDeleteUser` | internal/services/clerk/routes_users.go:172-197 | The in-place handler refines the step that the laws above are about. |
| `ClerkService.Service.HandleCreateSession` | internal/services/clerk/routes_sessions.go:53-82 | The in-place handler refines the step that the laws above are about. |
| `ClerkService.Service.HandleCreateOrganization` | internal/services/clerk/routes_organizations.go:56-102 | The in-place handler refines the step that the laws above are about. |
| `ClerkService.Service.HandleDeleteOrganization` | internal/services/clerk/routes_organizations.go:135-153 | The in-place handler refines the step that the laws above are about. |
| `ClerkService.Service.HandleCreateMembership` | internal/services/clerk/routes_memberships.go:51-93 | The in-place handler refines the step that the laws above are about. |
| `ClerkService.Service.HandleDeleteMembership` | internal/services/clerk/routes_memberships.go:128-147 | The in-place handler refines the step that the laws above are about. |
| `ClerkService.Service.HandleCreateInvitations` | internal/services/clerk/routes_invitations.go:84-156 | The in-place handler refines the step that the laws above are about. |
| `ClerkService.Service.HandleRevokeInvitation` | internal/services/clerk/routes_invitations.go:109-133 | The in-place handler refines the step that the laws above are about. |
| `Paging.PagesPartition` | internal/services/google/routes_gmail.go:71-83 | Following the offered offsets from zero visits every item once and in order and stops; all pages but the last are full. |
| `Paging.WalkVisitsAll` | internal/services/google/routes_gmail.go:1112-1132 | The same from any offset inside the list. |
| `Paging.NextOfferedIff` | internal/services/google/routes_gmail.go:79-81 | A next page is offered exactly when items remain, if and only if the end of the page does not overflow 64 bits. |
| `Paging.PageRecords` | internal/services/google/routes_gmail.go:1112-1132 | The page is the window of the list at the offset. |
| `Paging.RequestsPartition` | internal/services/google/helpers.go:1295-1312 | Whatever page size is asked for, following the tokens as text from a request without one gives the list, each item once and in order. |
| `Paging.LastOffsetStartsOver` | internal/services/google/routes_gmail.go:79-81 | Concrete request at the end of 64-bit arithmetic: a next page is offered where none is, at a negative offset. |
| `Paging.LinkReadsBack` | internal/services/github/helpers.go:298-311 | The numbers of a link are read back as that page with that size. |
| `Paging.FollowNextVisitsAll` | internal/services/github/helpers.go:298-343 | From any page that starts inside the list, following the `next` links through the handler gives the rest of the list, each item once and in order, and ends at the page of the `last` link. |
| `Paging.NumberedPagesPartition` | internal/services/github/helpers.go:298-343 | Whatever page size is asked for, following `next` from the first page gives the list, each item once and in order, in as many answers as `last` says. |
| `Paging.LastPageNumberPanics` | internal/services/github/helpers.go:313-324 | Concrete page whose wrapped start is negative, so the slice panics. |
| `Paging.FarPageIsFirstPage` | internal/services/github/helpers.go:313-324 | Concrete page far behind the end that serves the first page. |
| `Paging.SetLinkHeader` | internal/services/github/helpers.go:326-343 | `next` is offered exactly when items remain behind the page; `last` is the rounded-up quotient. |
| `Paging.PaginateRecords` | internal/services/github/helpers.go:313-324 | The page by number, with the panic of a wrapped negative start made explicit. |
| `Paging.PageIsWindowIff` | internal/services/github/helpers.go:313-324 | The page is the window of its number if and only if its start fits 64 bits or wraps to behind the list. |

## Left out

General:

- HTTP, JSON, authentication, permissions, response formats, list sorting and seeding: presentation and I/O around the cores. Requests arrive decoded, trimmed and authorised.
- Locks and interleavings: every store method and every handler is one step.
- Deep copies of records: records are values here, so aliasing between a caller's record and the stored one cannot be expressed.

GitHub:

- Collections are grouped by repository, rows in id order, because every access goes through the repository's id; the loop of the repository delete over twelve collections is the removal of the repository's entry.
- Resolution of assignee logins and label names: the resolved ids, or that they do not resolve, are part of the request.
- `state_reason`, milestones, locks, reviews, node ids, who closed or merged, dates of commits and authors: stored and returned, never read by the modelled code.
- Short-sha look-up in read-only routes, topics, contributors, languages, files of a pull.

Configuration:

- YamlRoundTrip.PrintedReadsBack: asks for readable keys, because the printer writes keys without quoting them; `YamlKeys.KeyReadsBackIff` shows that no other key is read back.
- Line numbers in error messages, and the JSON encoding of the parsed values.
- `strconv.Unquote` of `\x` and octal escapes from 0x80 on, which give single bytes rather than runes: refused here; the printer never writes them.
- Byte order marks and text that is not UTF-8.

Record store:

- The clock: the time stamp of a write is a parameter. Values nested in a record are known by the text they print as.
- `StoreRoot.Store.RestoreFrom` takes the order in which the snapshot's map is visited as an argument.
- Unsigned integers beyond the 64-bit signed range as ids.

Router:

- Middleware chains, request ids, panics, and the parsing of patterns into segments. A regular expression is the predicate it accepts; percent-decoding is a function that may fail.

Gmail:

- One user's mailbox: the only thing another user's requests change for it is the last history id, which the event `Elsewhere` raises.
- Label lists are sets, so their order is not modelled; names, colours and conflicts of labels are not either.
- GmailService.Mailbox.CreateStoredMessage: header fields, bodies, date and snippet arrive already read (the reader itself is `Mime`); of the reply headers the message ids they name, of the attachments their names.
- GmailService.Mailbox.HandleUpdateDraft: the payload arrives already read, and the refusal of malformed raw text is not modelled.
- The contents, types and sizes of attachments; watches, send-as and forwarding addresses.
- Sorting of history rows before grouping: rows are in order already (`GmailHistory.ReachableIsSound`). A `startHistoryId` that is no number.
- History ids at the end of the 64-bit range (clock readings of the year 2262).

MIME:

- Text is a sequence of runes and UTF-8 a pair of functions that undo each other; messages that are not UTF-8 are not modelled beyond that.
- The parsing of media types and their parameters, and the replacement of HTML tags: functions of the library record.

Clerk:

- Revocation and tokens of sessions, metadata, flags, roles and permissions, verification states, expiry of invitations.

Paging:

- The query string of the links.
