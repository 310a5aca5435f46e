# Verification model of the SelfKey identity wallet

Dafny models of the parts of the wallet that transform, synchronise and account for data, with
proofs of what they keep. `dafny verify dfyconfig.toml` checks everything.

- **Documents in attributes** (`Json`, `References`, `Traversal`, `Paths`, `Documents`,
  `Transforms`, `FileOutcomes`, `RoundTrip`, `FreshNames`, `Targets`, `Courses`, `Reattach`,
  `SchemaTools`). A JSON schema and a value are walked together; file leaves are moved to a
  document list and replaced by textual references, and back. Both transforms are loops
  (`Transforms`) proved equal to a specification in two halves: where the leaves are and how the
  value is rebuilt around new ones (`Traversal`), and what one leaf does to the list
  (`Documents`); `Paths` and `FileOutcomes` say without them where files are and what is found
  there. The two round trips and their exact conditions follow.
- **Saving** (`SavedAttributes`, `SavedRoundTrip`). The store assigns ids to unsaved documents and
  substitutes them for `#ref`s; the round trip through the store.
- **Signup** (`Signup`) and **the websocket protocol** (`Lws`, `LwsOutcomes`). Which form
  parts the submitted references resolve to; a connection with several handlers in flight, each
  followed from await to await, as a class against a step machine; and what each request comes to,
  told from the events alone.
- **Repositories** (`RepositoryDiff`, `RepositoryDb`, `RepositoryStore`). A view is what a
  repository links and shows. The diff patches views, the relational steps refine view steps, and
  the registry class syncs repositories with any content, by a step relation whose runs are
  followed.
- **Transaction history** (`TxHistory`, `TxSync`, `TxMachine`, `TxUpserts`, `TxService`). Paged
  fetch, merge, upsert, watermark; a machine in which the chain grows and several wallets sync
  while pending rows come and go, the same with the gap inside an upsert, and the service's
  methods against its invariant.
- **The rate-limited queue** (`TaskQueue`).
- **Encodings** (`Numerals`, `Strings`, `Sequences`, `CallData`, `Base64`, `DataUrls`, `EthUnits`). ERC-20
  `transfer` call data (EIP-20; sections "Function Selector" and "Formal Specification of the
  Encoding" of the Solidity Contract ABI Specification), base64 (section 4 of RFC 4648), data URLs
  (section 3 of RFC 2397), unit conversion.
- **In-memory stores** (`IdentityStore`, `LastWins`).

Where the code and its own intent disagree, the model follows the code:

- an unlock whose signup check fails is answered `locked`, although the identity is unlocked and
  stays on the connection (src/main/lws/lws-service.js:64-72);
- a `version` request is dispatched to a handler that does not exist and is never answered
  (src/main/lws/lws-service.js:337-338);
- setting a wallet's documents filters on a wallet id the action does not carry
  (src/common/identity/reducers.js:54): documents with a wallet stay, so a second load lists them
  twice, and documents loaded for an attribute, which have none
  (src/common/identity/operations.js:67-71), are dropped for every attribute;
- updating a document has the type of adding one (src/common/identity/types.js:13-14), so it is
  modelled as adding;
- an upsert awaits between its look-up and its write (src/main/blockchain/tx-history.js:91-93), and
  a cleanup or another upsert in that gap can lose a mined transaction or store a hash twice;
- two wallets' syncs that go by different transactions of one hash overwrite each other's row
  (src/main/blockchain/tx-history-service.js:152-254), which then leaves the first one's history;
- an array schema without `items` throws in the transforms, but `removeMeta` gives it an empty one
  (src/common/identity/utils.js:206-208);
- a current repository entry without `json` unsets the accumulator of the diff
  (src/main/identity/repository.js:98);
- the status of a token transfer is read from its eth entry under a name the API does not use, so
  the receipt is always asked for (src/main/blockchain/tx-history-service.js:171, 196-199).

## Model

| member | source | states |
|---|---|---|
| `References.ReferenceKeyIsTheMatch` | src/common/identity/utils.js:21-29 | for every string, the key the transform looks up is exactly what the two regular expressions capture, the tag pattern winning; no key if and only if neither matches |
| `References.FreshReferenceKey` | src/common/identity/utils.js:104-106 | the reference printed for an unsaved document reads back as its own tag, for every list length |
| `References.SavedReferenceKey` | src/common/identity/utils.js:99-102 | the reference printed for a saved document reads back as its decimal id and never as a tag |
| `Paths.LeavesAreFiles` | src/common/identity/utils.js:8-150 | the leaves both transforms visit are exactly the values reachable through declared keys and array indices at a `file` schema within the depth limit, said without the walk |
| `Paths.ElsewhereUnchanged` | src/common/identity/utils.js:45-80 | whatever is put at the files, every other reached place of the value keeps what it held |
| `Paths.DeclaredKeysSurvive` | src/common/identity/utils.js:111-147 | an object is rebuilt with exactly the keys that are declared and own, an array with its length |
| `Paths.ThrowsWhere` | src/common/identity/utils.js:43-80 | both transforms throw if and only if some path leads them to `null` under an object schema that declares properties, or to an element, above the depth limit, of an array schema without `items` |
| `Traversal.LeavesOfPlug` | src/common/identity/utils.js:111-150 | a value rebuilt around given leaves has exactly those leaves, in order, and is safe to walk if the original was |
| `Traversal.PlugOfPlug` | src/common/identity/utils.js:43-150 | rebuilding an already rebuilt value overwrites its leaves and nothing else |
| `Traversal.PlugInjective` | src/common/identity/utils.js:43-150 | two rebuilt values are equal if and only if their leaves are |
| `Transforms.NormalizeDocumentsSchema` | src/common/identity/utils.js:83-150 | the recursive loops over keys and elements compute the leaf-by-leaf transform, and throw a TypeError exactly when the walk meets `null` under an object schema with properties or an element without a schema |
| `Transforms.DenormalizeDocumentsSchema` | src/common/identity/utils.js:8-81 | the same for the opposite transform: value, remaining list, and the same error condition |
| `FileOutcomes.DenormalizedLeaf` | src/common/identity/utils.js:19-41 | for every leaf and list: text that is no reference, or that refers by a key no document answers to, becomes null and leaves the list; otherwise it becomes the first document that answers, without its tag, and exactly the answering ones go, the others in order; anything else is unchanged |
| `FileOutcomes.NormalizedLeaf` | src/common/identity/utils.js:93-109 | for every leaf and list: an object or array with keys becomes `$document-` and its id, if that is truthy, the others with that id go and it is stored last; without one it becomes a reference to a tag made of the length of the list, and is stored last with the tag; anything else is unchanged |
| `FileOutcomes.DenormalizedFiles` | src/common/identity/utils.js:8-81 | what the denormaliser returns has, at every file path, what the leaf there is replaced by, looked up in the list that the leaves before it left |
| `FileOutcomes.NormalizedFiles` | src/common/identity/utils.js:83-150 | what the normaliser returns has, at every file path, the reference its leaf is replaced by, filed in the list so far |
| `FileOutcomes.MissingIsNull` | src/common/identity/utils.js:19-41 | a file path with text that is no reference, or a reference to a document that is not listed, holds null afterwards, whatever the other leaves are |
| `RoundTrip.NormalForm` | src/common/identity/utils.js:93-109 | for well-shaped leaves with distinct ids: after normalising, the list is the untouched starting documents followed by one stored document per extracted leaf, in leaf order |
| `RoundTrip.LeavesRoundTrip` | src/common/identity/utils.js:19-41 | on the list of leaves: denormalising undoes normalising if and only if the leaves are ready (no strings, arrays or stray tags, ids falsy or positive, keys pairwise distinct and answered by no kept document) |
| `RoundTrip.NormalizeThenDenormalize` | src/common/identity/utils.js:8-150 | for every schema, value, starting list and depth limit: denormalising the normalised value gives the value on its declared keys and exactly the starting documents no leaf replaced, if and only if the file leaves are ready |
| `FreshNames.FreshTagsDistinct` | src/common/identity/utils.js:103-106 | with distinct starting ids the list never shrinks, so a tag named after its length is never handed out twice |
| `FreshNames.UniqueStartIsReady` | src/common/identity/utils.js:93-109 | distinct starting ids, distinct positive leaf ids and starting tags out of the way are enough for the round trip |
| `FreshNames.EmptyStart` | src/common/identity/utils.js:83-88 | with no starting documents the round trip works if and only if the leaves are well shaped with distinct ids |
| `Reattach.DenormalizeThenNormalize` | src/common/identity/utils.js:8-150 | for every schema, value, list and depth limit: normalising the denormalised value against the leftover list returns the same value on its declared keys and a permutation of the original list if and only if every file leaf is inert or names, by its positive number or by the tag it would get again, a document listed once whose key only earlier leaves' documents share |
| `Reattach.SavedReattach` | src/common/identity/utils.js:19-41 | for leaves that refer to saved documents, in a list without repeated ids, that means: each names a listed document that no other answers for, and no two leaves are the same reference |
| `SchemaTools.ContainsFileMeans` | src/common/identity/utils.js:172-192 | `containsFile` throws exactly when it meets an array schema without `items` before any file, never when all declare theirs; otherwise it is true if and only if some value has a file leaf under the schema within the depth limit |
| `SchemaTools.SearchVerdict` | src/common/identity/utils.js:172-192 | the first thing the search meets decides: a file, an array schema without `items`, or nothing |
| `SchemaTools.NoFileNoTransform` | src/common/identity/utils.js:172-192 | if `containsFile` is false both transforms leave every list unchanged, only project the value, and throw alike |
| `SchemaTools.RemoveMetaInPlace` | src/common/identity/utils.js:194-211 | the loop that deletes and overwrites computes the cleaned schema |
| `SchemaTools.RemoveMetaIdempotent` | src/common/identity/utils.js:194-211 | `removeMeta` twice is `removeMeta` once, at every depth |
| `SchemaTools.RemoveMetaCleans` | src/common/identity/utils.js:194-211 | every node down to the depth limit is at its place in the cleaned schema, without `$id` and `$schema`, with its other keywords and its property names; nodes below are as they were |
| `SchemaTools.RemoveMetaSameOutcomes` | src/common/identity/utils.js:194-211 | neither transform does anything else with the cleaned schema, result or exception, on any value and list, if and only if cleaning hides no array schema without `items` within their depth, at any pair of depths |
| `SchemaTools.DeclaredHidesNothing` | src/common/identity/utils.js:206-208 | which is so when every array schema declares its `items` |
| `SchemaTools.RemoveMetaSameTransforms` | src/common/identity/utils.js:194-211 | where they return, the results are the same for every schema |
| `SchemaTools.RemoveMetaSameContainsFile` | src/common/identity/utils.js:172-211 | cleaning keeps what `containsFile` does, answer or exception, if and only if its search does not end at an array schema that cleaning hides, or throws later all the same |
| `SchemaTools.RemoveMetaHidesMissingItems` | src/common/identity/utils.js:206-208 | the exception: an array schema without `items` makes the transforms and `containsFile` throw, but its cleaned form does not |
| `SavedAttributes.DocumentStore.UpdateDocuments` | src/main/identity/id-attribute.js:78-100 | the upserts in list order give the rows of the specification; it fails exactly when an id is unknown at its turn, and then everything is rolled back |
| `SavedAttributes.EachKnown` | src/main/identity/id-attribute.js:81-99 | known ids are always saved; an unknown one can only pass if the store hands out that very id first |
| `SavedAttributes.UpsertWrites` | src/main/identity/id-attribute.js:81-92 | an upsert writes the columns given, keeps those of the row that are not given, and sets the id and the attribute |
| `SavedAttributes.SaveLeaves` | src/main/identity/id-attribute.js:81-92 | a save leaves every row that none of its documents has the id of |
| `SavedAttributes.UpsertIds` | src/main/identity/id-attribute.js:81-92 | an unsaved document gets a new id above all earlier ones, a saved one keeps its own; rows never hold the temporary tag |
| `SavedAttributes.UpsertDistinct` | src/main/identity/id-attribute.js:81-92 | rows have pairwise distinct ids whenever the given saved ids were distinct |
| `SavedRoundTrip.SaveRoundTrip` | src/main/identity/id-attribute.js:78-100 | normalise, save, substitute every `#ref` by its new id, denormalise: every extracted leaf comes back as its own row, other leaves unchanged, and the rows of the untouched documents are left over |
| `SavedRoundTrip.SavedLeafRow` | src/main/identity/id-attribute.js:81-93 | the row a leaf comes back as carries its own id, or one never used before, and the columns of the leaf |
| `Signup.AssembleForm` | src/main/lws/lws-service.js:217-233 | the form assembled for all attributes, or a TypeError exactly when one of them cannot be walked or has a buffer that is no text, array, array-like or serialised buffer |
| `Signup.BuildParts` | src/main/platform/relying-party.js:119-138 | the reduction fills one part per key, a later document overwriting an earlier one |
| `Signup.PartIsLeaf` | src/main/platform/relying-party.js:122-133 | every part is that of a file leaf: the key prints its id, and bytes, content type, length and file name are its own, the name made of the id if it has none |
| `Signup.AttributesPosted` | src/main/platform/relying-party.js:302-317 | the attributes are posted in order, each with its url and its schema, its file paths holding the references and every other reached place what it held |
| `Signup.FormComplete` | src/main/platform/relying-party.js:119-138 | every submitted `$document-k` names a part with that leaf's decoded bytes if and only if every file has an id and files sharing an id share their bytes |
| `Signup.PartsReferenced` | src/main/platform/relying-party.js:119-138 | then every document part is referenced by some leaf |
| `Signup.AttributeListsItsIds` | src/main/platform/relying-party.js:302-318 | then each attribute lists exactly the ids its own data refers to |
| `Signup.UnsavedLeafHasNoPart` | src/main/lws/lws-service.js:217-233 | an unsaved file is submitted as a `#ref` that no part answers to |
| `Lws.RepliesMatchRequests` | src/main/lws/lws-service.js:323-429 | over every interleaving every reply to a request carries the type it was sent with, or `error` if that was empty and the reply is one, and its message id, or else one minted by the connection |
| `Lws.RepliesDiffer` | src/main/lws/lws-service.js:408-429 | no request is answered twice, and ids minted by the connection never repeat |
| `Lws.IdleMeansAnswered` | src/main/lws/lws-service.js:35-342 | once nothing is in flight, a request has been answered if and only if it was unknown, or its kind has a handler, its payload could be taken apart, and its look-up (of the wallets and their signups, or of the wallet to unlock) did not fail |
| `Lws.LockedButUnlocked` | src/main/lws/lws-service.js:64-80 | an unlock whose signup check fails is answered `locked`, yet its key stays unlocked and a later request is let through |
| `LwsOutcomes.Outcomes` | src/main/lws/lws-service.js:35-342 | from the events alone: a request no longer in flight has been answered with exactly the response that its kind, whether its key had been unlocked when it came, and how its awaited calls ended come to, and not at all if they come to none |
| `LwsOutcomes.IdentitiesAreUnlocked` | src/main/lws/lws-service.js:58-72 | the keys on the connection are exactly those of readable unlock requests whose wallet was found and whose `identity.unlock` succeeded |
| `LwsOutcomes.UnlockReplies` | src/main/lws/lws-service.js:64-80 | an unlock is answered `unlocked` if and only if all three calls succeeded and `locked` if and only if the second or the third failed, and a failed `identity.unlock` unlocks nothing |
| `LwsOutcomes.SuccessNeedsUnlock` | src/main/lws/lws-service.js:58-255 | a successful attributes, auth or signup reply for a key comes after an event that is the success of an `identity.unlock` for that key on the same connection |
| `Lws.OneAttemptPerLogin` | src/main/lws/lws-service.js:257-294 | an answered auth or signup either failed to write its attempt or has exactly one in the log, with the success flag and error code of the reply |
| `Lws.StepKeeps` | src/main/lws/lws-service.js:35-342 | every step of every handler keeps the invariant behind these four |
| `Lws.WSConnection.Send` | src/main/lws/lws-service.js:408-429 | the reply takes the request's id or mints one, and an untyped error is typed `error` |
| `Lws.WSConnection.HandleRequest` | src/main/lws/lws-service.js:323-342 | a handler up to its first await: the new state, and the invariant |
| `Lws.WSConnection.ResumeHandler` | src/main/lws/lws-service.js:58-255 | a handler from one await to the next: the new state, and the invariant |
| `Lws.WSConnection.RecordAttempt` | src/main/lws/lws-service.js:257-294 | the write of the login attempt: the new state, and the invariant |
| `Lws.WSConnection.SendResponse` | src/main/lws/lws-service.js:274-274 | the reply after it: the new state, and the invariant |
| `Lws.WSConnection.HandleGarbled` | src/main/lws/lws-service.js:388-401 | an unparsable message is answered with `invalid_message` |
| `RepositoryDiff.DiffAttributes` | src/main/identity/repository.js:90-137 | throws exactly when an entry without `json` leaves the accumulator unset and it is used again; otherwise the two lists are the diff, deletions in any key order, or both empty when the accumulator stays unset |
| `RepositoryDiff.PatchIsRebuild` | src/main/identity/repository.js:90-146 | for every pair of contents, patching a view by the diff equals rebuilding it: for the links always, for the UI schemas if and only if each one the current content names goes to the same type by both contents, or is released and first claimed by an entry that is no repetition; urls may be swapped |
| `RepositoryDiff.PatchedUi` | src/main/identity/repository.js:90-168 | what the patched view shows for each UI schema, for every pair of contents |
| `RepositoryDiff.WellFormedAgree` | src/main/identity/repository.js:94-132 | for current content with distinct urls that condition is that no UI url of an unchanged entry is named earlier in the new content for another type |
| `RepositoryDiff.WellFormedClaims` | src/main/identity/repository.js:103-132 | new content with distinct `json` and distinct `ui` urls always meets it |
| `RepositoryDiff.DuplicateJsonGoesStale` | src/main/identity/repository.js:94-101 | an instance where it fails: with a duplicate `json` a UI schema survives its own deletion |
| `RepositoryDb.AddRefines` | src/main/identity/repository.js:148-168 | `addAttribute` on the tables is one addition to its repository's view, for any type the repository has no stale rows for, and changes no other repository's rows |
| `RepositoryDb.DeleteRefines` | src/main/identity/repository.js:170-187 | `deleteAttribute` is one deletion from its repository's view; rows the repository still has for the type become stale, and may dangle; no other repository's rows change |
| `RepositoryDb.DeleteSound` | src/main/identity/repository.js:178-186 | it keeps type urls unique and links and attributes resolvable, and drops exactly a type that no repository links and no identity attribute uses |
| `RepositoryDb.UpdateRefines` | src/main/identity/repository.js:139-146 | for every pair of contents: all deletes and then all adds patch that repository's view, stale at most for deleted types, and no other repository's |
| `RepositoryDb.UpdateLinks` | src/main/identity/repository.js:139-168 | whatever UI schemas are shown, the linked types are exactly the new `json` urls afterwards |
| `RepositoryDb.SyncAgrees` | src/main/identity/repository.js:189-207 | for every pair of contents: after a sync the linked types are exactly the new `json` urls, and the tables show the new content, with no row more, under the condition of the diff and no other |
| `RepositoryDb.ShowsUnique` | src/main/identity/repository.js:139-187 | the tables show at most one view of a repository |
| `RepositoryDb.ShownIsWhole` | src/main/identity/repository.js:148-187 | a UI row of a repository that shows a view is for a type that exists and is linked |
| `RepositoryStore.Registry.AddAttribute` | src/main/identity/repository.js:148-168 | the method writes the tables as the step says |
| `RepositoryStore.Registry.DeleteAttribute` | src/main/identity/repository.js:170-187 | the method writes the tables as the step says |
| `RepositoryStore.Registry.AddRemoteRepo` | src/main/identity/repository.js:189-212 | for any content: a diff that throws changes nothing; otherwise the content is saved, a repository that agreed with its content agrees with the new one exactly under the condition, and the others agree as before; and for entries that all name a type, the links are exactly the types named |
| `RepositoryStore.RefetchNamed` | src/main/identity/repository.js:90-207 | on the entries themselves: when all name a type, bare or by `json`, a repository right before is linked after a fetch to exactly the types named; a new one also shows exactly the UI schemas given, each for the type of the first entry with it, and none for a bare url |
| `RepositoryStore.RunNamed` | src/main/identity/repository.js:139-212 | over any run from an empty registry with such content, every repository is linked to exactly the types its saved entries name |
| `RepositoryStore.RunShown` | src/main/identity/repository.js:139-212 | if besides no content names a type or gives a UI schema twice, it shows exactly the UI schemas given |
| `RepositoryStore.AttributeSteps` | src/main/identity/id-attribute.js:63-121 | an identity attribute of an existing type comes under a new id, or one goes, and nothing else changes |
| `RepositoryStore.RefetchResyncs` | src/main/identity/repository.js:195-206 | the exact condition, including current content whose last entry has no `json` |
| `RepositoryStore.RefetchLinks` | src/main/identity/repository.js:195-206 | the links agree after a sync unless the saved content ended without a `json` and had others |
| `RepositoryStore.Registry.Run` | src/main/identity/repository.js:139-212 | over any sequence of syncs of several repositories and of identity attributes coming and going: the run is one of the step relation, every url has the content saved last for it, the attributes are accounted for, and published content leaves every repository in agreement |
| `RepositoryStore.RunContents` | src/main/identity/repository.js:189-212 | at every point of a run each url has the last content whose diff did not throw, and urls not fetched keep theirs |
| `RepositoryStore.CompleteIsSaved` | src/main/identity/repository.js:94-101 | when every entry has its `json`, that is the content fetched last |
| `RepositoryStore.RunUsage` | src/main/identity/repository.js:170-187 | no sync drops an identity attribute or changes its type; they are those created and not deleted |
| `RepositoryStore.RunAgrees` | src/main/identity/repository.js:139-212 | published content keeps every repository in agreement with its own saved content |
| `RepositoryStore.RunLinks` | src/main/identity/repository.js:139-212 | content whose entries all have a `json`, duplicates or not, keeps every repository's links right |
| `RepositoryStore.NothingDangles` | src/main/identity/repository.js:148-187 | when all repositories agree, no UI row refers to a type or link that is gone |
| `TxHistory.TxTable.AddOrUpdate` | src/main/blockchain/tx-history.js:86-94 | one row per hash is inserted or patched field by field, by a look-up and a write of what it found |
| `TxHistory.UpsertUnique` | src/main/blockchain/tx-history.js:86-94 | an upsert keeps hashes unique and stores the hash |
| `TxHistory.UpsertColumns` | src/main/blockchain/tx-history.js:86-94 | after an upsert the hash has one row, with the columns of the data and, of the others, what they were; every other row is as it was |
| `TxHistory.UpsertKeepsMined` | src/main/blockchain/tx-history.js:86-94 | an upsert leaves every other hash as it was; its own is mined afterwards exactly if the data says so, or says nothing and it was |
| `TxHistory.TxTable.RemoveNotMinedPendingTxs` | src/main/blockchain/tx-history.js:122-134 | exactly the wallet's unmined rows below the nonce, or without one, go |
| `TxHistory.CleanupLeaves` | src/main/blockchain/tx-history.js:122-134 | a row stays, as it was, if and only if it has a block number, or a nonce that is not below the given one, or has neither sender nor recipient in common with the account |
| `TxHistory.CleanupKeepsMined` | src/main/blockchain/tx-history.js:122-134 | the removal keeps hashes unique and every mined row |
| `TxSync.FetchHistory` | src/main/blockchain/tx-history-service.js:267-297 | the paged loop ends after max/1000 + 1 rounds, however the two lists end, and its map has exactly both lists' hashes, each slot filled from the right list |
| `TxSync.ProcessTransaction` | src/main/blockchain/tx-history-service.js:152-222 | the record filled field by field is the specified row, and null exactly where the code gives up (no sender or recipient, or no contract information where it is needed) |
| `TxSync.AcceptedWhen` | src/main/blockchain/tx-history-service.js:152-222 | a hash is accepted if and only if its transaction has a sender and a recipient, and the contract of the token is known where the listing lacks its description or the value is zero |
| `TxSync.ProcessedColumns` | src/main/blockchain/tx-history-service.js:164-195 | an accepted row has the hash, the block and the nonce of its transaction, the lower-cased sender as `from` and the lower-cased recipient as `to` |
| `TxSync.ProcessedToken` | src/main/blockchain/tx-history-service.js:170-219 | its contract, token symbol and status, by case: token transfer with or without description, transaction with a value, failed transfer |
| `TxMachine.NextKeeps` | src/main/blockchain/tx-history-service.js:152-316 | chain growth, page fetches, stores, finishing, aborting, local sends and cleanups all keep the invariant |
| `TxMachine.StoredBelongs` | src/main/blockchain/tx-history-service.js:152-254 | the row of a hash a sync stored has sender, recipient, block and nonce of the transaction it was made from, each in its column, and is in the history of exactly its two parties: of the syncing wallet, and no longer of a wallet whose sync had stored another transaction of the same hash |
| `TxMachine.HistoryLists` | src/main/blockchain/tx-history-service.js:258-285 | the lists a sync fetches have exactly the wallet's transactions of their kind in the block range |
| `TxMachine.MarkAfterSync` | src/main/blockchain/tx-history-service.js:258-282 | a sync that finishes moves its wallet's mark to the head the chain had when it began |
| `TxMachine.SyncedHistoryIsStored` | src/main/blockchain/tx-history-service.js:152-316 | over every run, each hash of a wallet that `processTx` accepts at or below the wallet's last synced block has a stored mined row, and no hash has two rows |
| `TxMachine.MinedStays` | src/main/blockchain/tx-history-service.js:238-316 | no step of any run removes a mined row |
| `TxUpserts.GapKeeps` | src/main/blockchain/tx-history.js:86-94 | with the upsert split into look-up and write, a step keeps the invariant if and only if no row has appeared where none was found, and a mined transaction whose pending row is gone is stored mined all the same |
| `TxUpserts.KeptIffHarmless` | src/main/blockchain/tx-history.js:86-94 | over every run of the split machine, syncs, sends and cleanups of several wallets in any gap: the invariant holds throughout if and only if every write met that guard |
| `TxUpserts.HarmlessIsStored` | src/main/blockchain/tx-history.js:86-94 | then everything up to the last synced blocks is stored, each hash once |
| `TxUpserts.FinishedWithout` | src/main/blockchain/tx-history-service.js:238-299 | a sync whose last write lost its row finishes with the transaction missing below its mark |
| `TxUpserts.LostInTheGap` | src/main/blockchain/tx-history-service.js:258-316 | such a run: a cleanup of the recipient removes the pending row between the look-up and the patch of the sender's sync |
| `TxService.TxHistoryService.ProcessTxHistory` | src/main/blockchain/tx-history-service.js:238-254 | storing the merged hashes, in any key order, settles all of them |
| `TxService.TxHistoryService.SyncByWallet` | src/main/blockchain/tx-history-service.js:258-299 | a whole sync keeps the invariant, moves only this wallet's mark to the head, and clears its flag |
| `TxService.TxHistoryService.RemoveNotMinedPendingTxs` | src/main/blockchain/tx-history-service.js:309-316 | the cleanup after a sync keeps the invariant |
| `TaskQueue.RateLimited` | src/common/utils/async-task-queue.js:5-35 | over every run, whatever times the timers fire: tasks start in push order, each once, one at a time and at least `delay` apart, and no window of length T holds more than T/delay + 1 starts |
| `TaskQueue.StartsWhenDue` | src/common/utils/async-task-queue.js:13-21 | a task that is dequeued, or whose timer fires, starts at once if and only if it is the first or the delay since the last start is over; otherwise it is held and nothing else changes |
| `TaskQueue.HeldTaskStarts` | src/common/utils/async-task-queue.js:16-21 | a held task starts at its first timer at or after that time, whatever is pushed and however early other timers fire |
| `TaskQueue.DrainedMeansDone` | src/common/utils/async-task-queue.js:13-35 | a free worker with an empty list has run every pushed task |
| `TaskQueue.StepKeeps` | src/common/utils/async-task-queue.js:13-32 | every push, timer and callback keeps the starts `delay` apart and every task in exactly one place |
| `TaskQueue.AsyncTaskQueue.HandleTask` | src/common/utils/async-task-queue.js:13-32 | re-arms the timer or starts the executor, with the new earliest time |
| `TaskQueue.AsyncTaskQueue.PushTask` | src/common/utils/async-task-queue.js:33-35 | a pushed task waits behind all others |
| `TaskQueue.AsyncTaskQueue.DequeueTask` | src/common/utils/async-task-queue.js:9-13 | the free worker takes the longest waiting task; new state, and the invariant |
| `TaskQueue.AsyncTaskQueue.TimerFired` | src/common/utils/async-task-queue.js:16-19 | a timer hands its task back to the handler; new state, and the invariant |
| `TaskQueue.AsyncTaskQueue.TaskEnded` | src/common/utils/async-task-queue.js:21-31 | the callback frees the worker; new state, and the invariant |
| `CallData.GetDataObj` | src/common/utils/eth-utils.js:145-152 | the loop concatenates the padded words after the function selector |
| `CallData.ContractOutToArray` | src/common/utils/eth-utils.js:120-127 | the in-place loop gives the canonical words, or a TypeError when there is no whole word |
| `CallData.WordsReadBack` | src/common/utils/eth-utils.js:120-152 | splitting the concatenation of padded words of at most 64 digits gives them back without leading zeros, with or without `0x`, values unchanged |
| `CallData.TransferDecodes` | src/common/transaction/operations.js:177-184 | for an address of forty digits in either case, with `0x` or without, the call data is the selector and two 32-byte words that read as the number of those digits and the amount if and only if the amount is below 2^256 |
| `CallData.TransferAmount` | src/common/transaction/operations.js:177-184 | that amount is the typed amount times 10^decimals |
| `CallData.SanitizeIdempotent` | src/common/utils/eth-utils.js:88-98 | `sanitizeHex` twice is once, and it changes nothing exactly when the text is empty or prefixed, non-empty and even |
| `CallData.SanitizeKeepsValue` | src/common/utils/eth-utils.js:88-98 | sanitised hexadecimal text, given with `0x` or without, has `0x`, an even number of digits and the value it had |
| `CallData.TransferIsSanitized` | src/common/transaction/operations.js:204-209 | `sanitizeHex` leaves the call data unchanged |
| `Base64.DecodeEncode` | src/common/utils/document.js:8-15 | base64 (section 4 of RFC 4648) decodes to the encoded bytes for every buffer, and never contains a semicolon |
| `Base64.GroupValue` | src/common/utils/document.js:8-15 | three bytes and their four sextets are the same 24-bit number (section 4 of RFC 4648) |
| `DataUrls.DataUrlSplits` | src/common/utils/document.js:13-15 | the URL splits in two, at the right place, if and only if the mime type does not contain the delimiter |
| `DataUrls.DataUrlRoundTrip` | src/common/utils/document.js:1-16 | `bufferFromDataUrl(formatDataUrl(mime, buffer))` is the buffer if and only if the mime type does not contain the delimiter |
| `DataUrls.ResaveKeepsBytes` | src/main/identity/identity-service.js:61-122 | loading a document and saving it again keeps its bytes under the same condition, an empty buffer always |
| `EthUnits.WithinHalf` | src/common/utils/eth-units.js:61-66 | a converted number is within half of 10^-20 of the exact quotient, for every pair of units |
| `EthUnits.TiesAwayFromZero` | src/common/utils/eth-units.js:61-66 | a tie rounds away from zero, for both signs |
| `EthUnits.ThereAndBackExact` | src/common/utils/eth-units.js:61-66 | converting every number of a given scale to another unit and back is exact if and only if the input and the converted numbers have at most 20 decimal places |
| `EthUnits.SmallerUnitExact` | src/common/utils/eth-units.js:61-66 | to a smaller unit and back is exact for inputs of at most 20 decimals |
| `EthUnits.WeiThereAndBack` | src/common/utils/eth-units.js:3-48 | of the named units, every integer number of wei survives the trip through a unit if and only if it is ether or smaller |
| `EthUnits.WeiEtherWei` | src/common/utils/eth-units.js:45-59 | wei to ether to wei is the identity on all integers |
| `LastWins.LatestUnique` | src/common/prices/reducers.js:7-15 | symbols in the merged list are unique |
| `LastWins.LatestIsOverride` | src/common/prices/reducers.js:7-15 | looking a symbol up in the merged list is looking it up in the override map |
| `LastWins.MergeOverrides` | src/common/wallet-tokens/reducers.js:8-16 | a symbol looked up in a merge is found in the new batch if it is there, and in the old list otherwise |
| `LastWins.MergeTwice` | src/common/wallet-tokens/reducers.js:8-16 | two merges, one after the other, are one merge of the concatenation of their batches, order included |
| `LastWins.UpdatesCompose` | src/common/wallet-tokens/reducers.js:8-16 | so are any number of updates |
| `IdentityStore.ReduceKeeps` | src/common/identity/reducers.js:51-233 | every action keeps id list and index in agreement, for documents and attributes |
| `IdentityStore.StoreConsistent` | src/common/identity/reducers.js:197-233 | over every action sequence |
| `IdentityStore.OneHalf` | src/common/identity/reducers.js:51-233 | each action changes the attributes or the documents and leaves the other half |
| `IdentityStore.OneItem` | src/common/identity/reducers.js:126-233 | what each action on one item does to the list of its half; an update of a document is an addition |
| `IdentityStore.SetReadsBack` | src/common/identity/reducers.js:101-112 | after setting a wallet's attributes it reads back the payload if and only if no attribute of others has an id of it |
| `IdentityStore.SetElsewhere` | src/common/identity/reducers.js:101-112 | another wallet reads what it did before if and only if it had no attribute with an id of the payload |
| `IdentityStore.DeleteReadsNothing` | src/common/identity/reducers.js:114-124 | after deleting one wallet's attributes it reads nothing and every other wallet what it read before |
| `IdentityStore.DocumentsReadBack` | src/common/identity/reducers.js:51-62 | after setting a wallet's documents exactly the payload is listed for it if and only if every document that had a wallet was another wallet's and has an id the payload does not have |
| `IdentityStore.DocumentsListed` | src/common/identity/reducers.js:51-62 | listed afterwards are the payload and the old documents that had a wallet, unless the payload has their id; documents loaded for an attribute, which have none, are dropped, whatever their attribute |
| `IdentityStore.DocumentsGroupedBack` | src/common/identity/reducers.js:51-62 | the grouping then has, for an attribute, just the payload's documents of it if and only if no document with a wallet is, as the payload has it now, one of the attribute |
| `IdentityStore.Reload` | src/common/identity/operations.js:54-59 | loading a wallet's documents again, edited or not, lists every one of them twice, both as they are now |
| `IdentityStore.DocumentsDeleted` | src/common/identity/reducers.js:89-99 | deleting a wallet's documents leaves all others, also those loaded for an attribute of the wallet |
| `IdentityStore.AddedItems` | src/common/identity/reducers.js:126-136 | an addition lists the item last, and again wherever its id was listed already |
| `IdentityStore.UpdatedItems` | src/common/identity/reducers.js:138-149 | an update patches the item wherever its id is listed, and nothing else |
| `IdentityStore.DeletedItems` | src/common/identity/reducers.js:164-178 | a deletion leaves the items with other ids, in order |
| `IdentityStore.Reindex` | src/common/identity/reducers.js:106-110 | the reduction that builds the index keeps, for each id of the list, the last item with it |
| `IdentityStore.Dispatch` | src/common/identity/reducers.js:197-233 | the switch over the action computes the specified state, the set and delete reducers by the reduction |
| `IdentityStore.AttributeDocumentsReadBack` | src/common/identity/reducers.js:64-75 | after setting an attribute's documents the grouping has the payload for it if and only if no other document has an id of it |
| `IdentityStore.AttributeDocumentsElsewhere` | src/common/identity/reducers.js:64-75 | for another attribute it has what it had before if and only if that had no document with an id of the payload |
| `IdentityStore.AttributeDocumentsGone` | src/common/identity/reducers.js:77-87 | after deleting them it has nothing for it, and for the others what it had |
| `IdentityStore.SelectDocumentsByAttributeIds` | src/common/identity/selectors.js:91-97 | the grouping has exactly the wanted attributes with documents, each with its documents in order |

## Left out

- Aliasing: the denormaliser deletes `#id` from the caller's own document object, and normalising a saved leaf lists the caller's own object; the model works on copies.
- Numbers are mathematical integers: rounding of ids above 2^53 and non-integral ids are not modelled; array or object ids are compared by content, not identity.
- Values or schemas with a property named `hasOwnProperty` or `__proto__`, which JavaScript treats specially.
- Schema validation with Ajv (src/common/identity/utils.js:152-170).
- The database library: `#ref` substitution is modelled at the file leaves only, as its documentation describes it; the deletion of an identity attribute with its documents (src/main/identity/id-attribute.js:106-121) is not modelled.
- SavedAttributes.DocumentStore.UpdateDocuments: the final upsert of the attribute, which also removes document rows it no longer lists, is not part of it.
- SavedRoundTrip.SaveRoundTrip: the upserts run one after the other in list order, although the code starts them together.
- Base64.DecodeEncode: the decoder skips every character outside the alphabet, including padding in the middle of a text.
- RepositoryStore.Registry.Run: syncs run one at a time, although several repositories may be refetched together; foreign keys are not enforced by the tables, as is the database's default.
- Signup.AssembleForm: in a buffer given as an array, elements that are text or nested lists count as 0.
- Signup.FormComplete: asks for file leaves that are no strings and for ids that are absent or positive numbers; a client that sends its own reference string at a file leaf is not modelled.
- Fetching a repository, its expiry, and a failed fetch, which changes nothing.
- TxHistory.TxTable.AddOrUpdate: the two time stamps that default to the present are not modelled; nor are they in TxUpserts.
- TxMachine.SyncedHistoryIsStored: an upsert is one step, which TxUpserts splits; what the network answers for a contract or a receipt does not change over a run, and one wallet has at most one sync in progress.
- The endless job that starts syncs, and concurrent syncs of one wallet.
- TxSync.ProcessTransaction: only the columns the history depends on; the printed amount, the time stamps and the conversion of text columns to numbers are not modelled.
- TxMachine.NextKeeps: rows stored when a transaction is sent have no block number; the paginator of transaction lists is left out.
- TxService.TxHistoryService.SyncByWallet: one sync without interleaving; TxMachine has the interleavings.
- The payloads of wallets, unlock and attributes replies, key handling, the action log text, and the check of a client's origin.
- Lws.OneAttemptPerLogin: website name, url and error message of an attempt are not modelled.
- `reqVersion`, which is not part of this repository.
- CallData.TransferAmount: only amounts that are a whole number of the smallest unit; the hexadecimal fraction printed for others is not modelled.
- The other helpers of eth-utils (checksums, signatures, trimming), fiat conversion, and names of units that are not in the table.
- Sending a transaction beyond its call data: nonces, gas, hardware wallets, listeners.
- The reducers for repositories, types, UI schemas and countries, which build the same index.
- `Exchange.import`, staking, marketplace, user interface, RPC, migrations: easier or mostly calls into code that is not part of this model.
