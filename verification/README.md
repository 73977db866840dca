# A Dafny model of Canvas Server

The stateful parts of Canvas Server, and proofs of what they promise over every run. Each module
follows one source file or one component: a class where the source is an object that updates its fields, whose methods
are proved against functions on the state; functions and lemmas where it computes values.

- **The edge tunnel.** `EdgeRegistry` (the server's table of requests in flight), `EdgeClient` (the edge that
  dispatches a request and streams the answer back in 256 KiB chunks), `Base64` (section 4 of RFC 4648), and
  `EdgeTunnel`: any number of sockets with a queue in each direction, local apps that answer in any order, timers
  that fire at any time, sockets that close, and sockets that send any frame whatever. Main results:
  `TunnelDelivers`, `RequestGetsThrough`, `AnnouncedEdgeServes`, `DroppedFailsItsRequests`.
- **The trash.** `Trash`: filing, deleting, restoring and destroying documents; `TrashLosses`: short runs that end in a
  loss; `TrashEffects`: what each call does, and to which documents alone. Main results: `NothingFiledIsLost`,
  `SafeIfRespected`, `LivesUntilEnded`, `RestoreUndoesDelete`, `MoveHalvesCommute`, `UnlinkManyIsUnlinkInTurn`.
- **The registries.** `WorkspaceRegistry` and `AgentRegistry`: stores with the indexes kept beside them, through every
  operation; `WorkspaceEffects` and `AgentEffects`: what each operation does, and to which entry alone. `Naming` has the
  suffix search and its termination, `References` the spelling of references and keys.
  Main results: `RegistryStaysConsistent`, `IndexingFromDiskKeepsRebuilt`, `IndexesStayRebuilt`,
  `CreatingKeepsRebuilt`, `StoredUntilTaken`, `SetTokenLeads`, `FoundByName`, `ResolvedByName`,
  `WorkspaceKeysSpelledApart`, `ParseConstruct`, `ConstructParse`.
- **Two migrations.** `IndexMigration` splits the global indexes per user and may be stopped between any two file
  steps; `ConfigMigration` rewrites a workspace.json. Main results: `CrashesDoNotMatter`, `EveryEntryLandsOnce`,
  `MarkerIsWrittenUnlessMissed`, `MigrationKeepsMeaning`, `MigrationIsIdempotent`.
- **Reads on a canvas.** `CanvasFold`: the stored queries of the canvases of both trees folded into a read;
  `CanvasScope`: the parent folders read instead of the canvases of a directory tree. Main results:
  `ReadIsIntersection`, `FeaturesIntersect`, `ReadsParentFolders`.
- **Smaller algorithms.** `LogStream` (cutting written text into entries, reading the last lines of a file
  backwards), `Throttle` (failed passwords), `ShareTokenCache` (ten seconds of memory), `Username` (names made from
  e-mail addresses). Main results: `ChunkInvariance`, `TailIsLastLines`, `GatedClientFails`, `BoundIsReached`,
  `TableDecidesByHistory`, `AnswersAreRecent`, `GeneratedIsValid`.
- **Shared.** `Text`, `Hyphens`, `Json`, `Wrappers`.

`dafny verify dfyconfig.toml` checks everything.

## What the proofs turned up

Where a promise does not hold for every input, a lemma says exactly when it does.

- Which calls keep every document safe is decided exactly by `Respects`, before the call (`SafeIfRespected`). The others
  are: putting a deleted document back at only the context root (`PutBackAtTheRootIsLost`), linking one at `/.trash`
  itself (`LinkedAtTheTrashHasNoRecord`), unlinking a deleted one from there, alone or in bulk
  (`UnlinkedFromTheTrashIsLost`, `UnlinkedInBulkIsLost`), a plain `delete` of one in the trash, whose record and cache
  entry stay (`DeletedInTrashLeavesRecord`), and an unlink of the last place without `trashIfOrphaned`, which is
  documented to do no more than that (`DetachedIsLost`).
- `linkMany` and `putMany` do not take a document out of the trash, as `link` does: one filed again in bulk is still
  listed there and destroyed when the trash is emptied (`LinkedInBulkIsDestroyed`).
- A bulk unlink is not the single unlinks in turn when it is aimed at `/.trash` and repeats the id of a document it
  orphans: in turn the record of that document is overwritten (`UnlinkManyIsUnlinkInTurn`, `RepeatedIdLosesRecord`).
- `restoreFromTrash` looks a recorded tree up with `getTree`, which throws when it is gone (line 2250 of
  src/core/workspace/Workspace.js), so the fallback by name and the skip after it (lines 1743-1744) never run. A
  restore gives back exactly what a delete took if and only if all recorded trees exist (`RestoreUndoesDelete`,
  `RestoreNeedsItsTree`).
- Dropping a socket whose edges were all announced again elsewhere fails none of its requests; they are left to
  their timers (`DroppedFailsItsRequests`; four steps reach it, `ReannouncedEdgeLeavesRequest`).
- A rescan that finds a registered directory under another name or host leaves the old name in the index, which a
  rebuild would drop; nothing else does (`IndexingFromDiskKeepsRebuilt`; two steps reach it, `RenamedDirectoryIsStale`).
- A workspace on a host other than the default one is not reached by its name alone (`ResolvedByName`).
- Creating an agent under an id its owner uses already, or one with a slash, is what makes the agent indexes differ
  from rebuilt ones (`CreatingKeepsRebuilt`, `ReusedIdBreaksIndexes`, `SlashedIdIsForgotten`). An agent whose name is
  twelve letters or digits, or 36 hexadecimal digits and hyphens, cannot be reached by that name (`FoundByName`).
- A migration of the indexes stopped just before its marker is written never writes it; nothing else prevents it
  (`MarkerIsWrittenUnlessMissed`), and the files are complete all the same (`CrashesDoNotMatter`).
- `#migrateConfigSchema` deletes `dataBackends` although readers still go by it when `services.stored` is a scalar
  (`MigrationKeepsMeaning`, `ScalarStoredLosesBackend`, `TrueStoredLosesMine`).
- The comment on `#composeCanvasQuerySpec` speaks of AND-composition; two `anyOf` lists are united, so a canvas can
  widen a read (`CanvasCanWiden`). For any number of canvases `FeaturesIntersect` says when it does not; with at most
  one list it never does (`OneAnyOfIntersects`). A text query folded twice is repeated (`QueryFoldedTwice`).
- The last canvas on a path wins with its saved sort, but between the two trees the context one does
  (`ContextSortWins`).
- A canvas of a directory tree listed before another one that is its parent folder is replaced by the folder above
  both (`ReadsParentFolders`, `NestedCanvasesReadTheRoot`).
- A password check is awaited between asking the throttle and telling it of the failure (lines 74-88 of
  src/transports/routes/webdav.js), so the limit of five failures in 15 minutes depends on how many checks of a key
  are in flight at once: with at most c, 2(4 + c) - 1 failures (`GatedClientFails`), a bound that is reached
  (`BoundIsReached`). Ten logins sent at once fail ten times (`TenAtOnce`).
- With enough blank lines at the end of the log file the tail reader returns nothing (`BlankLinesHideTheRest`,
  `TailIsLastLines`).

## Model

| member | source | states |
|---|---|---|
| Base64.DecodeEncode | src/edge/EdgeClient.js:101 | decoding the base64 text of any bytes gives those bytes, whatever their number |
| Base64.Alphabet | src/edge/EdgeClient.js:101 | the letters are the alphabet of RFC 4648, run by run |
| Base64.TestVectors | src/edge/registry.js:130 | the test vectors of section 10 of RFC 4648 |
| Base64.JoinedTextsDecodeWrong | src/edge/registry.js:150-153 | why pieces are decoded one by one: the joined texts of two pieces decode to the joined pieces, for a second one that starts with a byte other than zero, if and only if the length of the first is a multiple of three |
| EdgeRegistry.EdgeRegistry.Register | src/edge/registry.js:20-30 | a blank instance id is refused and changes nothing; any other is trimmed and leads to socket, user, announcement and time, replacing an earlier announcement; every other instance and every request stays as it was |
| EdgeRegistry.EdgeRegistry.ProxyRequest | src/edge/registry.js:112-134 | without an edge the request is rejected and nothing changes; otherwise a new id is pending with its timer on the socket of the edge, and the frame carries the request with its body encoded |
| EdgeRegistry.EdgeRegistry.HandleRes | src/edge/registry.js:145-148 | records the head of a request sent on this socket, and ignores any other |
| EdgeRegistry.EdgeRegistry.HandleChunk | src/edge/registry.js:150-153 | appends the decoded piece to a request sent on this socket, unless it is empty |
| EdgeRegistry.EdgeRegistry.HandleEnd | src/edge/registry.js:155-167 | settles the request once, with head and all pieces in order, or with a protocol error if no head came |
| EdgeRegistry.EdgeRegistry.HandleErr | src/edge/registry.js:169-172 | rejects a request sent on this socket with the code reported or the default one |
| EdgeRegistry.EdgeRegistry.Fail | src/edge/registry.js:174-182 | a pending request loses its timer and is rejected once; any other call does nothing |
| EdgeRegistry.EdgeRegistry.RemoveBySocket | src/edge/registry.js:94-106 | drops exactly the edges announced over the socket and, if there was one, rejects every request pending on it, however the nested loops interleave; other edges and requests stay as they were |
| EdgeRegistry.ConcatInTwo | src/edge/registry.js:161-166 | the body of a response is its pieces one after the other |
| EdgeRegistry.FailingIsIdempotent | src/edge/registry.js:96-104 | running the inner loop again for a second edge of the same socket changes nothing |
| EdgeClient.EdgeClient.HandleRequest | src/edge/EdgeClient.js:90-107 | a frame without id, method or path sends nothing; any other is dispatched, its body decoded if marked as base64 and as it is otherwise, and head, chunks and end, or an error, are sent in that order |
| EdgeClient.DispatchedIsRequested | src/edge/EdgeClient.js:91-97 | what the edge dispatches is the request the server was asked to forward, body bytes included |
| EdgeClient.ChunksAreNumbered | src/edge/EdgeClient.js:99-103 | number k of the chunks starts k times 256 KiB into the payload, is whole or ends with it, and carries its number |
| EdgeClient.ChunksCover | src/edge/EdgeClient.js:99-103 | there are as many chunks as it takes, all whole but the last |
| EdgeTunnel.AbsorbChunks | src/edge/EdgeClient.js:99-103 | the chunking loop and the piecewise reassembly cancel out for every payload length |
| EdgeTunnel.AbsorbScript | src/edge/EdgeClient.js:93-106 | the frames of an answer, received in order, settle the request with exactly that answer |
| EdgeTunnel.FramesStayOnTheirSocket | src/edge/registry.js:136-143 | a frame changes nothing about requests sent on other sockets |
| EdgeTunnel.DroppedFailsItsRequests | src/edge/registry.js:94-106 | dropping a socket leaves none of its requests pending if and only if an edge is announced over it or there were none; requests on other sockets are untouched |
| EdgeTunnel.ReannouncedEdgeLeavesRequest | src/edge/registry.js:94-106 | an edge announced again over a second socket leaves a request on the first one pending, not rejected, after that socket closed |
| EdgeTunnel.StepKeepsInv | src/edge/registry.js:93-183 | every step keeps: issued is pending plus settled, pending is the armed timers, no request is settled twice, and what has arrived and what is in transit make up the whole answer |
| EdgeTunnel.TunnelDelivers | src/edge/registry.js:112-183 | over every run, a request sent to an honest edge was dispatched as asked and, if settled, was settled once with exactly the status, headers and bytes answered for its id, or with a loss or a timeout |
| EdgeTunnel.AnswerGetsThrough | src/edge/registry.js:145-167 | on a socket that stays open, delivering what is in transit settles an answered request with its answer |
| EdgeTunnel.AnnouncedEdgeServes | src/edge/registry.js:20-30 | over any run after an announcement, without another of that instance or a close of its socket, the edge is the one announced, and a request for it goes out over that socket, last in its queue, with its timer armed |
| EdgeTunnel.RequestGetsThrough | src/edge/registry.js:112-167 | no request is forgotten: over every run, one pending on an open honest socket can be settled by its edge alone, with the answer it has or any other |
| Trash.Workspace.LoadTrashedIds | src/core/workspace/Workspace.js:1682-1689 | the cache is filled from the trash once, and kept afterwards |
| Trash.Workspace.UntrashOnLink | src/core/workspace/Workspace.js:1697-1712 | a document the cache knows leaves the trash, its record and the cache; any other is left alone |
| Trash.Workspace.Link | src/core/workspace/Workspace.js:1004-1014 | the document is filed at the given places and the context root, and untrashed |
| Trash.Workspace.TrashIfOrphaned | src/core/workspace/Workspace.js:1650-1675 | exactly a document that was filed and no longer is goes to the trash, with its former places but the context root on record |
| Trash.Workspace.Unlink | src/core/workspace/Workspace.js:1025-1043 | removes the places named, never a context root, and trashes an orphan if asked to |
| Trash.Workspace.UnlinkMany | src/core/workspace/Workspace.js:1394-1419 | all snapshots, one database call, all orphan tests: documents are unlinked together and, if asked for, exactly the orphans trashed |
| Trash.Workspace.LinkMany | src/core/workspace/Workspace.js:1384-1391 | the live documents named are filed at the given places and the context root; trash, records and cache stay as they are |
| Trash.Workspace.PutMany | src/core/workspace/Workspace.js:1067-1073 | the same for documents new or not |
| Trash.Workspace.Delete | src/core/workspace/Workspace.js:1045-1053 | a live document leaves the database; records and cache stay as they are |
| Trash.Workspace.DeleteMany | src/core/workspace/Workspace.js:1421-1429 | the live documents named leave the database, and are reported; records and cache stay as they are |
| Trash.Workspace.RestoreOne | src/core/workspace/Workspace.js:1737-1763 | recorded places are linked in order up to the first whose tree is gone; success means all were, and only then is the document untrashed |
| Trash.Workspace.RestoreFromTrash | src/core/workspace/Workspace.js:1731-1768 | documents are restored in turn, a failure of one does not stop the next, and exactly those that can be restored at their turn are reported restored, the others failed |
| Trash.Workspace.EmptyTrash | src/core/workspace/Workspace.js:1777-1793 | exactly the live documents asked for, or in the trash, are destroyed, out of database, records and cache; every other document keeps its places, its record and its membership in the cache |
| Trash.UnlinkManyIsUnlinkInTurn | src/core/workspace/Workspace.js:1394-1419 | the bulk unlink equals unlinking each document in turn, repeated ids included, if and only if it is not aimed at the trash or repeats no document that it orphans and that has a place outside the trash |
| Trash.PutKeepsSafe | src/core/workspace/Workspace.js:1697-1712 | a link keeps every document safe if it names a real place for a trashed document and not the trash |
| Trash.OtherPutsLose | src/core/workspace/Workspace.js:1004-1014 | every other link breaks safety: the document is lost or in the trash without a record |
| Trash.OtherUnlinksLose | src/core/workspace/Workspace.js:1025-1043 | every unlink of a trashed document aimed at the trash breaks safety |
| Trash.BulkUnlinkKeepsSafe | src/core/workspace/Workspace.js:1394-1419 | a bulk unlink keeps every document safe unless it is aimed at the trash and names a trashed document |
| Trash.OtherBulkUnlinksLose | src/core/workspace/Workspace.js:1394-1419 | every bulk unlink that is and does breaks safety |
| Trash.SafeIfRespected | src/core/workspace/Workspace.js:1636-1793 | of links, unlinks and deletes, single, bulk and plain, exactly those keep every document safe that respect the trash: a condition on the call and the state before it; restores and emptying always do |
| Trash.NothingFiledIsLost | src/core/workspace/Workspace.js:1636-1793 | over every run of such operations from the empty workspace, each live document once filed is at a real place or in the trash with a non-empty record, and the cache is unloaded or equal to the trash |
| TrashEffects.StepLeavesOthers | src/core/workspace/Workspace.js:1004-1043 | no call changes places, record or trash membership of a document it does not name, or, emptying the trash, find there |
| TrashEffects.LivesUntilEnded | src/core/workspace/Workspace.js:1777-1793 | over every run a document stays live exactly until a delete that names it or an emptying that names it or finds it in the trash |
| TrashEffects.PutLivesUntilEnded | src/core/workspace/Workspace.js:1004-1014 | a document once put is live until such a call |
| TrashEffects.DetachTakesPlaces | src/core/workspace/Workspace.js:1025-1043 | a plain unlink takes exactly the places named but no context root, and no record |
| TrashEffects.BulkPutAddsPlaces | src/core/workspace/Workspace.js:1384-1391 | a bulk link or put adds exactly the places named and the context root |
| TrashEffects.RestorePutsBackPlaces | src/core/workspace/Workspace.js:1737-1763 | a restore adds exactly the recorded places up to the first whose tree is gone, and takes a document out of the trash only if none is |
| TrashLosses.PutBackAtTheRootIsLost | src/core/workspace/Workspace.js:1004-1014 | a document filed, deleted and put back at the context root is at no real place and not in the trash |
| TrashLosses.LinkedAtTheTrashHasNoRecord | src/core/workspace/Workspace.js:1004-1014 | a document filed and linked at the trash is listed there without a record |
| TrashLosses.UnlinkedFromTheTrashIsLost | src/core/workspace/Workspace.js:1025-1043 | a deleted document unlinked from the trash has only the trash on record and is nowhere after a restore |
| TrashLosses.UnlinkedInBulkIsLost | src/core/workspace/Workspace.js:1394-1419 | a bulk unlink from the trash does the same |
| TrashLosses.RepeatedIdLosesRecord | src/core/workspace/Workspace.js:1394-1419 | unlinking one id twice from home and the trash gives different states in bulk and in turn |
| TrashLosses.LinkedInBulkIsDestroyed | src/core/workspace/Workspace.js:1384-1391 | a deleted document linked at home in bulk is at home and in the trash, and emptying the trash destroys it; a single link takes it out |
| TrashLosses.DeletedInTrashLeavesRecord | src/core/workspace/Workspace.js:1045-1053 | a plain delete of a trashed document leaves its record and its cache entry |
| TrashLosses.DetachedIsLost | src/core/workspace/Workspace.js:1025-1043 | an unlink of the last place without the rule for orphans leaves the document at no real place and not in the trash |
| Trash.RestoreUndoesDelete | src/core/workspace/Workspace.js:1726-1768 | restoring after an orphaning unlink gives back exactly the places there were if and only if their trees exist; otherwise the document stays in the trash with its record |
| TrashLosses.RestoreNeedsItsTree | src/core/workspace/Workspace.js:1741-1748 | with the tree of its home gone a deleted document is not restored, and stays in the trash |
| Trash.MoveHalvesCommute | src/core/workspace/Workspace.js:1691-1712 | a move ends with the same places, trash and record whichever of link and unlink lands first |
| Naming.CandidatesDiffer | src/core/workspace/index.js:1784-1789 | no two candidates of a suffix search are the same name |
| Naming.CandidateReads | src/core/workspace/index.js:1784-1789 | the first candidate is the base name, every other the base name, a hyphen and its number |
| Naming.BlockedAtMost | src/core/workspace/index.js:1784-1789 | the pigeonhole behind termination: n candidates in use need n names in use |
| Naming.FirstFreeIsUnique | src/core/workspace/index.js:1452-1455 | the base name if free, else the smallest free suffix from 2, is one definite name |
| WorkspaceRegistry.WorkspaceManager.UnambiguousName | src/core/workspace/index.js:1780-1789 | the search ends, for every index, with the first candidate that is free or held by the same id |
| WorkspaceRegistry.WorkspaceManager.RemoteName | src/core/workspace/index.js:1450-1455 | the search ends with the first candidate free on the remote host |
| WorkspaceRegistry.WorkspaceManager.CreateWorkspace | src/core/workspace/index.js:897-1004 | without name or user, under a taken name, in a directory that is a workspace or exists outside the home layout, or under a name that sanitizes to nothing it is refused and changes nothing; otherwise the workspace is stored with its owner and all three indexes lead to it |
| WorkspaceRegistry.WorkspaceManager.ResolveCollision | src/core/workspace/index.js:1753-1769 | same directory, stale entry, live duplicate or new id: what is forgotten and which id the newcomer gets |
| WorkspaceRegistry.WorkspaceManager.IndexWorkspaceFromDisk | src/core/workspace/index.js:1734-1834 | adoption, collision, renaming and registration of a found directory end in one definite state |
| WorkspaceRegistry.WorkspaceManager.AddRemoteWorkspace | src/core/workspace/index.js:1420-1491 | an entry linked to the same remote workspace is refreshed and nothing stacked; otherwise one new entry under a free name |
| WorkspaceRegistry.WorkspaceManager.TransferWorkspaceOwnership | src/core/workspace/index.js:669-710 | refused exactly for unknown, universe, remote or ambiguous workspaces and without a new owner, with nothing changed; otherwise the entry is under the new owner with a new reference and the indexes lead to it, the old place is empty, and nothing else has changed |
| WorkspaceEffects.TransferMoves | src/core/workspace/index.js:669-710 | after a transfer the id leads to the old entry under the new owner |
| WorkspaceRegistry.WorkspaceManager.ResolveWorkspace | src/core/workspace/index.js:769-782 | an identifier is an id, or else the sanitized name of a workspace of the user, on the host it names or the default one |
| WorkspaceRegistry.WorkspaceManager.RemoveWorkspace | src/core/workspace/index.js:1196-1224 | a workspace of the user, by id or name, leaves the store and all indexes; any other call changes nothing |
| WorkspaceRegistry.ResolvedByName | src/core/workspace/index.js:1554-1563 | a listed name reaches its workspace if it is its id, or no id and it is a remote name or on the default host, and only then while the indexes are exact |
| WorkspaceRegistry.WorkspaceManager.RebuildIndexes | src/core/workspace/index.js:1930-1949 | the indexes are those of adding every entry of the stores once, in some order |
| WorkspaceRegistry.RemoteNameKey | src/core/workspace/index.js:1954-1958 | a remote name `a@b` is found under the name `a` on the host `b` |
| WorkspaceRegistry.UnindexedIsNew | src/core/workspace/index.js:1710-1724 | in a consistent registry an id the index does not lead to belongs to no entry, so the linear scan it falls back to finds nothing |
| WorkspaceRegistry.NoTwins | src/core/workspace/index.js:1954-1968 | in a consistent registry no id has two owners, no user two workspaces of one name on one host, and the id index finds every entry |
| WorkspaceRegistry.RebuildChangesNothing | src/core/workspace/index.js:1930-1949 | rebuilding an exact registry, whatever the order of entries, gives the very indexes it has |
| WorkspaceRegistry.ExactIsRebuilt | src/core/workspace/index.js:1930-1949 | a consistent registry has the indexes a rebuild gives if and only if every key, id and reference in them leads to an entry that has it |
| WorkspaceRegistry.RefreshChangesNothing | src/core/workspace/index.js:1439-1445 | refreshing a registered remote entry leaves stores and indexes as they are |
| WorkspaceRegistry.IndexingFromDiskKeepsRebuilt | src/core/workspace/index.js:1758-1828 | after a registration from disk the indexes are what a rebuild gives if and only if it was not the rescan of a registered directory whose host differs, or for whose name the registered one is not the first free name |
| WorkspaceRegistry.UnchangedNeverRenames | src/core/workspace/index.js:1780-1795 | a directory whose name and host are those it is registered under is no such rescan |
| WorkspaceRegistry.RenamedDirectoryIsStale | src/core/workspace/index.js:1758-1828 | a directory registered and then found under another name leaves indexes no rebuild gives |
| WorkspaceRegistry.StepKeepsConsistent | src/core/workspace/index.js:897-1004 | every operation keeps ids unique and every entry found by id, name and reference, and the indexes exact unless it is a renaming rescan |
| WorkspaceRegistry.StepKeepsLinks | src/core/workspace/index.js:1414-1445 | every operation keeps one entry per user and remote workspace: adding it again refreshes |
| WorkspaceRegistry.RegistryStaysConsistent | src/core/workspace/index.js:1734-1834 | over every run from an empty registry: unique ids, names and remote links, every entry found, and the indexes are what a rebuild would give if and only if they are exact, as they are without renaming rescans |
| WorkspaceEffects.StepLeavesOthers | src/core/workspace/index.js:669-710 | no operation changes an entry other than the one it creates, registers, moves or removes |
| WorkspaceEffects.StoredUntilTaken | src/core/workspace/index.js:1196-1224 | over every run a workspace once stored is stored until a removal that resolves to it |
| WorkspaceEffects.RemovalTakes | src/core/workspace/index.js:1196-1224 | a removal takes the workspace it resolves to, with what led to it, and nothing else |
| WorkspaceEffects.FoundIsRegistered | src/core/workspace/index.js:1758-1828 | what a directory found is registered as, field by field, where it is found, and that no other entry changes |
| WorkspaceEffects.FoundIsNamed | src/core/workspace/index.js:1780-1795 | its name is its own sanitized one, or that with the first number no other workspace of the user on the host has |
| WorkspaceEffects.RemoteIsRegistered | src/core/workspace/index.js:1420-1491 | adding a remote workspace again changes nothing; a new one is one new entry of the user, linked to it, and found |
| WorkspaceEffects.RemoteIsNamed | src/core/workspace/index.js:1450-1458 | a new remote workspace has its sanitized name, with the first free number, at its host |
| WorkspaceEffects.SanitizedByCharacter | src/core/workspace/index.js:1981-1983 | sanitizing goes character by character: capitals become small and what is no letter, digit, `-` or `_` goes |
| References.ParseConstruct | src/core/workspace/index.js:77-121 | spelling components and parsing the text gives them back if and only if they are trimmed, the user has no colon, the host neither colon nor `@`, the slug no slash and the path starts with one |
| References.ConstructParse | src/core/agent/index.js:81-110 | parsing and spelling gives the text back if and only if its pieces had no white space around them, and always a text that parses alike |
| References.Spelling | src/core/workspace/index.js:95-121 | how references and keys of the name index are spelled |
| References.KeysSpelledApart | src/core/workspace/index.js:1954-1958 | keys of the name index are spelled apart, whatever the user id, for names without colon and hosts without `@` |
| References.WorkspaceKeysSpelledApart | src/core/workspace/index.js:1954-1968 | over every run whose hosts have no `@` the keys and references of the workspace manager are spelled apart |
| References.AgentKeysSpelledApart | src/core/agent/index.js:1406-1418 | and so are the names and references of the agents service |
| AgentRegistry.SlugLeaves | src/core/agent/index.js:135-141 | normalizing leaves exactly the names of words joined by single hyphens alone, so it is idempotent |
| AgentRegistry.SlugIsWords | src/core/agent/index.js:135-141 | a normalized name is the words of the name in small letters with one hyphen between them |
| AgentRegistry.IndexKeyParses | src/core/agent/index.js:112-117 | a store key is taken apart into what it was made of if and only if neither part has a slash |
| AgentRegistry.AgentService.Find | src/core/agent/index.js:1182-1188 | identifiers that look like ids are taken for ids, others looked up by name on the default host; unresolved, missing and foreign agents are told apart |
| AgentRegistry.AgentService.Create | src/core/agent/index.js:239-320 | invalid and taken names, invalid colors and providers that do not work are refused without a change; otherwise store, name and reference indexes gain the agent |
| AgentRegistry.AgentService.Update | src/core/agent/index.js:836-915 | a name another agent has, or a provider that does not work, is refused without a change; otherwise store and indexes move to the new name, if one is given |
| AgentRegistry.AgentService.Delete | src/core/agent/index.js:795-833 | the agent leaves the store and all three indexes |
| AgentRegistry.AgentService.PersistAccess | src/core/agent/index.js:1114-1131 | the agent has the token given, if any, and it leads to the agent; a different former one leads nowhere; nothing else has changed |
| AgentRegistry.AgentService.RotateToken | src/core/agent/index.js:535-553 | an agent without access is refused without a change; otherwise the new token replaces the old one |
| AgentRegistry.AgentService.RevokeAccess | src/core/agent/index.js:555-566 | the token is forgotten; without one nothing changes |
| AgentRegistry.AgentService.Rebuild | src/core/agent/index.js:1406-1418 | the indexes are those of adding every readable entry of the store once, in some order |
| AgentRegistry.CreatingKeepsRebuilt | src/core/agent/index.js:254-314 | after a creation the indexes are what a restart rebuilds if and only if the id was unused by the owner and neither part of the key has a slash |
| AgentRegistry.ReusedIdBreaksIndexes | src/core/agent/index.js:254-314 | two agents created under one id leave indexes no restart rebuilds |
| AgentRegistry.SlashedIdIsForgotten | src/core/agent/index.js:1406-1418 | an agent created under an id with a slash is found by its name before a restart and not after it |
| AgentRegistry.StepKeepsExact | src/core/agent/index.js:836-915 | every other operation keeps every name, reference and token leading to the agent that has it |
| AgentEffects.StepLeavesOthers | src/core/agent/index.js:1114-1131 | no operation changes an agent other than the one it creates or looks up |
| AgentEffects.StepKeepsAgent | src/core/agent/index.js:836-915 | an agent keeps id, owner and host until deleted; its name changes by an update alone, its token by a call on its access alone |
| AgentEffects.StoredUntilTaken | src/core/agent/index.js:795-833 | over every run an agent is stored until a delete of it |
| AgentEffects.SetTokenLeads | src/core/agent/index.js:1114-1131 | over every run a token set or rotated leads to its agent until the next change of its access or its deletion; the former one leads nowhere |
| AgentEffects.UnboundIsReachedByNone | src/core/agent/index.js:555-566 | once access is revoked no token leads to the agent |
| AgentEffects.CreatingAdds | src/core/agent/index.js:254-314 | a creation adds the agent, its name and its reference, and nothing else |
| AgentEffects.FoundById | src/core/agent/index.js:1182-1188 | an identifier that looks like an id finds exactly the agent under that id |
| AgentEffects.FoundIsOwned | src/core/agent/index.js:1182-1188 | what is found belongs to the one who asks |
| AgentRegistry.IndexesStayRebuilt | src/core/agent/index.js:1175-1180 | over every run the indexes are what a restart rebuilds, names are unique per owner and host, and each token leads to its one holder |
| AgentRegistry.FoundByName | src/core/agent/index.js:1182-1188 | an owner finds an agent by its name if and only if the name does not look like an id and the host is the default one, or the name is the id |
| AgentRegistry.TwelveLettersHideAgent | src/core/agent/index.js:1182-1188 | an agent created under a name of twelve letters or digits is not found by it |
| AgentRegistry.LongHexHidesAgent | src/core/agent/index.js:1182-1188 | nor is one created under a name of 36 hexadecimal digits and hyphens |
| IndexMigration.SplitKeyOfJoined | scripts/migrate-001-per-user-indexes.js:36-40 | a legacy key is split at its first slash into the user and the id it was joined from |
| IndexMigration.KeyNamesUserAndId | scripts/migrate-001-per-user-indexes.js:36-40 | a key is split exactly if it is a user and an id, neither empty, with a slash between |
| IndexMigration.Database.RunPerUserIndexMigration | scripts/migrate-001-per-user-indexes.js:76-165 | a run takes the steps of its plan one by one, so that stopped anywhere it has taken a prefix of them |
| IndexMigration.CrashesDoNotMatter | scripts/migrate-001-per-user-indexes.js:138-161 | however often a run is stopped between two steps and started again, the run that completes leaves the files of one uninterrupted run |
| IndexMigration.EveryEntryLandsOnce | scripts/migrate-001-per-user-indexes.js:102-150 | a file ends with the entries it had, unchanged, and exactly the well-formed legacy entries of its user; each lands in one file, a context as it was, a workspace with its own fields and the five the migration sets |
| IndexMigration.MigratingKeepsFields | scripts/migrate-001-per-user-indexes.js:59-119 | a migrated entry keeps every field but five: an active status becomes inactive, `importedFrom` stays or is null, `lastScannedAt` is null, and origin and remote are decided by host and root |
| IndexMigration.ItemsAtPositions | scripts/migrate-001-per-user-indexes.js:112-119 | an array spread into an entry has its items under their positions |
| IndexMigration.LegacyIsKept | scripts/migrate-001-per-user-indexes.js:152-158 | over any series of stopped runs the content of a legacy index is in its place or in its backup |
| IndexMigration.CompletedRetires | scripts/migrate-001-per-user-indexes.js:152-161 | a run to its end leaves every legacy index in a backup and none in its place |
| IndexMigration.MarkerCanBeMissed | scripts/migrate-001-per-user-indexes.js:85-87 | a run stopped just before the marker finds nothing to do next time and leaves it unwritten |
| IndexMigration.MarkerIsMissedExactly | scripts/migrate-001-per-user-indexes.js:85-87 | after one stop and a full run the marker is written if and only if the stop was anywhere else |
| IndexMigration.MarkerIsWrittenUnlessMissed | scripts/migrate-001-per-user-indexes.js:76-165 | after any series of stopped runs and a full one it is written if and only if there was something to migrate and none of them stopped there |
| ConfigMigration.Workspace.MigrateConfigSchema | src/core/workspace/Workspace.js:733-771 | the guarded steps on storage, internals and layout end in one definite configuration |
| ConfigMigration.TemplateResolves | src/core/workspace/Workspace.js:466-472 | a path below the root template and the same path relative to the root resolve to one place |
| ConfigMigration.DefaultsAgree | src/core/workspace/lib/constants.js:128-148 | in both layouts the defaults of the internals are the directories of the default layout |
| ConfigMigration.MigrationKeepsMeaning | src/core/workspace/Workspace.js:479-487 | layout and every directory resolve as before for every configuration; the storage configuration does if and only if `services.stored` is no scalar or the old form adds nothing |
| ConfigMigration.MigrationKeepsPaths | src/core/workspace/Workspace.js:492-516 | then stored's root, its cache and every backend root are found where they were |
| ConfigMigration.MigrationKeepsServices | src/core/workspace/Workspace.js:210-212 | every other service reads the same configuration after the migration |
| ConfigMigration.MigrationIsIdempotent | src/core/workspace/Workspace.js:725-732 | a second migration changes nothing, for every configuration |
| ConfigMigration.MigratedHasNewForm | src/core/workspace/Workspace.js:733-771 | a migrated configuration has internals and a layout, storage is configured if it was in either form, the old form is left only where it is no object and nothing newer is there, and nothing else changes |
| ConfigMigration.StorageIsTakenOver | src/core/workspace/Workspace.js:737-749 | what becomes of the old storage configuration: backends, root, cache, and the defaults for the rest |
| ConfigMigration.InternalsAndLayoutAreSet | src/core/workspace/Workspace.js:754-771 | internals come from the directories or the defaults, and those there are stay |
| ConfigMigration.NewStorageReads | src/core/workspace/Workspace.js:173-185 | a new storage configuration wins field by field over the defaults |
| ConfigMigration.NewBackendsRead | src/core/workspace/Workspace.js:178-183 | and its backends are merged into the default ones |
| ConfigMigration.BackendReads | src/core/workspace/Workspace.js:3791-3800 | a merged backend has its configured fields, and the default ones otherwise |
| ConfigMigration.OldStorageReads | src/core/workspace/Workspace.js:187-193 | an old storage configuration is read from `dataBackends` and `directories`, over the defaults |
| ConfigMigration.ServiceReads | src/core/workspace/Workspace.js:210-212 | a service has its configured fields, and the default ones otherwise |
| ConfigMigration.DirReads | src/core/workspace/Workspace.js:479-487 | a directory is where the internals say, or else the directories, or else the layout |
| ConfigMigration.PathReads | src/core/workspace/Workspace.js:466-472 | an absolute path is taken as it is, any other below the root, and nothing but text is a path |
| ConfigMigration.ScalarStoredLosesBackend | src/core/workspace/Workspace.js:750-752 | a backend only the old form knows is lost when `services.stored` is a scalar |
| ConfigMigration.TrueStoredLosesMine | src/core/workspace/Workspace.js:750-752 | such a configuration: `stored: true` beside one backend of one's own |
| CanvasFold.ComposeCanvasForScope | src/core/workspace/Workspace.js:2121-2184 | the loop over the paths of a read folds every canvas leaf's features, filters, query and sort in order and replaces canvases of a directory tree in the scope; without one the read is unchanged |
| CanvasFold.ComposeCanvasQuerySpec | src/core/workspace/Workspace.js:2108-2119 | the context scope is folded first, then the directory scope into the result; a preview leaves the read as it is |
| CanvasFold.CanvasOfPath | src/core/workspace/Workspace.js:2155-2160 | the canvases of a read are those its paths end on, in their order |
| CanvasFold.QueryComposes | src/core/workspace/Workspace.js:2220-2225 | a single text query is trimmed, equal ones are kept once, and of two different ones the canvas comes first |
| CanvasFold.OneCanvasQuery | src/core/workspace/Workspace.js:2163-2180 | a canvas leaves a read the composed query, or its own if that is blank |
| CanvasFold.LastSortDecides | src/core/workspace/Workspace.js:2164-2167 | the last canvas with a saved sort decides the sort |
| CanvasFold.SortOfRead | src/core/workspace/Workspace.js:2175-2183 | a sort of the read wins over a saved one, which comes with its order, the order of the read, or ascending; without canvases a read is unchanged |
| CanvasScope.ReadsParentFolders | src/core/workspace/Workspace.js:2227-2248 | a read on canvases of a directory tree reads their parent folders, and other paths as they are, if and only if no canvas is listed before one that is its parent folder |
| CanvasScope.ParentOfChild | src/core/workspace/Workspace.js:2243-2248 | the parent of a path is what stands before its last name |
| CanvasScope.NestedCanvasesReadTheRoot | src/core/workspace/Workspace.js:2227-2248 | a read on `/a/b` and then `/a`, both canvases, reads the root twice instead of `/a` and the root |
| CanvasFold.FoldedMeans | src/core/workspace/Workspace.js:2186-2211 | in general `allOf` and `noneOf` are intersected and the `anyOf` lists united |
| CanvasFold.FeaturesIntersect | src/core/workspace/Workspace.js:2186-2211 | folding any number of canvases into a read gives the intersection of all for every document if and only if `allOf` and `noneOf` clash, or every non-empty `anyOf` list meets the united `allOf`, or none does and they are alike outside `noneOf` |
| CanvasFold.OneAnyOfIntersects | src/core/workspace/Workspace.js:2108-2119 | with at most one non-empty `anyOf` list a read admits exactly what it and every canvas would admit |
| CanvasFold.PairIsIntersection | src/core/workspace/Workspace.js:2186-2211 | folding two constraints gives their intersection for every document if and only if their `anyOf` lists agree in that sense |
| CanvasFold.CanvasCanWiden | src/core/workspace/Workspace.js:2108-2119 | a canvas can let a read have a document its own constraint keeps out |
| CanvasFold.TwoScopesFold | src/core/workspace/Workspace.js:2108-2119 | folding the context canvases and then the directory canvases gives the features, filters and query of folding them all |
| CanvasFold.ContextSortWins | src/core/workspace/Workspace.js:2152-2183 | any saved sort of a context canvas, field and order, wins over those of the directory canvases |
| CanvasFold.ReadIsIntersection | src/core/workspace/Workspace.js:2108-2184 | a read on canvases of both trees selects exactly what it and every canvas would select, features and filters, if and only if their `anyOf` lists agree |
| CanvasFold.FoldingAgainChangesNothing | src/core/workspace/Workspace.js:2186-2218 | folding any canvas of a read in again changes neither the documents admitted nor the list of filters |
| CanvasFold.QueryFoldedTwice | src/core/workspace/Workspace.js:2220-2225 | the text query stays the same if and only if one is blank or both are equal |
| LogStream.BroadcastStream.Write | src/utils/log.js:269-286 | every line finished by the chunk is emitted if not blank, and the unfinished one is held back |
| LogStream.BroadcastStream.Final | src/utils/log.js:288-297 | the line held back is emitted if not blank |
| LogStream.BlankHasNoEntry | src/utils/log.js:194-198 | exactly the blank lines have no entry |
| LogStream.LineHasEntry | src/utils/log.js:194-198 | any other line has one: what is parsed from it, trimmed and with plain breaks |
| LogStream.BreakBecomesPlain | src/utils/log.js:143-145 | every `\r\n` becomes `\n` wherever it stands |
| LogStream.NoBreakStays | src/utils/log.js:143-145 | and a text without it stays as it is |
| Text.TrimCuts | src/utils/log.js:194-198 | trimming takes white space in front and at the end and nothing else |
| LogStream.WrittenSoFar | src/utils/log.js:269-286 | at any moment exactly the finished lines of all text written are emitted |
| LogStream.ChunkInvariance | src/utils/log.js:266-298 | for every cutting of a text into writes, the entries emitted in the end are those of its lines, in order |
| LogStream.ReadTailLines | src/utils/log.js:507-549 | the loop ends and returns the last clean lines of the part of the file from where reading backwards stops |
| LogStream.TailIsLastLines | src/utils/log.js:522-539 | that is the last lines of the whole file if and only if the part read has enough lines after its first break, or only blank ones before, or starts at the last line missing |
| LogStream.TailOfFileWithoutBlankLines | src/utils/log.js:522-539 | without blank lines it is, for every positive number of lines |
| LogStream.BlankLinesHideTheRest | src/utils/log.js:522-539 | a line followed by 64 Ki line breaks is not found |
| Throttle.BasicAuthThrottle.IsThrottled | src/transports/lib/basic-auth-throttle.js:18-23 | throttled means five failures in a window that has not passed; a passed one is dropped |
| Throttle.BasicAuthThrottle.RecordFailure | src/transports/lib/basic-auth-throttle.js:25-33 | a failure opens a window of 15 minutes or counts in the open one |
| Throttle.BasicAuthThrottle.ClearFailures | src/transports/lib/basic-auth-throttle.js:35-37 | forgets the failures of one key and no other |
| Throttle.TableDecidesByHistory | src/transports/lib/basic-auth-throttle.js:10-37 | for every clock that does not go back a check answers what is defined on the full history of failures |
| Throttle.GatedClientFails | src/transports/routes/webdav.js:74-88 | however the logins of all clients interleave, with at most c checks of one key in flight at most 2(4 + c) - 1 failures of that key without a success between them fall into 15 minutes |
| Throttle.GatedClientFailsNineTimes | src/transports/routes/webdav.js:74-88 | nine for a client that waits for each answer |
| Throttle.BoundIsReached | src/transports/routes/webdav.js:74-88 | for every c of at least one the bound is reached, within a millisecond |
| Throttle.TenAtOnce | src/transports/routes/webdav.js:74-88 | ten logins sent at once fail ten times |
| Throttle.NineIsReached | src/transports/lib/basic-auth-throttle.js:10-37 | nine are reached |
| Username.GenerateUsernameFromEmail | src/transports/auth/imap-strategy.js:256-303 | all loops end, and halving hyphens until none are doubled collapses every run to one |
| Username.HalvedCollapsesAlike | src/transports/auth/ldap-strategy.js:350-353 | one halving does not change what the runs collapse to |
| Username.ShortenedIsSlug | src/transports/auth/imap-strategy.js:282-287 | cutting strips one hyphen at most |
| Username.GeneratedIsValid | src/core/user/index.js:613-656 | for every address the name generated passes the rules for new users and is stored as it is |
| Username.AcceptedMeetsRules | src/core/user/index.js:612-656 | a name is accepted, in small letters and trimmed, exactly if it is 3 to 39 of the allowed characters and not reserved |
| Username.LocalPartByCharacter | src/transports/auth/imap-strategy.js:256-268 | the name is made of the local part character by character: capitals become small, `.`, `_` and `-` become `-`, letters and digits stay, anything else goes |
| Username.NameIsWords | src/transports/auth/imap-strategy.js:256-303 | the name is the words of that with hyphens between them, lengthened with `123`, cut without a hyphen at the end, or told apart from a reserved one by a `1` |
| ShareTokenCache.WorkspaceManager.ResolveWorkspaceShareToken | src/core/workspace/index.js:720-759 | a remembered binding is returned for ten seconds unless it has expired; otherwise the first workspace with the token decides, and only a found binding is remembered |
| ShareTokenCache.ScanResolves | src/core/workspace/index.js:734-757 | the scan finds exactly the unexpired binding of the first workspace that has the token |
| ShareTokenCache.ResolvedIsOfWorkspace | src/core/workspace/index.js:739-757 | a binding has id, name and owner of the workspace, the data of the token, and its permissions, reading if it has none |
| ShareTokenCache.AnswerIsRemembered | src/core/workspace/index.js:724-733 | a binding once found is answered for ten seconds, whatever becomes of the access lists, until it expires |
| ShareTokenCache.AnswersAreRecent | src/core/workspace/index.js:724-733 | in every run, an answer is one an uncached lookup would have given less than ten seconds before, and has not expired by itself |
| ShareTokenCache.RevokedWithinTTL | src/core/workspace/index.js:724-733 | a token that resolves to nothing for ten seconds is refused |
| ShareTokenCache.RefusedOnlyIfExpired | src/core/workspace/index.js:724-733 | a good token is refused only if a remembered binding of it has expired |

## Left out

- Interleavings inside one operation, failed database calls and torn file writes: operations, and file steps of the migration, are atomic. The password check, which is awaited, is the exception: its start and its end are two events.
- Text is one byte per character, with ASCII lower-casing; a character cut at a chunk boundary does not occur.
- Trash.Workspace.LinkMany: an id of no live document is left out of the call, as the database is taken to refuse it.
- The document database is the list of places of each document; recreating a missing path inside an existing tree, blobs, features and events are not modelled.
- Timestamps, labels, status, access lists and files on disk of workspaces and agents: they take no part in the indexes. `updateWorkspaceConfig` and the scan around a registration are not modelled.
- The lookup of remote workspaces by `name@host` alone (`#remoteRefIndex`): it is keyed without the user, so two users' entries share a key.
- EdgeRegistry.EdgeRegistry.RemoveBySocket: the instances removed are a set, so their order is not stated.
- Base64.DecodeEncode: says nothing about how malformed text decodes, which the model only approximates (letters of the URL alphabet are skipped).
- Relayed events, exports and access checks of the tunnel, and the messages of errors.
- WorkspaceRegistry.WorkspaceManager.AddRemoteWorkspace: demands a host without `@`, which host names taken from a URL do not have; tokens and permissions of the link are not modelled.
- References.KeysSpelledApart: a host with `@`, which only a hand-written workspace.json could name, is outside it.
- AgentRegistry.AgentService.Create: whether a provider works is a parameter; a `name` among the options, which the source would validate instead of the slug, and the files written are not modelled.
- AgentRegistry.AgentService.RevokeAccess: an access object without a token hash and no access object are one value, so what the source answers to revoking the one and the other is not told apart.
- AgentRegistry.AgentService.RotateToken: the access object is its token hash alone; its permissions and dates are not modelled.
- AgentRegistry.AgentService.Update: whether a provider works is a parameter; the other fields, and restarting a running agent, are not modelled.
- WorkspaceRegistry.WorkspaceManager.CreateWorkspace: the directories and the workspace.json it writes are not modelled, nor is the layout but for the refusal it decides.
- WorkspaceRegistry.WorkspaceManager.IndexWorkspaceFromDisk: what it writes back to workspace.json and the kind of change it reports are not modelled.
- WorkspaceRegistry.WorkspaceManager.RebuildIndexes: the lookup of remote workspaces by `name@host` alone, which it also refills, is not modelled.
- WorkspaceRegistry.WorkspaceManager.ResolveWorkspace: a name under which another user shares a workspace is not looked up; an operation on one's own workspaces refuses what it finds.
- Generated ids and minted tokens are parameters; that they are new is a condition of the runs.
- ConfigMigration.Workspace.MigrateConfigSchema: arrays and strings where the configuration should have objects contribute no fields, and a root path with a dollar sign, which `replaceAll` would expand, is taken literally.
- ConfigMigration.MigrationKeepsServices: `services.stored` has its own reader, so the merged `services` view of it is not compared.
- IndexMigration.EveryEntryLandsOnce: `path.resolve` is taken to leave stored absolute paths as they are.
- CanvasFold.ComposeCanvasForScope: a scope is the list of its paths; a scope object that spells them `directory`, whose list the rewriting does not see, is not modelled, and filters are told apart by value.
- LogStream.BroadcastStream.Write: what an entry is made of is a parameter; levels and filters are left out.
- Username.GeneratedIsValid: uniqueness among existing users is not part of the generator and not claimed.
- ShareTokenCache.WorkspaceManager.ResolveWorkspaceShareToken: loaded and unloaded workspaces are one list of access lists; a list changed in place while remembered is not modelled.
- Transports, logging setup, connectors, embeddings, search ranking, image summaries and calls to other services.
