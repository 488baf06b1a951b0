# Spine verification

A Dafny model of the versioned Task store ("the spine") behind the Claunker kanban server, and proofs of what its
protocol, its ledgers, its rank arithmetic and its card lens promise. Everything is proved for all inputs, all runs and
all interleavings unless a line under "Left out" says otherwise.

`dafny verify dfyconfig.toml` checks the whole project.

## What is modelled

**The store** (`Database`, `Tokens`, `Storage`). A database is four tables in one map plus the physical row order,
three append-only ledgers and the persisted seq high-water mark. `Storage.Store` is one connection as the program runs
it: it stages rows in an open transaction, mints a token `{seq}:{hash}` by bumping the mark, compares and swaps, and
commits or rolls back, all in place. Each method is proved against a pure description in `Database`. Seq arithmetic is
bounded by SQLite's largest integer; the seq prefix of a token is printed and parsed back explicitly.

**The facade** (`Governed`, `Spine.dfy`, `Outcomes`). `Governed` says what each write path does to one card: which
checks come first, what the new row is, which ledger rows are staged. The class `SpineFacade.Spine` performs the same
step by step on a store and is proved to do exactly that. `Outcomes` says what that amounts to without its vocabulary:
for every write path, on the stored row, the arguments and the mark alone, exactly when it succeeds, which refusal comes
when, and the row, the token, the scan order and the ledger rows it leaves.

**The protocol** (`Protocol`, `Interleavings`, `SerialRuns`, `Ledgers`, `HighWater`). Any number of connections share
one file. A guarded write reads its row outside any transaction and commits later in one serialized transaction; the
steps are open, guard-read, commit, unguarded put and load. The main results are over every finite run of these steps.
`Interleavings.UninterruptedIsExec` ties a guard-read followed at once by its commit to what the facade's methods do.

**Ranks** (`Ordering`, `RankLists`). The digit loop that mints a rank between two others, the append-at-end chain and
the fixed-width rebalance, against a recursive reference definition without loop or guard.

**Admission** (`JsonValue`, `Admission`). The two explicit-stack walks over client JSON, against the statement that
some node of the tree is over a cap.

**Cards** (`Sorting`, `CardKeys`, `Projection`, `Cards`, `Wire`, `ForeignKeys`). The one-way lens from rows to cards,
the list pipeline, the mapping of wire patches to edits, and what a client reads back after a history of writes.

**The sync merge** (`ConvergentMerge`, `MergeOrder`, `MergeSlots`, `MergeExamples`). The union of two collections by id
in which deletions win, the canonically lesser rival keeps the slot, and a displaced rival moves to a slot named after
its own content - possibly to displace something there. Entries are taken up to their canonical text, and the short hash
may collide. `ConvergentMerge` proves the merge against a closed form, every slot holds the best of everything that
arrives at it; `MergeOrder` and `MergeSlots` say exactly when order and grouping matter; `MergeExamples` writes out a
coding that meets the hypotheses and the smallest merges that break the documented laws.

**Two standalone pieces.** `Vendoring` is the stamp-and-strip pair of the deploy script, `Classifier` the fail-closed
tier of a set of tools.

The content hash, the canonical text and short hash of a synced entry, the serialized size, the ISO-8601 test, clock
readings, fresh ids, UTF-8 decoding, the SHA-256 of a module body and the expansion of a toolset name are parameters.

## Where the code and its documentation differ

- `spine/spine.py` documents a tombstone as immutable "even under `force`". Run one at a time that holds
  (`SerialRuns.SerialTombstoneFinality`). Interleaved, it does not: a forced write that read the card before the
  deletion committed brings it back (`Interleavings.ForcedWriteResurrects`). A commit disturbs a tombstone exactly when
  its pending write carries no compare-and-swap token (`Interleavings.CommitDisturbsTombstoneIff`).
- `spine/spine.py` and `spine_server/server.py` call the metadata merge RFC 7386. The code merges the top level only.
  It agrees with section 2 of RFC 7386 exactly when no object in the patch holds a null and every one of them names
  all stored keys of the object it replaces (`ForeignKeys.MergeIsRfc7386Iff`, with the smallest counterexample in
  `ForeignKeys.NestedPatchDropsSiblings`). A create, moreover, keeps null-valued keys.
- `spine/storage.py` lets the mark be re-seeded from the tables. That restores it exactly as long as the mark is the
  largest stored prefix, which every load-free run guarantees (`HighWater.MarkIsExact`) and a load may end
  (`HighWater.ExactAfterLoadIff`, with such loads in `HighWater.OlderTokenLosesTheMark` and one concrete load in
  `HighWater.SuchALoad`); the mark stays an upper bound in any case (`Protocol.SoundStep`).
- `rank_between` promises a rank for any `lo < hi`. There is none when `hi` is `lo` followed by zero digits only; the
  loop then runs into its depth guard (`Ordering.RankBetween`, `Ordering.RoomIffCanonicalBetween`, and for the bounds
  "a" and "a0" `Ordering.NoRoomBelowZeroExtension`). Minted ranks never end in a zero digit, so a list of minted ranks
  never gets there (`RankLists.InsertionClosure`).
- `spine/vendor/sync-merge.js` calls its merge commutative, associative and idempotent. Merging a collection with itself
  is always a no-op (`ConvergentMerge.SelfMerge`). The other two laws hold whenever nothing that arrives at a slot is
  contested, that is, absorbed by one rival and displaced by another (`ConvergentMerge.Commutative`,
  `ConvergentMerge.Associative`). While no input sits in the conflict slot of another and slots do not collide, the
  inputs alone decide that (`ConvergentMerge.UncontestedIffInputsAre`): it is so when a version stands for one content
  among the entries of an id (`ConvergentMerge.VersionsTellContents`), and for any two collections, which then always
  commute (`ConvergentMerge.TwoSidesCommute`). Merging more of them agrees in all orders exactly when no input is
  contested (`MergeOrder.OrderIrrelevantIff`), and three collections associate exactly when every three entries of one
  id do (`MergeOrder.AssociativeIff`). Once conflict copies are among the inputs, two collections commute exactly when,
  in every conflict slot where both hold an entry and the merge sends a copy, those three agree: in the usual listing,
  each entry before its copies, that they associate with the new copy as the middle one (`MergeSlots.CommutativeIff`).
  Both laws fail: an edit that lost to another and was deleted under its own version does not associate
  (`MergeExamples.ThreeThatDoNotAssociate`), and two deleted conflict copies do not commute although no two inputs of an
  id share a version (`MergeExamples.FourThatDoNotCommute`).

## Model

| member | source | states |
|---|---|---|
| Ordering.RankBetween | spine/ordering.py:38-68 | Succeeds exactly when both bounds are ranks, there is room between them and the reference rank is within the depth guard - which it always is for bounds shorter than the guard; each refusal is characterised by the bounds; the result is the reference rank. |
| Ordering.Betweenness | spine/ordering.py:38-68 | The minted rank is strictly between its bounds, at most one digit longer than the longer one, and never ends in '0'. |
| Ordering.MintsTheMiddle | spine/ordering.py:45-68 | Which rank is minted: the lower bound is followed to the first place where a digit fits strictly between the bounds, the upper one counting no more once they have parted, and there the lower middle is taken. |
| Ordering.RoomIffCanonicalBetween | spine/ordering.py:45-68 | The refusal is exact: there is room if and only if some rank not ending in '0' lies strictly between the bounds. |
| Ordering.NoRoomBelowZeroExtension | spine/ordering.py:45-68 | "a" and "a0" are in order and nothing can be minted between them. |
| Ordering.AppendRank | spine/ordering.py:71-74 | Appending succeeds exactly when the argument is a rank and the reference rank fits the guard, and yields a strictly greater rank not ending in '0'. |
| RankLists.SlotHasRoom | spine/ordering.py:38-68 | In a strictly sorted list of minted ranks every slot, ends included, can be minted into. |
| RankLists.InsertionClosure | spine/ordering.py:38-74 | Any sequence of inserts at any slots keeps the list strictly sorted and free of ranks ending in '0'; only the depth guard can refuse, and not before lengths have grown to it one digit an insert. |
| RankLists.AppendLaw | spine/ordering.py:26-74 | The k-th appended rank is z repeated (k-1)/6 times and then one of "irvxyz", for exactly the first 1536 appends. |
| RankLists.ChainIncreases | spine/ordering.py:50-74 | The appended ranks are strictly increasing. |
| RankLists.EncodeFixed | spine/ordering.py:82-87 | The divmod loop produces the fixed-width base-36 numeral. |
| RankLists.DecodedEncoded | spine/ordering.py:82-87 | Below 36^width the numeral reads back as the value: no wrap. |
| RankLists.EncodedOrder | spine/ordering.py:82-87 | Numeric order is string order at a fixed width. |
| RankLists.Rebalance | spine/ordering.py:90-104 | The plan keeps the ids in their order and gives them the planned ranks. |
| RankLists.RebalancePlan | spine/ordering.py:90-104 | Planned ranks do not wrap, strictly increase, and leave every one of the n+1 slots with room for another rank. |
| RankLists.StepIsWidest | spine/ordering.py:90-104 | The spacing of the plan is the widest even one: n+1 steps fit the span and n+1 of the next wider do not. |
| Admission.ExceedsDepth | spine/entity.py:119-137 | The stack walk answers true exactly when some container of the tree sits deeper than the limit; it terminates by the weight of the pending stack. |
| Admission.WalkMetadataGranularCaps | spine/entity.py:282-329 | Rejects exactly when some node exceeds the depth, key-count or string-length cap, and the error names such a node and the cap it exceeds. |
| Admission.CheckMetadataLimits | spine/entity.py:332-353 | Admits exactly the maps without a node over a cap and within the byte size. |
| Admission.MetadataAdmissibleIff | spine/entity.py:266-353 | The metadata caps node by node: containers at most four deep, at most 24 keys an object, 2048 characters a text, 32768 bytes in all. |
| Admission.CheckCreatedByLimits | spine/entity.py:140-184 | Admits exactly the provenance within the key, value-length, depth and byte caps; a refusal names the first cap, in that order, that is exceeded. |
| Admission.CreatedByAdmissibleIff | spine/entity.py:78-184 | The provenance caps: at most twelve keys besides type and id, 512 characters a text, three levels, 4096 bytes. |
| Tokens.PrefixOfMinted | spine/version.py:44-46 | The tolerant prefix parse of a minted token gives the seq it was minted from, whatever the hash. |
| Tokens.TokenParts | spine/version.py:44-46 | A token is its seq in decimal, the first colon, and the content hash. |
| Tokens.TokensTellApart | spine/version.py:44-46 | Equal tokens were minted from the same seq and the same hash. |
| Tokens.NumeralIsDecimal | spine/version.py:44-46 | Every numeral without leading zeros is the decimal of the number it reads as. |
| Tokens.PrefixOfAny | spine/storage.py:96-115 | A token without a colon, or with no number or a negative one before it, counts zero; one beyond the seq space counts as its end. |
| Tokens.ParsedNumbers | spine/storage.py:96-115 | Signs, leading zeros and single underscores between digits are read. |
| Tokens.NotNumbers | spine/storage.py:96-115 | Empty text, letters and misplaced underscores are no number. |
| Database.StampedToken | spine/storage.py:194-195 | The stored token is the decimal seq, a colon and the hash of the stored contents without their token; the contents are what was to be stored. |
| Database.SeedIsExact | spine/storage.py:297-329 | Seeding an absent mark takes exactly the largest prefix stored in the four tables. |
| Database.LoadRowsHolds | spine/storage.py:464-498 | After a load the last blob of each key is stored verbatim and every row the envelope does not name is as it was. |
| Database.LastBlobWins | spine/storage.py:464-498 | A blob that no later blob of the envelope names again is what a load leaves under its key. |
| Storage.Store.constructor | spine/storage.py:246-295 | Opening seeds an absent mark, keeps a present one, and leaves everything else. |
| Storage.Store.SeedAndLoadSeqHwm | spine/storage.py:297-317 | Returns the persisted mark, seeding it from the tables when there is none. |
| Storage.Store.MaxTableSeq | spine/storage.py:319-329 | The largest prefix over all tables. |
| Storage.Store.MaxEntitySeq | spine/storage.py:96-115 | The largest prefix among the tokens of an envelope. |
| Storage.Store.ListAll | spine/storage.py:144-158 | A table in scan order, tombstones included. |
| Storage.Store.NextSeq | spine/storage.py:331-347 | Bumps the mark inside the transaction and mirrors it in memory, or changes nothing when the seq space is spent. |
| Storage.Store.AppendTierAudit | spine/storage.py:367-381 | Adds one row to the tier ledger of the view, committed only on request. |
| Storage.Store.AppendArchiveAudit | spine/storage.py:393-415 | Adds one row unless the reason is blank, in which case nothing is staged. |
| Strings.BlankIffStripsToNothing | spine/storage.py:408-409 | A reason is blank exactly when stripping it leaves nothing. |
| Storage.Store.AppendEditAudit | spine/storage.py:427-443 | Adds one row to the edit ledger of the view, committed only on request. |
| Storage.Store.Put | spine/storage.py:166-223 | Succeeds exactly when a seq is left and no token is given or the stored row has it; then everything staged and the row are committed together, under the token made of mark + 1 and the hash of the stored contents, in place when by token and at the end of the scan when blind; otherwise the file is untouched, the error says which it was and carries the current row, and the counter is back on the mark. |
| Storage.Store.Dump | spine/storage.py:455-462 | The four collections, tokens intact. |
| Storage.Store.Load | spine/storage.py:464-498 | Replaces rows verbatim and moves counter and mark forward to the largest prefix loaded, never back. |
| SpineFacade.Spine.Guard | spine/spine.py:876-895 | Not found exactly when no row is stored; a conflict carrying the stored row exactly when it is a tombstone or, unforced, has another token than the one given; the row otherwise. |
| Outcomes.GuardOutcome | spine/spine.py:876-895 | The same of the operation's guard as the other results use it, force counting for state changes, edits and moves only. |
| Governed.CasTokenIs | spine/spine.py:897-909 | The token a write is compared by is the one given, unless a state change, an edit or a move is forced. |
| SpineFacade.Spine.HasOpenEscalation | spine/spine.py:750-759 | True exactly when a live, unresolved escalation of the card is stored. |
| SpineFacade.Spine.CheckInput | spine/spine.py:262-286 | Each demand on the input of a create, in order, with the refusal it gets. |
| SpineFacade.CreatedByShapes | spine/entity.py:84-117 | Provenance is absent or names a human or an agent with a non-empty id. |
| SpineFacade.ModelledKeyIsText | spine/entity.py:84-117 | The keys model, effort and job_id are text when present. |
| SpineFacade.ForeignKeyIsFree | spine/entity.py:84-117 | Any other key of the provenance may hold anything. |
| SpineFacade.Spine.CreateTask | spine/spine.py:238-305 | Succeeds exactly for admissible input with a rank and a seq left, and says which of them is missing; nothing is written otherwise; a default rank is minted right above the greatest live one. |
| Outcomes.CreateOutcome | spine/spine.py:287-305 | A created card is its input field by field, live, unarchived and unplanned, at the end of the scan under a fresh token; no ledger mentions it. |
| SpineFacade.Spine.SetState | spine/spine.py:307-321 | File and result are those of the described operation. |
| Outcomes.SetStateOutcome | spine/spine.py:307-321 | Succeeds exactly for a known state, a live row that is current or forced, and a seq left; each refusal and the row it leaves. |
| SpineFacade.Spine.UpdateTask | spine/spine.py:334-514 | File, ledger rows and result are those of the described operation, error order included. |
| Outcomes.UpdateOutcome | spine/spine.py:384-514 | Succeeds exactly when the patch asks for something and every field of it is in order, a token is given, the row is live and current or the edit forced, a set tier stays, the card does not depend on itself, the merged metadata keep their caps, and a seq is left; which refusal comes when one of the row's conditions fails; every field, edit row and token it leaves. |
| Outcomes.UpdateRefusals | spine/spine.py:384-428 | Which refusal comes when a condition on the patch or the token fails, in the order they are checked, whatever the row. |
| SpineFacade.Spine.MoveTask | spine/spine.py:516-541 | File and result are those of the described operation. |
| Outcomes.MoveOutcome | spine/spine.py:516-541 | As for a state change, with the order replaced when one is given. |
| SpineFacade.Spine.SoftDeleteTask | spine/spine.py:543-571 | File, the one edit row and result are those of the described operation. |
| Outcomes.SoftDeleteOutcome | spine/spine.py:543-571 | Succeeds exactly for a live, current row and a seq left, without force; leaves the tombstone and its one edit row. |
| SpineFacade.Spine.RetierTask | spine/spine.py:574-643 | File, the one tier row and result are those of the described operation. |
| Outcomes.RetierOutcome | spine/spine.py:574-643 | Succeeds exactly for a live, current, tiered row, another tier from 1 to 4, a reason that is not blank and a seq left; which error each failing condition gives, and the tier row with what it says of control. |
| SpineFacade.Spine.ArchiveTask | spine/spine.py:646-709 | File, the one archive row and result are those of the described operation, escalation gate included. |
| Outcomes.ArchiveOutcome | spine/spine.py:646-709 | Succeeds exactly for a live, current, unarchived row of which no stored escalation is live and unresolved, a reason that is not blank and a seq left; which error each failing condition gives, and the archive row. |
| SpineFacade.Spine.UnarchiveTask | spine/spine.py:711-748 | File, the one archive row and result are those of the described operation. |
| Outcomes.UnarchiveOutcome | spine/spine.py:711-748 | Succeeds exactly for a live, current, archived row, a reason that is not blank and a seq left; which error each failing condition gives, and the archive row. |
| SpineFacade.AuditEntries | spine/spine.py:440-462 | Exactly one row for each audited field whose value changes, in ledger order. |
| SpineFacade.MergeMetadata | spine/spine.py:483-488 | The key-by-key loop is the top-level null-removes merge. |
| Protocol.SoundStep | spine/storage.py:297-347 | Whatever the step - loads and forced writes included - the mark never decreases and bounds every stored prefix and every in-memory counter. |
| Protocol.InvStep | spine/storage.py:194-221 | Every step but a load keeps: a pending write was prepared from the row it read, and while the stored token is the one it read, so is the whole row. |
| Storage.Store.PutStaged | spine/storage.py:166-223 | Whatever other connections have committed since the row was read, a put of staged work is exactly the protocol's transaction - everything or nothing - and leaves the counter, after a miss, on the persisted mark; the reply carries the stored row or what it is now. |
| Protocol.NoLostUpdate | spine/storage.py:166-223 | In any load-free interleaving of any number of connections, forced and creating writes mixed in, a tokened write that commits replaces exactly the row it read and no other. |
| Interleavings.OpenedIsTame | spine/storage.py:246-317 | Any well-formed file whose mark bounds its tokens, once opened, is a state from which the theorems over tokened runs hold. |
| Interleavings.CommitIsExec | spine/spine.py:876-909 | Committing a tokened write equals running its whole operation at that moment. |
| Interleavings.UninterruptedIsExec | spine/spine.py:876-909 | Guard and commit with nothing in between equal the facade's operation, forced and tokenless ones included. |
| Interleavings.Serializable | spine/storage.py:166-223 | After any tokened interleaving tables, ledgers and mark equal running the committed operations one at a time in commit order. |
| Interleavings.LedgerReplay | spine/spine.py:431-748 | In any tokened interleaving the three ledgers lead from each card's birth to its present value, without no-op rows. |
| Interleavings.LedgersReplayToPresent | spine/spine.py:431-748 | Row by row: every audited field is what its edit rows replay to, the archive flag is what the parity of its rows says, the tier is what the last re-tier left. |
| Interleavings.TombstoneFinality | spine/spine.py:543-571 | In any tokened interleaving a deleted row, token included, never changes again. |
| Interleavings.CommitDisturbsTombstoneIff | spine/spine.py:876-909 | A commit changes a tombstone if and only if its pending write is for that card and carries no token. |
| Interleavings.ForcedWriteResurrects | spine/spine.py:897-909 | The interleaving in which a forced write undoes a committed deletion. |
| SerialRuns.SerialLedgerReplay | spine/spine.py:431-748 | The same ledger claim for operations run one at a time, forced ones included. |
| SerialRuns.SerialTombstoneFinality | spine/spine.py:876-895 | One at a time, not even force gets past a tombstone. |
| Ledgers.EditChainIsReplay | spine/spine.py:440-514 | A chain of edit rows is a replay in which each row starts from what the rows before it left and changes it. |
| Ledgers.ArchiveChainAlternates | spine/spine.py:646-748 | A chain of archive rows alternates, and the flag is the parity of their number. |
| Ledgers.TierChainLinks | spine/spine.py:618-643 | A chain of tier rows links new tier to next old tier, really changes it, stays in range and flags reductions truthfully. |
| HighWater.NoTokenMintedTwice | spine/storage.py:331-347 | Over any run of any number of connections and all tables, loads included, no token is minted twice nor equals one stored at the start. |
| HighWater.RowAbaFreedom | spine/storage.py:194-195 | Over any load-free run a stored row has the same token at both ends if and only if it has the same contents; nothing is asked of the tokens the run starts with. |
| HighWater.AbaFreedom | spine/storage.py:194-195 | Where tokens tell the rows apart at the start, equal tokens before and after a load-free run belong to the same row with the same contents, across all four tables. |
| HighWater.MarkIsExact | spine/storage.py:96-115 | From a file without a mark, every load-free run keeps the mark equal to the largest stored prefix. |
| HighWater.ReseedRestoresIffExact | spine/storage.py:297-317 | Dropping the mark and opening again restores it if and only if it was the largest stored prefix. |
| HighWater.ExactAfterLoadIff | spine/storage.py:464-498 | After a load of any envelope the mark is the largest stored prefix if and only if it is zero or carried by a blob that is not overwritten later in the envelope or by a row the envelope does not name. |
| HighWater.OlderTokenLosesTheMark | spine/storage.py:464-498 | Loading an older token over the only row that carries the mark ends its exactness. |
| HighWater.SuchALoad | spine/storage.py:464-498 | One such load, with its tokens written out. |
| Projection.BadgeForIsBadge | spine/projection.py:98-137 | The reduction yields the badge of the set of escalations: longest-waiting unresolved, else the last resolution if a deny, else none. |
| Projection.BadgeIsUnique | spine/projection.py:98-137 | A set of escalations has only one such badge. |
| Projection.BadgeTells | spine/projection.py:98-137 | The badge spelled out: that of the live unresolved escalation created first, else that of the live one resolved last if it was denied, else none, with all its fields. |
| Projection.UnresolvedBadgeIffGateIsShut | spine/projection.py:112-121 | The badge says unresolved if and only if the archive gate sees an open escalation. |
| Projection.BadgesByTask | spine/projection.py:195-207 | The grouping loop gives every card the badge of its own escalations and lists none without one. |
| Projection.ToCard | spine/projection.py:140-192 | Nothing for a missing or deleted row, otherwise the base card overlaid with the unprotected metadata. |
| Projection.CardPlaces | spine/projection.py:140-192 | What a card shows of where its task is: id, column, order, token, archive mark, badge, tier tag. |
| Projection.CardContents | spine/projection.py:140-192 | What it shows of what the task is about and where it comes from. |
| Projection.OverlayRespectsProtectedKeys | spine/projection.py:189-192 | No metadata whatsoever alters a protected key; every other key of a card shows the metadata or the documented default; a card has the keys of the surface and of its metadata and no others. |
| Projection.Project | spine/projection.py:210-221 | The live rows in (order, id) order, each rendered with the badge of its own escalations. |
| Projection.BoardIsExact | spine/projection.py:210-221 | The board of a file holds a card for every live task and for nothing else, strictly by order and then id. |
| Projection.BoardDependsOnContents | spine/projection.py:195-221 | Two scans holding the same rows in any order give the same board. |
| Projection.BoardOfRows | spine/projection.py:210-221 | Two files with the same rows show the same board. |
| Projection.DumpLoadRoundTrip | spine/storage.py:455-498 | A dump loaded into a fresh file restores all rows with their tokens, hence the board, and a mark equal to the largest prefix; the ledgers do not travel. |
| Cards.TombstoneCard | spine_server/cards.py:35-47 | The live rendering without badge and with the deletion time. |
| Cards.RenderAnyIs | spine_server/cards.py:35-47 | A deleted task shows what it showed without a badge, and when it was deleted. |
| Cards.Select | spine_server/cards.py:75-97 | Merging tombstones, sorting again and filtering the cards gives, for every flag combination, the rendering of exactly the rows that satisfy the filters stated on rows. |
| Cards.ListCards | spine_server/cards.py:60-104 | Opens, lists and filters; the complete snapshot or the size error, nothing in between. |
| Cards.SnapshotIsExact | spine_server/cards.py:75-97 | A card for every task the flags, the column and the tag let through and for no other, strictly by order and then id. |
| Wire.TierTagRoundTrip | spine_server/server.py:158-202 | A projected card read back as an input carries the tier it came from, precisely when that is not negative. |
| Wire.TierReads | spine_server/server.py:158-183 | A wire tier is an integer, or the lens's tag with its digits; anything else is refused. |
| Wire.TierFromInput | spine_server/server.py:184-202 | A native tier wins, else the first tier tag, else the card is untiered; tags that are no list are refused. |
| Wire.RefusalIs | spine_server/server.py:547-620 | What the wire refuses of a patch before anything is read, in order, condition by condition. |
| Wire.Kwargs | spine_server/server.py:582-624 | The key-presence mapping from a wire patch to the facade's arguments. |
| Wire.CardUpdate | spine_server/server.py:538-640 | Guarded patches change nothing; every other one is the facade's operation, answered with the current card or its error. |
| Wire.UpdateTold | spine_server/server.py:626-640 | What the caller of an unrefused patch is told: for a patch in order, missing exactly when there is no row, and stale exactly when the row is deleted or, unforced, has another token, with the card as the board shows it now; else the refusal; or the card it has become, as the board shows it then. |
| Wire.CardCreate | spine_server/server.py:499-521 | The created row is the input with its foreign keys preserved as metadata, nulls included, and the reply shows it; a refusal writes nothing. |
| Wire.CreateEchoes | spine_server/server.py:499-521 | The card of a created row shows its input under every modelled key, and nothing deleted, archived or planned. |
| Wire.PatchEchoes | spine_server/server.py:578-624 | After an accepted patch each modelled key shows what was sent if present, what it showed before if absent; governed and authority keys do not move. |
| Wire.OperationTouchesOnlyItsKeys | spine/spine.py:307-748 | No write path changes a protected card key it is not about. |
| Wire.OperationShowsItsKeys | spine/spine.py:307-748 | After each write path the card - the tombstone, after a delete - shows everything the call asked for, every edited field included. |
| ForeignKeys.ForeignKeyRoundTrip | spine_server/server.py:66-78 | After a create and any accepted patches among any other work, every unprotected key shows the fold of the inputs, else the documented default, else nothing; input-only keys are never shown. |
| ForeignKeys.MergeIsRfc7386Iff | spine/spine.py:479-498 | The stored merge equals RFC 7386 if and only if every object in the patch covers what it replaces. |
| ForeignKeys.NestedPatchDropsSiblings | spine/spine.py:479-488 | The smallest input on which the two differ. |
| ConvergentMerge.MergeCollection | spine/vendor/sync-merge.js:346-356 | Loading one side and then the other is adding all entries in turn to an empty collection. |
| ConvergentMerge.CombineKeepsTheBetter | spine/vendor/sync-merge.js:250-280 | Of two rivals the better one - tombstone first, then canonically lesser - stays, and the other is re-homed exactly when it is live and of another version, whichever comes first. |
| ConvergentMerge.TwoRivals | spine/vendor/sync-merge.js:199-292 | The merge of two rivals in either order, spelled out: the winner under the id, and a live loser of another version whole in the slot named after its own text, with where it came from. |
| ConvergentMerge.MergeHoldsBest | spine/vendor/sync-merge.js:283-292 | Closed form: if nothing is contested, every slot holds the best of all entries and copies that ever arrive at it. |
| ConvergentMerge.MergeDependsOnContents | spine/vendor/sync-merge.js:283-356 | An uncontested merge depends on the set of entries only, not on order or repetition; the short hash may collide. |
| ConvergentMerge.Commutative | spine/vendor/sync-merge.js:283-356 | Uncontested merges commute. |
| ConvergentMerge.Associative | spine/vendor/sync-merge.js:283-356 | Uncontested merges associate, however the merged collections are listed in between. |
| ConvergentMerge.Idempotent | spine/vendor/sync-merge.js:283-356 | Merging an uncontested merge with itself or again with one of its inputs changes nothing: no copies of copies. |
| ConvergentMerge.SelfMerge | spine/vendor/sync-merge.js:283-356 | Merging any collection with itself is a no-op, contested or not. |
| ConvergentMerge.LiveVersionsSurvive | spine/vendor/sync-merge.js:199-292 | In every merge each live version of an id comes out alive under that id or as a conflict copy of it, unless a tombstone of that very version went in under such an id; no tombstone is made up. |
| ConvergentMerge.ContentsSurvive | spine/vendor/sync-merge.js:229-292 | What a live input says is said by a live entry of the merge of the same version, under its id or as a conflict copy of it, unless an input of that version and a related id is deleted or says something else. |
| ConvergentMerge.EntriesComeFromInputs | spine/vendor/sync-merge.js:229-292 | Every entry of a merge has the contents, version and deletion mark of some input and sits where that sat or in a conflict slot that descends from there. |
| ConvergentMerge.DeletionWins | spine/vendor/sync-merge.js:250-292 | In every merge an id that is deleted in some input is deleted in the result. |
| ConvergentMerge.UncontestedIffInputsAre | spine/vendor/sync-merge.js:199-292 | While no input sits in the conflict slot of an input and different inputs have different slots, nothing that arrives on the way is contested if and only if no input is. |
| ConvergentMerge.VersionsTellContents | spine/vendor/sync-merge.js:264-280 | If, besides, inputs of one id and one version are equal, nothing that arrives on the way is contested. |
| ConvergentMerge.TwoSidesCommute | spine/vendor/sync-merge.js:283-356 | Two collections with free conflict slots that name no id twice commute, whatever their versions. |
| MergeOrder.OrderIrrelevantIff | spine/vendor/sync-merge.js:283-356 | Any number of entries with free conflict slots merge to the same collection in every order if and only if none of them is absorbed by one and displaced by another. |
| MergeOrder.AssociativeIff | spine/vendor/sync-merge.js:250-356 | Three collections with free conflict slots associate, however the merges in between are listed, if and only if of every three entries of one id the middle one is not contested, nor an outer one whose other rivals meet the wrong way round. |
| MergeSlots.CommutativeIff | spine/vendor/sync-merge.js:199-356 | Two collections, in any listing, that may hold entries in the conflict slots of each other's entries commute if and only if in every slot where both hold one and the merge sends a copy those three agree; which grouping has to associate follows from whether each is listed before or after the rival that makes the copy. |
| MergeSlots.FourCommuteIff | spine/vendor/sync-merge.js:199-356 | The smallest case: two versions of an entry and, on either side, an entry in the conflict slot of the displaced one. |
| MergeExamples.PlainIsFaithful | spine/vendor/sync-merge.js:130-165 | A written-out coding gives different entries different texts, so the hypothesis of the merge theorems can be met. |
| MergeExamples.DeletedLoserDoesNotAssociate | spine/vendor/sync-merge.js:250-292 | Two edits and the deletion of the losing one under its own version never associate. |
| MergeExamples.ThreeThatDoNotAssociate | spine/vendor/sync-merge.js:250-292 | Three such cards, written out with their coding. |
| MergeExamples.DeletedCopiesDoNotCommute | spine/vendor/sync-merge.js:283-292 | Collections whose sides have both deleted the copy their rivals make, one under its own version and one under another, never commute. |
| MergeExamples.FourThatDoNotCommute | spine/vendor/sync-merge.js:283-292 | Four such cards, written out with their coding. |
| Vendoring.StripInvertsStamp | scripts/deploy_classifier.py:81-100 | Stripping a stamped file returns the body, for every body and hex hash. |
| Vendoring.ParseInvertsStamp | scripts/deploy_classifier.py:103-109 | Parsing its header returns the hash. |
| Vendoring.StripIff | scripts/deploy_classifier.py:91-100 | Stripping yields what follows the first delimiter and refuses exactly the files without one. |
| Vendoring.FirstLabelDecides | scripts/deploy_classifier.py:103-109 | The first line that carries the label gives the hash: what follows its first colon, stripped. |
| Vendoring.SearchedPart | scripts/deploy_classifier.py:103-109 | The hash is looked for before the first delimiter and, in a file without one, in all but the last byte. |
| Vendoring.VerdictIs | scripts/deploy_classifier.py:112-118 | An error exactly without a delimiter or a labelled hash before the first one; otherwise the two comparisons, for any file. |
| Vendoring.RoundTripVerdict | scripts/deploy_classifier.py:112-118 | A stamped file passes exactly when the body's hash is the stamped one and the stamped one is the expected one. |
| Vendoring.AcceptedOnlyWithExpectedBody | scripts/deploy_classifier.py:91-118 | Any accepted file has a delimiter whose first occurrence is followed by a body with the expected hash. |
| Classifier.MaxClassOverTools | hermes_cli/claunker_classifier.py:246-262 | The loop with its early break finds the greatest class of the set, apex when it is empty. |
| Classifier.WorstIsUnique | hermes_cli/claunker_classifier.py:246-262 | The answer depends on the set alone, not on iteration order. |
| Classifier.ApexIff | hermes_cli/claunker_classifier.py:246-262 | Apex exactly for the empty set or one with an apex or delegating tool. |
| Classifier.EffectiveClassIs | hermes_cli/claunker_classifier.py:192-218 | The class of every tool under every valid configuration: locked and delegating tools are out of its reach, known ones can be raised but not lowered, unknown ones are apex unless it says otherwise. |
| Classifier.GrowingScope | hermes_cli/claunker_classifier.py:246-262 | Adding tools does not lower the class if and only if there was a tool to begin with or the result is apex anyway. |
| Classifier.ConfigLowersIff | hermes_cli/claunker_classifier.py:192-218 | A valid configuration lowers a tool exactly when the tool is not in the hard-coded map and is given a class below apex. |
| Classifier.FloorHolds | hermes_cli/claunker_classifier.py:192-262 | For hard-coded tools no valid configuration gets below the class without configuration. |
| Classifier.ResolveEntriesToTools | hermes_cli/claunker_classifier.py:221-243 | Exactly the expansions of the named toolsets and the bare names of the others. |
| Classifier.ClassifyDelegate | hermes_cli/claunker_classifier.py:292-325 | A delegate call is tiered by the worst tool its named entries reach, else the parent's, else apex. |
| Classifier.ReachableFloor | hermes_cli/claunker_classifier.py:375-383 | The tier of the worst tool the reachable set expands to. |
| Classifier.TierMeans | hermes_cli/claunker_classifier.py:221-262 | Tier 1 exactly when the entries reach a tool and all of them read; up to 2 when they read or mutate; up to 3 when none is apex or delegates; otherwise 4. An entry is its toolset's tools or, without one, the tool of that name. |
| Classifier.LockedToolsNeedTheHuman | hermes_cli/claunker_classifier.py:122-262 | Entries that reach a locked or delegating tool get tier 4 under every configuration. |

## Left out

- Protocol.NoLostUpdate: not stated for runs with a load, which replaces rows verbatim, tokens included, without any comparison; the same holds of HighWater.AbaFreedom.
- Interleavings.Serializable: not stated for runs in which a guarded card write is forced or tokenless, because such a write puts back a possibly stale row; those are covered by Protocol.NoLostUpdate, Interleavings.CommitDisturbsTombstoneIff and the one-at-a-time theorems of SerialRuns.
- SpineFacade.Spine.CreateTask: the clock and the fresh id are inputs; a create of an id another connection has just created replaces that row, as in the source, so runs over interleavings ask that an unguarded put of a card only creates it.
- Storage.Store.NextSeq: at the top of the seq space the transaction counts as rolled back at once, while the source leaves it open until the connection closes; later use of that connection is not modelled.
- RankLists.Rebalance: the digit width is an argument; only 36^width > n is used, the floating-point logarithm is not modelled.
- Tokens.PrefixOfMinted: integer parsing knows ASCII whitespace and digits only; other Unicode digits and the interpreter's limit on digit strings are not modelled, and neither matters for minted tokens.
- Wire.CardCreate: only the metadata path and the reply; title, id, order, tier and project checks, the idempotent answer for a known id and the provenance merge are not modelled.
- Wire.Kwargs: a title, description or due date that is neither text nor null is one refusal here; the source raises different errors for them, all before anything is written.
- Vendoring.ParseInvertsStamp: only the effect of decoding on ASCII is assumed, so nothing is said about what a non-ASCII header parses to.
- Cards.ListCards: the random sync token is an input and the ignored `updated_since` argument is dropped.
- `needs_rebalance` is a single length comparison.
- ConvergentMerge.Commutative: one direction only, and so is ConvergentMerge.Associative. The exact conditions are stated where conflict slots are free (MergeOrder) and, for commutativity, where entries sit in them one deep (MergeSlots); further down a contested entry need not make a difference, because what it displaces may vanish again in a deeper slot.
- MergeSlots.CommutativeIff: the conflict slots of what sits in a conflict slot are free; collisions two deep are not covered.
- ConvergentMerge.MergeCollection: entries are taken up to canonical text, so two that differ only in what serialization ignores (key order, order within arrays of primitives or of objects with ids) are one; the registered union collections only; the collections merged by the lesser entry alone, the remaining top-level keys, the stripping of dangling tags from `cards` and the sync resolver are not modelled, and an absent and a null version are one.
- Storage.Store.constructor: seeding an absent mark while another connection is writing is not modelled.
- The entity stores are folded into the store with the table as an argument; row ids of ledger rows are random and play no part.
- JSON numbers 1, 1.0 and true are distinct here, while Python compares them equal when it looks for changed fields.
- The archive gate's escalation read is an arbitrary input of the protocol's steps, because the source reads it outside the transaction; likewise the greatest live order a create appends to.
- First-open seeding is one step; two connections racing to seed the same file are not modelled.
- `assign_tier`, `reposition`, the raw `soft_delete` and raw puts of a card bypass the governed paths.
- Projects, artifacts, escalations and their resolution appear only as unguarded puts; the live-parent check is not modelled.
- Delegate calls that mix narrowed and un-narrowed children: the source scores only the toolsets named, and so does the model.
- Sensitive-path patterns, reference durability and due-date syntax: library behaviour and single branches.
- Drive backup and sync timers, the process bridge to the merge, HTTP and MCP wiring, configuration, job cards: I/O and plumbing.
- SQLite, JSON text and SHA-256 themselves.
