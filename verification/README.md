# Bitcoin Core components, modelled and proved

This project models nine components of Bitcoin Core in Dafny and proves what they promise. Code that
changes state in place is modelled by classes, arrays and loops; each such method is proved against a
specification function or predicate, and lemmas relate those to independent descriptions.

| files | component | main results |
|---|---|---|
| CoinsModel, CoinsCache, CoinsRuns, CoinsBlocks, CoinsSanity | UTXO cache | `CoinsRuns.Run`: a stack of caches of any depth, in any run, is one plain map. `CoinsBlocks.ConnectThenDisconnect`: undoing a block restores the view; `CoinsBlocks.DisconnectBlock`: what it does with any undo data |
| AddrManModel, AddrManCore, AddrManOps, AddrManCheck, AddrManRuns, AddrManFile, AddrManSerial | address manager | `AddrManRuns.Run`: the consistency check passes after every operation of every run. `AddrManSerial.Reopen`: saving and loading give back the same tables |
| CheckQueue | parallel check queue | `CheckQueue.CompleteIsCorrect`, for any number of workers, interleaving and rounds |
| Chain | block tree and active chain | fast ancestor search equals the parent walk; highest common ancestor, or none; exact size of locators |
| MostWork, MostWorkOrder, MostWorkLinks, MostWorkState, MostWorkQueue, MostWorkTurns, MostWorkArrival, MostWorkCalm, MostWorkMoves, MostWorkBack, MostWorkActivation, MostWorkBest, MostWorkInvalidate, MostWorkRuns, MostWorkTie | choice of the best chain | `MostWorkBest.ActivateBestChain`: whatever blocks are invalid, activation ends with the best usable block of the whole index as the tip. `MostWorkArrival.ReceivedBlockTransactions`: when an arrival leaves the ordered set of candidates in order, exactly. `MostWorkRuns.History`: both over every history of headers, arriving data, pruning, failures, invalidations and activations |
| Radix, Base58 | Base58 and Base58Check | both directions of the bijection; the buffers always suffice |
| Bech32Code, Bech32, Bech32Field, Bech32Powers, Bech32Period, Bech32Errors, Bech32Detection | Bech32 and Bech32m | both directions of the round trip. `Bech32Errors.ThreeDetected`: any three errors within 1023 places are detected |
| Limbs, ArithUint256, ArithCompact | 256-bit integers, compact targets, work | limb arithmetic refines arithmetic modulo 2^(32 width) for any width |
| CompactBlocks | compact block relay | `CompactBlocks.Relay`: the receiver rebuilds exactly the block sent |

`IntMath` holds facts about products and quotients, `Wrappers` the Option type.

Findings about the code, each stated by a lemma or contract:

- `CheckAddrman` accepts a state in which a network in use has no counter (`AddrManCheck.CheckMissesNetwork`);
  for accepted states the counters are exact if and only if every network in use has one
  (`AddrManCheck.AcceptedCountsExact`). No operation leads to such a state.
- The branch of `ResolveCollisions_` for a collision that no longer is one is not reached from valid states:
  the tried slot of a pending entry stays occupied (`AddrManModel.CollisionsOk`, part of `Valid`).
- `SpendCoin` also reports success on an entry that is cached as spent (`CoinsCache.CoinsViewCache.SpendCoin`).
- Base58 text for the empty string is accepted even under a negative length limit (`Base58.Fits`).
- The doubling step of a block locator fits its 32-bit integer if and only if the height is at most 2^30 + 9
  (`Chain.StepBound`, `Chain.LocatorEntries`); at height 2^30 + 10 it reaches 2^31 (`Chain.StepOverflows`).
- A block that arrives again gets a new sequence number while it may be in the set of candidates, which is ordered
  by that number. The set is in order at every numbering if and only if no stored block is numbered again after
  another of its work was (`MostWorkTurns.Calm`, `MostWorkArrival.ReceivedBlockTransactions`). This never fails on
  a node that does not prune (`MostWorkCalm.UnprunedCalm`). `MostWorkTie.TieBroken` is a history in which it fails:
  the last element of the set is then a block worse than the tip, and a search for it finds nothing or the whole
  set (`MostWorkTie.EraseFails`); a refresh puts it right (`MostWorkTie.RefreshRestores`). The results on runs hold
  up to such an arrival.

How the source is rendered: a table slot holding -1 is absent from a map; times, random draws, hashes,
network groups and address classes are parameters; the list of flagged coins is a sequence; a status word
is one field per bit; unordered containers are visited in an arbitrary order; an ordered set is the sequence of
its elements, searched as a tree of unknown shape; machine words are numbers with
their width stated where it matters, except in the Bech32 code, which uses bit-vectors.

## Model

| member | source | states |
|---|---|---|
| CoinsModel.OverlaySet | src/coins.cpp:69-110 | Storing an entry changes the view a cache stands for by exactly that coin, and keeps the FRESH/DIRTY invariant when the entry meets it |
| CoinsModel.OverlayErase | src/coins.cpp:133-155 | Dropping an entry loses the coin if it was FRESH over nothing, and changes nothing if it was clean |
| CoinsModel.ExactErase | src/coins.cpp:292-305 | Dirty count, memory usage and flagged list stay exact when an entry goes; no subtraction underflows |
| CoinsModel.ExactSet | src/coins.h:129-141 | The same when an entry is stored and perhaps becomes flagged |
| CoinsCache.CoinsViewCache.OverDatabase | src/coins.cpp:32-37 | A new cache over a database shows what the database holds |
| CoinsCache.CoinsViewCache.OverCache | src/coins.cpp:32-37 | A new cache over a cache shows what that one shows |
| CoinsCache.CoinsViewCache.Store | src/coins.h:129-175 | Replaces an entry with its flags, list and counters; valid if the entry agrees with the base |
| CoinsCache.CoinsViewCache.Erase | src/coins.cpp:292-305 | Drops an entry with its place in the list and its share of the counters |
| CoinsCache.CoinsViewCache.PeekCoin | src/coins.cpp:24-30 | Looks up the view through any number of layers without changing them |
| CoinsCache.CoinsViewCache.FetchCoinFromBase | src/coins.cpp:43-46 | Returns the coin of the view below; no view changes |
| CoinsCache.CoinsViewCache.FetchCoin | src/coins.cpp:48-61 | Caches a coin of the view below as a clean entry; the view is unchanged, and an absent coin leaves no entry |
| CoinsCache.CoinsViewCache.GetCoin | src/coins.cpp:63-67 | Returns exactly what the view holds |
| CoinsCache.CoinsViewCache.AddCoin | src/coins.cpp:69-110 | Throws exactly when a cached unspent coin would be overwritten without leave, skips exactly unspendable outputs, otherwise sets the coin; the invariant survives if and only if the FRESH flag was not set over an unspent coin below |
| CoinsCache.CoinsViewCache.SpendCoin | src/coins.cpp:133-155 | Removes the coin from the view and hands out the coin that was there; for a coin not in the view, true exactly if an entry (a spent one) was cached |
| CoinsCache.CoinsViewCache.AccessCoin | src/coins.cpp:159-166 | The coin of the view or the null coin |
| CoinsCache.CoinsViewCache.HaveCoin | src/coins.cpp:168-172 | True exactly for coins of the view |
| CoinsCache.CoinsViewCache.MergeEntry | src/coins.cpp:190-259 | One iteration of the merge: throws exactly on FRESH over an unspent entry held here; for an entry coherent with this view it never throws, sets the coin, and keeps this cache coherent with its own base |
| CoinsCache.CoinsViewCache.BatchWrite | src/coins.cpp:190-259 | Writing a coherent child in gives this cache the child's view, keeps it coherent and its counters exact, and never reaches the FRESH-misapplied throw |
| CoinsCache.CoinsDB.WriteEntry | src/txdb.cpp:107-171 | A spent entry erases the coin, an unspent one writes it |
| CoinsCache.CoinsViewCache.WriteToBase | src/coins.cpp:261-282 | The base, database or cache, comes to show the view of this cache |
| CoinsCache.CoinsViewCache.NextAndMaybeErase | src/coins.h:281-296 | A visited entry of the child is settled: dropped if spent, else made clean and taken off the flagged list; untouched if the child is wiped afterwards |
| CoinsCache.CoinsDB.BatchWrite | src/txdb.cpp:107-171 | Writing the dirty entries alone turns the database into the child's view |
| CoinsCache.DirtySuffices | src/coins.cpp:190-259 | Visiting only the flagged entries, in list order, yields the whole overlay |
| CoinsCache.CoinsViewCache.Flush | src/coins.cpp:261-271 | Base and view equal the old view, the cache is empty |
| CoinsCache.CoinsViewCache.Sync | src/coins.cpp:273-282 | Base and view equal the old view; unspent entries stay, clean, and spent ones go |
| CoinsCache.SyncedCoherent | src/coins.cpp:273-282 | The entries kept by Sync agree with the base just written |
| CoinsCache.CoinsViewCache.Reset | src/coins.cpp:284-290 | The view falls back to the base |
| CoinsCache.CoinsViewCache.Uncache | src/coins.cpp:292-305 | Drops exactly an unmodified entry; the view is unchanged |
| CoinsRuns.Maintain | src/coins.cpp:261-305 | Flush, sync, uncache or read at any layer leaves the top view alone |
| CoinsRuns.Execute | src/coins.cpp:48-305 | One operation does to view and base what it does to two plain maps, and answers alike |
| CoinsRuns.Run | src/coins.cpp:48-305 | Any run of adds (over no visible coin unless overwriting is allowed), spends, reads and resets at the top and upkeep at any layer, over a stack of any depth, shows and answers what one plain map shows and answers |
| CoinsSanity.CheckEntries | src/coins.cpp:335-349 | The pass over the entries accepts exactly legal flag combinations and adds up usage and dirty entries |
| CoinsSanity.SanityCheck | src/coins.cpp:333-363 | The check passes on exactly the states described by Sane |
| CoinsSanity.ValidIsSane | src/coins.cpp:333-363 | Every valid cache passes it |
| CoinsBlocks.AddCoins | src/coins.cpp:122-131 | Adds the spendable outputs of a transaction and nothing else |
| CoinsBlocks.SpendInputs | src/coins.cpp:440-454 | Spends the inputs and records their coins in order |
| CoinsBlocks.UpdateCoins | src/coins.cpp:440-454 | Spends the inputs, adds the outputs (those of a coinbase even over visible ones), and records the coins spent, in order |
| CoinsBlocks.ConnectBlock | src/coins.cpp:440-454 | The view after all transactions, and for each but the first a record of the coins it spent |
| CoinsBlocks.FirstOutputIs | src/coins.cpp:368-377 | The search finds the lowest visible output, none exactly if all within the limit are gone |
| CoinsBlocks.AccessByTxid | src/coins.cpp:368-377 | The first visible output of the transaction, or the null coin exactly if there is none within the output limit |
| CoinsBlocks.ApplyTxInUndo | src/coins.cpp:412-438 | Result and view are those of UndoneInput: failed exactly if the record lacks a height and no sibling output is visible, unclean exactly if the output was visible, the coin put back unless unspendable |
| CoinsBlocks.SpendOutputs | src/validation/block_replay.cpp:158-174 | Removes a transaction's outputs and reports whether each was there as created |
| CoinsBlocks.RestoreInputs | src/validation/block_replay.cpp:176-188 | Result and view are those of UndoneInputs, for any undo data: last input first, stopping at the first failure |
| CoinsBlocks.GoodInputs | src/validation/block_replay.cpp:176-188 | With records that fit, the inputs come back cleanly and exactly |
| CoinsBlocks.DisconnectTx | src/validation/block_replay.cpp:156-189 | Result and view are those of UndoneTx: outputs spent first, a record of the wrong size fails |
| CoinsBlocks.OutputsUndone | src/validation/block_replay.cpp:163-174 | After a transaction that overwrote nothing its outputs match, and removing them leaves the view with only its inputs spent |
| CoinsBlocks.InputsUndone | src/coins.cpp:412-438 | Putting the recorded coins back restores the view before the spend |
| CoinsBlocks.TxUndone | src/validation/block_replay.cpp:156-189 | Undoing a transaction just applied, from its record, is clean and gives the view before |
| CoinsBlocks.BlockUndone | src/validation/block_replay.cpp:126-195 | Undoing a block just connected, from its records, is clean and leads back through every intermediate view |
| CoinsBlocks.DisconnectBlock | src/validation/block_replay.cpp:126-195 | Fails without effect on undo data of the wrong length; otherwise result and view are those of UndoneTxs, whatever the undo data holds |
| CoinsBlocks.ConnectThenDisconnect | src/validation/block_replay.cpp:126-195 | Connecting a block and disconnecting it restores the view and reports success, whatever the cache flags are, provided nothing was overwritten and the spent coins carry a height and are spendable |
| AddrManCore.AddrMan.constructor | src/addrman.cpp:89-105 | A new address manager is empty and consistent |
| AddrManCore.AddrMan.Find | src/addrman.cpp:381-394 | Finds an entry exactly for indexed addresses |
| AddrManCore.AddrMan.Create | src/addrman.cpp:396-410 | Adds an entry under a new id to every index; consistent but for its missing slot |
| AddrManCore.AddrMan.SwapRandom | src/addrman.cpp:412-434 | Swaps two places; positions and places stay inverse |
| AddrManCore.AddrMan.Delete | src/addrman.cpp:436-451 | Removes an entry without slots from every index; the tables do not change |
| AddrManCore.AddrMan.RemoveLast | src/addrman.cpp:436-451 | Removing the entry at the last random position keeps the rest consistent |
| AddrManCore.AddrMan.ClearNew | src/addrman.cpp:453-469 | Empties a slot; an entry that loses its last slot goes |
| AddrManCore.AddrMan.RemoveFromNew | src/addrman.cpp:475-489 | The cyclic scan from the entry's own bucket, with its early stop, frees all slots of the entry |
| AddrManCore.AddrMan.LeaveBucket | src/addrman.cpp:477-485 | One step of the scan frees the slot if it holds the entry and lowers its count |
| AddrManCore.AddrMan.LeaveNew | src/addrman.cpp:475-489 | The entry has left the new table and the new counters |
| AddrManCore.AddrMan.Unseat | src/addrman.cpp:502-506 | The occupant leaves its tried slot and the tried counters |
| AddrManCore.AddrMan.Reseat | src/addrman.cpp:508-518 | It takes the freed new slot with one reference |
| AddrManCore.AddrMan.Promote | src/addrman.cpp:522-527 | The entry takes the free tried slot; all is consistent again |
| AddrManCore.AddrMan.Evict | src/addrman.cpp:495-521 | Moves the occupant of a tried slot back to the new slot of its source, displacing what is there |
| AddrManCore.AddrMan.MakeTried | src/addrman.cpp:471-528 | Address by address: the entry leaves the new table and sits in its tried slot, a former occupant sits in its own new slot; consistency holds and no assertion fires |
| AddrManCore.AddrMan.Refresh | src/addrman.cpp:545-573 | Updates time and services of a known entry, and goes on exactly if Proceeds holds |
| AddrManCore.AddrMan.NewEntry | src/addrman.cpp:574-577 | An unknown address gets an entry without slots, its time reduced by the penalty |
| AddrManCore.AddrMan.TakeOver | src/addrman.cpp:590-596 | The slot is cleared and taken; the entry displaced goes if it was its last slot |
| AddrManCore.AddrMan.Place | src/addrman.cpp:579-603 | Takes the slot exactly if it is free, held by a terrible entry, or held by one with several references while this has none; else a new entry without slot goes |
| AddrManCore.AddrMan.AddSingle | src/addrman.cpp:530-604 | True exactly when Takes holds of the state before; changes exactly that slot and the entry's time and services; consistency holds |
| AddrManCore.AddrMan.Add | src/addrman.cpp:661-671 | A chain of such announcements, true exactly if one of them took a slot |
| AddrManCore.AddrMan.Good | src/addrman.cpp:606-659 | Promotes exactly a known new entry with no collision to test; records the collision exactly when there is one and fewer than ten are pending; otherwise changes only the statistics of that entry |
| AddrManCore.AddrMan.Attempt | src/addrman.cpp:673-691 | Sets the last try of a known entry, and counts a failure only if the last counted one is older than the last success of any peer |
| AddrManCore.AddrMan.Connected | src/addrman.cpp:857-874 | Updates the time only after twenty minutes |
| AddrManCore.AddrMan.SetServices | src/addrman.cpp:876-890 | Replaces the services of a known entry |
| AddrManCore.ScrubEnd | src/addrman.cpp:475-489 | After a full turn, or once the reference count is zero, no slot holds the id |
| AddrManModel.SlotDropped | src/addrman.cpp:453-469 | Freeing a slot keeps reference counts equal to the number of slots |
| AddrManModel.SlotTaken | src/addrman.cpp:530-604 | Taking a free slot does so too |
| AddrManModel.EnteredTried | src/addrman.cpp:522-527 | Entering the tried table keeps tried entries and tried slots matched one to one |
| AddrManModel.LeftTried | src/addrman.cpp:502-506 | So does leaving it |
| AddrManModel.Recount | src/addrman.cpp:396-410 | Moving one entry and bumping one network keeps every counter exact |
| AddrManModel.IndexedSwap | src/addrman.cpp:412-434 | A swap keeps ids, addresses and random positions inverse to each other |
| AddrManOps.ResolveOne | src/addrman.cpp:892-953 | Settles a collision exactly by the verdict: forget, replace or wait |
| AddrManOps.ResolveCollisions | src/addrman.cpp:892-953 | Visits each pending collision once, in some order, and keeps exactly those that are to wait |
| AddrManOps.SelectTriedCollision | src/addrman.cpp:955-981 | Returns the occupant of a pending address's tried slot, which is never empty, or drops a stale id |
| AddrManOps.Draw | src/addrman.cpp:810-819 | One step of the shuffle puts an entry not drawn before at the next place |
| AddrManOps.GetAddr | src/addrman.cpp:792-831 | Distinct entries of the wanted network class and quality, at most the limit, and all such if fewer came; the tables stay the same |
| AddrManRuns.Execute | src/addrman.cpp:1157-1241 | Any one operation keeps the address manager valid |
| AddrManRuns.Run | src/addrman.cpp:1157-1241 | After every operation of any run the consistency check returns 0; tried slots stay occupied, ids are not reused, at most ten collisions are pending |
| AddrManCheck.CheckEntry | src/addrman.cpp:1057-1088 | The per-entry codes: zero exactly for an acceptable entry |
| AddrManCheck.CheckEntries | src/addrman.cpp:1057-1088 | Zero exactly if all entries are acceptable; the sets gathered are then exact |
| AddrManCheck.CheckTriedSlot | src/addrman.cpp:1097-1108 | Zero exactly if the slot is free or holds a matching entry |
| AddrManCheck.CheckTriedBucket | src/addrman.cpp:1095-1110 | The same for a bucket |
| AddrManCheck.CheckNewSlot | src/addrman.cpp:1114-1123 | Zero exactly if the slots so far match and do not exceed the reference counts |
| AddrManCheck.CheckNewBucket | src/addrman.cpp:1112-1125 | The same for a bucket |
| AddrManCheck.CheckTriedTable | src/addrman.cpp:1095-1110 | The scan of the tried table accepts exactly matching slots and leaves exactly the unseated ids |
| AddrManCheck.CheckNewTable | src/addrman.cpp:1112-1130 | The scan of the new table ends with nothing left over exactly if every slot matches and every entry has as many slots as references |
| AddrManCheck.CheckCounts | src/addrman.cpp:1139-1143 | Zero exactly if every counter kept equals the count made |
| AddrManCheck.Check | src/addrman.cpp:1043-1146 | Returns 0 on exactly the states described by Accepts |
| AddrManCheck.CheckAddrman | src/addrman.cpp:1043-1146 | The same for an address manager |
| AddrManCheck.ConsistentIsAccepted | src/addrman.cpp:1043-1146 | Every consistent state is accepted |
| AddrManCheck.AcceptedCountsExact | src/addrman.cpp:1134-1143 | An accepted state has exact per-network counters if and only if every network in use has a counter |
| AddrManCheck.CheckMissesNetwork | src/addrman.cpp:1134-1143 | A state that is accepted although the network of its only entry has no counter |
| AddrManCheck.AcceptedIsConsistent | src/addrman.cpp:1043-1146 | An accepted state is fully consistent once ids were handed out, the address index has no stale key, addresses are valid, and networks in use have counters |
| AddrManFile.ToggleTwice | src/addrman.cpp:169-170 | The mark on the bucket count is undone on reading |
| AddrManFile.RoundTrip | src/addrman.cpp:113-379 | Loading a saved consistent state with the same bucketing gives the same entries, reference counts and slots under new ids, loses nothing, and is consistent |
| AddrManFile.CountsFit | src/addrman.cpp:248-260 | The counts of a consistent state are within the limits the loader sets |
| AddrManSerial.WriteNew | src/addrman.cpp:171-181 | Writes every entry with references once, numbered, as many as counted; the counter assertion cannot fire |
| AddrManSerial.WriteTried | src/addrman.cpp:182-190 | Writes every tried entry once, as many as counted |
| AddrManSerial.WriteBucket | src/addrman.cpp:191-204 | The numbers of the entries in a bucket, in order of position |
| AddrManSerial.WriteBuckets | src/addrman.cpp:191-204 | The same for all buckets |
| AddrManSerial.Serialize | src/addrman.cpp:113-208 | The file holds exactly the entries and slots of the state |
| AddrManSerial.ReadNew | src/addrman.cpp:262-271 | Builds what LoadNew says |
| AddrManSerial.ReadTried | src/addrman.cpp:273-294 | Builds what LoadTried says and counts the entries it could not seat |
| AddrManSerial.ReadBucket | src/addrman.cpp:301-311 | The entries of a bucket whose numbers are in range, in order |
| AddrManSerial.ReadBuckets | src/addrman.cpp:301-311 | The same for all buckets |
| AddrManSerial.SeatRefs | src/addrman.cpp:328-356 | Builds what SeatAll says: old slots where allowed and free, else the slot of the source |
| AddrManSerial.PruneOne | src/addrman.cpp:360-368 | Deletes the entry exactly if it is new and has no slot; the others keep all but their place in the random order, the tables are the same |
| AddrManSerial.Prune | src/addrman.cpp:358-368 | Deletes exactly the new entries without a slot, for any file; the others keep all but their place in the random order, the tables are the same |
| AddrManSerial.Load | src/addrman.cpp:262-371 | The state built from the file without its unseated entries, and how many were lost |
| AddrManSerial.Read | src/addrman.cpp:211-379 | Which error each bad header gives, exactly; for any file a success passes the consistency check; a saved state always loads and comes back renumbered |
| AddrManSerial.Unserialize | src/addrman.cpp:211-379 | The same for an address manager being filled |
| AddrManSerial.Reopen | src/addrman.cpp:113-379 | Saving and loading gives back the same address manager, its ids renumbered |
| CheckQueue.InitInv | src/checkqueue.h:144-155 | The invariant holds at the start |
| CheckQueue.ReportKeeps | src/checkqueue.h:84-96 | Reporting a batch keeps the invariant (counters and checks conserved, the result one of the failures); the counter does not underflow |
| CheckQueue.EnteringKeeps | src/checkqueue.h:82-96 | Taking the lock, for the first time, after a batch or after a wait, keeps the invariant |
| CheckQueue.BatchFits | src/checkqueue.h:116-124 | A batch taken has between one and all queued checks |
| CheckQueue.LoopTopKeeps | src/checkqueue.h:97-127 | Waiting, returning, stopping or taking a batch keeps the invariant |
| CheckQueue.RoundOver | src/checkqueue.h:99-106 | With an empty queue and a zero counter every check of the round is done and no thread holds one |
| CheckQueue.ReturnKeeps | src/checkqueue.h:99-106 | The return of the master resets the round and keeps the invariant |
| CheckQueue.TakeKeeps | src/checkqueue.h:116-126 | Taking a batch moves checks from the queue to the thread and keeps it |
| CheckQueue.ExecuteKeeps | src/checkqueue.h:128-135 | Running a batch outside the lock keeps the invariant |
| CheckQueue.AddKeeps | src/checkqueue.h:172-189 | Adding checks keeps it |
| CheckQueue.NextKeeps | src/checkqueue.h:72-189 | Every step of every thread keeps it |
| CheckQueue.RunInv | src/checkqueue.h:72-189 | It holds in every reachable state, for any number of workers, interleaving and rounds |
| CheckQueue.CompleteIsCorrect | src/checkqueue.h:164-169 | Complete returns nothing exactly if every check added in that round succeeds, else a result some check of that round produced |
| CheckQueue.LockIsSafe | src/checkqueue.h:81-127 | In every reachable state the counters are exact, so the unsigned arithmetic of the critical section never wraps and a batch fits the queue |
| CheckQueue.SleepingMasterHasWorker | src/checkqueue.h:98-110 | A master waiting un-notified implies some worker still holds work |
| CheckQueue.LastReportWakes | src/checkqueue.h:88-92 | In every reachable state with a zero counter a waiting master has been notified |
| Chain.LowestOne | src/chain.cpp:68-69 | The function clears exactly the lowest one bit |
| Chain.GetSkipHeight | src/chain.cpp:72-80 | A skip goes strictly down |
| Chain.BlockIndex.GetAncestor | src/chain.cpp:82-107 | Equals the plain walk along parents, or null outside the heights |
| Chain.BlockIndex.BuildSkip | src/chain.cpp:114-118 | Points to the ancestor at the skip height and keeps all skip pointers right |
| Chain.AddBlock | src/chain.cpp:114-118 | A tree grown block by block has all skip pointers |
| Chain.JumpBack | src/chain.cpp:162-170 | Jumping by differing skip pointers keeps both sides apart, at one height, and never meets a null pointer |
| Chain.ParentsBelow | src/chain.cpp:171-174 | Where the two lines differ their parents come next, and they can meet only from there down |
| Chain.LevelAncestor | src/chain.cpp:161-176 | From one height, down to the highest block both descend from, null exactly if the roots differ |
| Chain.LastCommonAncestor | src/chain.cpp:152-177 | The highest common ancestor, or null exactly if the roots differ |
| Chain.CChain.SetTip | src/chain.cpp:16-24 | The vector is the ancestor path of the new tip despite the early stop |
| Chain.StopEarly | src/chain.cpp:16-24 | Agreement with the old path at one height implies agreement below |
| Chain.CChain.ContainsAncestors | src/chain.h:400-403 | Contained blocks are exactly the tip and its ancestors |
| Chain.CChain.NextIsChild | src/chain.h:406-412 | The successor is the one contained block with that parent |
| Chain.CChain.FindFork | src/chain.cpp:50-58 | The highest block of the chain that is an ancestor of the argument, or null if there is none |
| Chain.CChain.FindEarliestAtLeast | src/chain.cpp:60-66 | The lowest block that has reached both time and height |
| Chain.LocatorEntries | src/chain.cpp:26-43 | One hash per entry, each that of the ancestor at its height; height + 1 entries below height 11, else 11 + ceil(log2(height - 9)); the last step fits a signed 32-bit number if and only if the height is at most 2^30 + 9 |
| Chain.StepBound | src/chain.cpp:28-41 | The step reached by a locator stays below 2^31 if and only if the height is at most 2^30 + 9 |
| Chain.StepOverflows | src/chain.cpp:28-41 | At height 2^30 + 10 the doubling reaches 2^31 |
| Chain.LocatorStops | src/chain.cpp:26-43 | Exactly the last entry is at genesis |
| Chain.LocatorDescends | src/chain.cpp:26-43 | The heights go strictly down from the block to genesis |
| Chain.StepBack | src/chain.cpp:36-40 | The step to the next entry arrives at the ancestor it should |
| MostWorkOrder.LessIsTotal | src/kernel/blockstorage.cpp:178-196 | The comparator is a strict total order on blocks at different addresses |
| MostWorkOrder.EqualRange | src/chainstate.h:449 | A search of the ordered set, over a tree of any shape, ends with a stretch bounded by blocks less and greater than the one sought, whether or not the keys are in order |
| MostWorkOrder.FoundInOrder | src/chainstate.h:449 | With the keys in order it finds that block and nothing else |
| MostWorkOrder.Erasure | src/chainstate.cpp:810-812 | Erasing takes out the stretch found |
| MostWorkOrder.ErasedInOrder | src/chainstate.cpp:810-812 | With the keys in order exactly the block goes, and the order stays |
| MostWorkOrder.Insertion | src/chainstate.cpp:1507 | Inserting puts the block where the descent ends, unless the block before that place counts as equal |
| MostWorkOrder.InsertedInOrder | src/chainstate.cpp:1507 | With the keys in order the block is in the set then, and the order stays |
| MostWorkOrder.Renumbered | src/chainstate.cpp:1551 | A new highest number for a block leaves the stored order in place if and only if no other stored block of its work got a number since it last did |
| MostWork.Chainstate.Erase | src/chainstate.cpp:810-812 | In order exactly the block goes from the candidates; otherwise what the search comes to |
| MostWork.Chainstate.Insert | src/chainstate.cpp:1507 | In order the block is a candidate then; otherwise nothing is lost and nothing else comes in |
| MostWork.Chainstate.Greatest | src/chainstate.cpp:774-782 | The last element stored; with the set in order, the greatest candidate |
| MostWork.Chainstate.FirstBad | src/chainstate.cpp:784-796 | The first failed or missing block on the way down to the chain; none exactly if the block is usable |
| MostWork.Chainstate.RemoveChain | src/chainstate.cpp:801-811 | Drops exactly the blocks from the candidate to the bad one, and relinks those above a block that only lacks data |
| MostWork.Chainstate.DropBad | src/chainstate.cpp:796-814 | One round: exactly when the invalid marker moves and which pairs are recorded; what is dropped is built on a failed block or waits for data |
| MostWork.Chainstate.FindMostWorkChain | src/chainstate.cpp:766-820 | With the set in order it ends and returns the greatest of the original candidates that is usable, null exactly if none is; a candidate dropped is built on a failed block or the recorded pairs lead from it to missing data; without pruning no pair is recorded |
| MostWork.BadBelow | src/chainstate.cpp:784-796 | Nothing above a broken block off the chain is usable |
| MostWork.RelinkChained | src/chainstate.cpp:801-811 | The pairs recorded for a dropped stretch lead from each of its blocks down to the bad one |
| MostWork.WaitingUnusable | src/chainstate.cpp:784-796 | A block that waits for data is neither on the chain nor usable |
| MostWork.Chainstate.RefreshBlockIndexCandidates | src/chainstate.cpp:225-260 | The candidates are exactly the valid, linked blocks not worse than the tip, and in order, even if the set was not, as long as the blocks that stay were |
| MostWork.Chainstate.DropIneligible | src/chainstate.cpp:250-257 | The first pass takes out exactly the candidates that may not be or are worse than the tip |
| MostWork.Chainstate.AddMissing | src/chainstate.cpp:231-235 | The second adds exactly a block that may be a candidate and is not worse |
| MostWork.Chainstate.SetBlockFailureFlags | src/chainstate.cpp:1462-1473 | Flags exactly the proper descendants |
| MostWork.Chainstate.FlagOne | src/chainstate.cpp:1466-1472 | Flags the block exactly if it is a proper descendant |
| MostWork.Chainstate.InvalidChainFound | src/chainstate.cpp:355-376 | Exact candidates and flags; no descendant of the failed block is a candidate or usable |
| MostWork.Chainstate.InvalidBlockFound | src/chainstate.cpp:380-390 | The same, unless the block was only mutated: then nothing changes |
| MostWork.Chainstate.ResetBlockFailureFlags | src/chainstate.cpp:1475-1495 | Clears exactly the flags of ancestors and descendants and readmits exactly those that beat the tip |
| MostWork.Chainstate.ResetOne | src/chainstate.cpp:1480-1494 | What happens to one block, exactly |
| MostWork.Chainstate.IsRelated | src/chainstate.cpp:1480-1494 | Ancestor, descendant or the block itself, by two ancestor searches |
| MostWork.Chainstate.TryAddBlockIndexCandidate | src/chainstate.cpp:1497-1508 | Adds the block unless it is worse than the tip; with a set out of order nothing is lost and nothing else added |
| MostWork.Chainstate.PruneBlockIndexCandidates | src/chainstate.cpp:822-832 | Removing from the low end drops exactly the candidates worse than the tip; some candidate is left |
| MostWork.Chainstate.NoneWorseLeft | src/chainstate.cpp:826-829 | In order, if the first candidate is not worse than the tip none is |
| MostWork.UsableBefore | src/chainstate.cpp:750-755 | Moving the chain to a usable block makes no other block usable |
| MostWorkLinks.ArrivalGraph | src/chainstate.cpp:1541-1560 | Counting all blocks reached from one that arrives restores the book: counts, pairs complete, and every pair leading to missing data |
| MostWorkLinks.WaitsOn | src/chainstate.cpp:1541-1560 | A block not reached waits for the same data as before |
| MostWorkLinks.ReachedWaits | src/chainstate.cpp:1541-1560 | No block of the active chain is reached through a pair |
| MostWorkLinks.UncountedWaits | src/chainstate.cpp:1535-1564 | A block whose transactions are not counted waits for data |
| MostWorkLinks.EarlyGraph | src/chainstate.cpp:1561-1565 | Recording a block that arrives before its ancestors restores the book |
| MostWorkLinks.PruneGraph | src/kernel/blockstorage.cpp:278-301 | So does dropping the pairs of a block whose data goes |
| MostWorkLinks.WaitsForPruned | src/kernel/blockstorage.cpp:288-299 | What waited through that block now waits for it |
| MostWorkLinks.MoveGraph | src/chainstate.cpp:750-755 | Moving the chain to a usable block takes away nothing that is waited for |
| MostWorkLinks.MoreLinksGraph | src/chainstate.cpp:801-811 | The pairs recorded by the search for the best chain fit the book |
| MostWorkState.NoneMissed | src/validation/core_block_index_invariants.cpp:217-233 | A usable block that could be a tip is among the candidates |
| MostWorkState.TipIsCandidate | src/validation/core_block_index_invariants.cpp:217-233 | The tip itself is always a usable candidate |
| MostWorkQueue.TakeLinks | src/chainstate.cpp:1553-1559 | Takes out exactly the pairs of one parent and lists their children, oldest pair first |
| MostWorkQueue.Taken | src/chainstate.cpp:1553-1559 | What is taken and what is left, as counts of pairs |
| MostWorkQueue.QueueNext | src/chainstate.cpp:1541-1560 | Every block reached is done, queued, or above one that is not done |
| MostWorkQueue.AllDone | src/chainstate.cpp:1541-1560 | When the queue is empty every block reached is done |
| MostWorkQueue.ReachedComes | src/chainstate.cpp:1541-1560 | Every block the recorded pairs lead to comes off the queue |
| MostWorkQueue.ComesAtMost | src/chainstate.cpp:1541-1560 | A block comes off at most as often as it is queued and its pair recorded |
| MostWorkTurns.CountOne | src/chainstate.cpp:1550-1551 | Counts and numbers a block; whether the set is in order then, by the numbers before |
| MostWorkTurns.ProcessOne | src/chainstate.cpp:1541-1560 | One block off the queue: counted, numbered, offered as a candidate, its children queued; exact for the set if the number left it in order |
| MostWorkTurns.SetNext | src/chainstate.cpp:1550-1552 | After each turn the set is in order and holds exactly what it should if and only if no block fell behind so far |
| MostWorkTurns.Propagate | src/chainstate.cpp:1537-1560 | The loop, with blocks queued more than once, counts and numbers exactly the blocks reached, and ends |
| MostWorkArrival.MarkReceived | src/chainstate.cpp:1514-1533 | Notes data, transactions and validity; a count that does not fit is dropped |
| MostWorkArrival.NoneWorseIff | src/chainstate.cpp:1550-1552 | After an arrival no candidate is worse than the tip if and only if none was and no candidate numbered anew has the work of the tip |
| MostWorkArrival.ReceivedBlockTransactions | src/chainstate.cpp:1510-1566 | Exact effect on data, counts, numbers and pairs; the set of candidates is in order at every numbering if and only if, in the candidates from best to worst followed by the blocks off the queue, no stored block comes again after another of its work; then the candidates are exact and the book is kept |
| MostWorkCalm.UnprunedCalm | src/chainstate.cpp:1537-1560 | As long as no data was given up every arrival leaves the set in order |
| MostWorkCalm.TiedFallsBehind | src/chainstate.cpp:1550-1552 | A candidate with the work of the tip that is numbered anew upsets the order |
| MostWorkCalm.CalmMeansNoTie | src/chainstate.cpp:1550-1552 | So an arrival that leaves the set in order leaves no candidate worse than the tip |
| MostWorkCalm.Receive | src/chainstate.cpp:1510-1566 | An arrival in order keeps everything, and without pruning every arrival is in order |
| MostWorkMoves.Choose | src/chainstate.cpp:766-820 | The choice is the best of all usable blocks of the index that could be a tip |
| MostWorkMoves.Advance | src/validation/core_chain_activation.cpp:595-672 | Taking a usable candidate into the chain and pruning keeps the book, leaves no candidate worse than the tip and makes no block usable |
| MostWorkMoves.Invalidate | src/chainstate.cpp:380-390 | Flags exactly the descendants and keeps the book |
| MostWorkBack.DisconnectTo | src/validation/core_chain_activation.cpp:343-366 | Takes off the blocks above the fork one by one, each of which has data; stops at one that has none |
| MostWorkBack.BackStanding | src/validation/core_chain_activation.cpp:368 | With the candidates refreshed at the lower tip the book is in order |
| MostWorkBack.BackGoal | src/validation/core_chain_activation.cpp:343-371 | The block aimed at is still usable and the best: what becomes eligible at the lower tip is worse |
| MostWorkBack.GoBack | src/validation/core_chain_activation.cpp:251-371 | Back to the fork with the book in order and the goal the best usable block; fails only at a block without data |
| MostWorkActivation.ConnectTip | src/validation/core_chain_activation.cpp:635-680 | A valid block becomes the tip; an invalid one is failed with exactly what is built on it; the book is kept |
| MostWorkActivation.NextBatch | src/validation/core_chain_activation.cpp:373-390 | The blocks up to 32 above a height on the way to the goal, highest first |
| MostWorkActivation.ConnectBatch | src/validation/core_chain_activation.cpp:635-680 | Connects them from the lowest up, until one is invalid or the work exceeds the old tip's |
| MostWorkActivation.ActivateStep | src/validation/core_chain_activation.cpp:615-692 | One step ends at the goal, or above the work of the old tip, or with more blocks failed; the chain can still come back to every tip it had |
| MostWorkBest.NotWorseThan | src/chainstate.cpp:1053 | With the goal reached the tip is not worse than any tip the chain had |
| MostWorkBest.ActivateLocked | src/chainstate.cpp:992-1057 | The inner loop ends, with a tip at least as good as at its start, whatever blocks are invalid |
| MostWorkBest.NoValidBetter | src/chainstate.cpp:937-961 | No block that was usable and is not built on an invalid one is better than the final tip |
| MostWorkBest.ActivateBestChain | src/chainstate.cpp:937-961 | For any set of blocks that fail validation it ends; the tip is the best usable block of the index and not worse than before, no invalid block is on the chain, only blocks built on invalid ones were failed, and no valid block that was usable is better; it is given up only if a block of the old chain has no data |
| MostWorkInvalidate.Scan | src/chainstate.cpp:1367-1398 | Fails exactly the listed blocks built on the one taken off and makes the others candidates that are fit and not worse than the new tip |
| MostWorkInvalidate.TakeOff | src/chainstate.cpp:1333-1403 | After every block taken off the book is in order: it has failed with exactly what is built on it, and no eligible block is lost |
| MostWorkInvalidate.Unwind | src/chainstate.cpp:1327-1406 | Stops exactly below the block |
| MostWorkInvalidate.MarkInvalid | src/chainstate.cpp:1408-1424 | Fails exactly the block and what is built on it; the candidates are exact |
| MostWorkInvalidate.InvalidateBlock | src/chainstate.cpp:1290-1426 | On the chain or off it: exactly the block and its descendants fail, the chain ends below it, the candidates are exact and the book is kept; not for the genesis block, and it stops early only where data is gone |
| MostWorkRuns.Reconsider | src/chainstate.cpp:1475-1495 | Clears the flags of ancestors and descendants and keeps the book |
| MostWorkRuns.PruneBlock | src/chainstate.cpp:2801-2813 | Giving up the data of a block within the range allowed keeps the book |
| MostWorkRuns.AcceptHeader | src/validation/block_validation.cpp:346-370 | A header on a block that has not failed adds a block without data and keeps the book |
| MostWorkRuns.FailBlock | src/chainstate.cpp:380-390 | A failed block off the chain keeps everything |
| MostWorkRuns.InvalidateHand | src/chainstate.cpp:1290-1426 | So does invalidating one by hand; without pruning it never stops early |
| MostWorkRuns.Execute | src/validation/core_block_index_invariants.cpp:115-267 | A step that leaves the set in order keeps what the index must satisfy: flags and counts agree, failure passes on, blocks with data and uncounted parents are recorded, every pair leads to missing data, no eligible block is lost, no candidate is worse than the tip; after an activation the tip is the best usable block of the index; without pruning all steps are such |
| MostWorkRuns.Run | src/validation/core_block_index_invariants.cpp:115-267 | So does any run of headers, arrivals, pruning, failures, invalidations, resets and activations with any blocks invalid, up to an arrival that upsets the set or missing data; without pruning there is no such end, and after an activation no usable block of the whole index beats the tip |
| MostWorkRuns.Begin | src/chainstate.cpp:1693-1723 | The genesis block alone, received and active, satisfies all of it |
| MostWorkRuns.History | src/validation/core_block_index_invariants.cpp:115-267 | So every history from the genesis block on does |
| MostWorkTie.Tied | src/chainstate.cpp:2801-2813 | A history that pruning allows: a heavy block, failed, then outgrown by 289 light ones, pruned and taken for valid again, is stored after the tip |
| MostWorkTie.TieNotCalm | src/chainstate.cpp:1550-1552 | The condition tells beforehand that its arrival upsets the set |
| MostWorkTie.TieBroken | src/chainstate.cpp:774-782 | It arrives again: the last element of the set, which the next activation takes, is then a usable block worse than the tip |
| MostWorkTie.EraseFails | src/chainstate.cpp:810-812 | There, erasing the block takes out nothing or the whole set, by the shape of the tree |
| MostWorkTie.RefreshRestores | src/chainstate.cpp:250-257 | A refresh takes it out and restores the order |
| Radix.MulAdd | src/base58.cpp:63-70 | The carry loop multiplies the buffer's value and adds, leaves no carry when the result fits, and keeps the length exact |
| Radix.DigitsUnique | src/base58.cpp:79-85 | Digits without leading zero are the digits of their value |
| Radix.ToDigitsOk | src/base58.cpp:79-85 | The digits of a number give it back, are below the base and have no leading zero |
| Base58.EncodeRoom | src/base58.cpp:98-100 | The 138/100 estimate always suffices |
| Base58.DecodeRoom | src/base58.cpp:53-55 | The 733/1000 estimate always suffices |
| Base58.Digits58 | src/base58.cpp:98-115 | The loop over the bytes leaves the radix-58 digits of their number |
| Base58.LetterDigit | src/base58.cpp:19-38 | The table gives back the digit of each letter |
| Base58.DigitLetter | src/base58.cpp:19-38 | And has no other letters |
| Base58.EncodeBase58 | src/base58.cpp:89-127 | Computes Encode: a letter for each leading zero, then the number in radix 58; no carry is left over |
| Base58.SkipOnes | src/base58.cpp:45-52 | Counts leading ones, failing only when the whole must fail |
| Base58.ReadOne | src/base58.cpp:59-70 | One letter multiplies the buffer by 58 and adds its digit |
| Base58.ReadWord | src/base58.cpp:53-73 | Reads the word into bytes, failing only when the whole must fail |
| Base58.DecodeBase58 | src/base58.cpp:40-87 | Computes Decode: one word between spaces, letters only, no NUL, within the length limit (an empty result is accepted under any limit) |
| Base58.ConvertBack | src/base58.cpp:40-127 | Changing radix with leading zeros kept one to one is undone by changing back |
| Base58.DecodeEncode | src/base58.cpp:40-127 | Decoding undoes encoding for every byte string, exactly within the length limit |
| Base58.EncodeDecode | src/base58.cpp:40-127 | Encoding undoes decoding for every accepted text, up to surrounding spaces |
| Base58.EncodeBase58Check | src/base58.cpp:137-144 | Encodes the data followed by four bytes of its hash |
| Base58.DecodeBase58Check | src/base58.cpp:146-161 | Computes DecodeCheck: at least four bytes, the last four those of the hash, the limit raised by four without overflow |
| Base58.DecodeEncodeCheck | src/base58.cpp:137-161 | Decoding undoes encoding exactly within the limit raised by four |
| Base58.EncodeDecodeCheck | src/base58.cpp:137-161 | An accepted text is the encoding of what it decodes to: no other checksum passes |
| Bech32Code.PolyMod | src/bech32.cpp:130-216 | The loop, one conditional addition per bit, computes the remainder and stays within 30 bits |
| Bech32Code.Absorb | src/bech32.cpp:178-214 | One value makes one step of the remainder |
| Bech32Code.PolyModLinear | src/bech32.cpp:178-214 | The remainder of a difference is the difference of the remainders |
| Bech32Code.StepLinear | src/bech32.cpp:178-214 | A step of the remainder is linear |
| Bech32Code.StepInjective | src/bech32.cpp:178-214 | Without input only zero leads to zero |
| Bech32Code.ChecksumIff | src/bech32.cpp:342-353 | Six values verify exactly if they are the checksum |
| Bech32Code.WindowDetected | src/bech32.cpp:137-142 | Inputs that differ only within six consecutive places have different remainders |
| Bech32.ConstantsApart | src/bech32.cpp:121-125 | The two final constants differ and fit 30 bits |
| Bech32.LetterValue | src/bech32.cpp:22-35 | The table gives back the value of each letter |
| Bech32.ValueLetter | src/bech32.cpp:22-35 | And accepts just these letters, in either case |
| Bech32.CheckCharacters | src/bech32.cpp:287-309 | Lists exactly the offending positions in order, unprintable characters and letters of another case than the first; none exactly for printable text of one case |
| Bech32.PreparePolynomialCoefficients | src/bech32.cpp:311-324 | The expanded prefix and the values |
| Bech32.VerifyChecksum | src/bech32.cpp:327-339 | Finds the encoding whose constant the remainder is, if any |
| Bech32.ReadValues | src/bech32.cpp:382-391 | Reads the values exactly if every letter has one |
| Bech32.CreateChecksum | src/bech32.cpp:342-353 | Computes the checksum |
| Bech32.Encode | src/bech32.cpp:358-371 | Computes Encoded: prefix, separator, letters of the values and of their checksum |
| Bech32.Decode | src/bech32.cpp:374-400 | Computes Decoded: the last separator splits, characters, length, letters and checksum decide |
| Bech32.DecodeEncode | src/bech32.cpp:358-400 | Decoding undoes encoding, for both encodings, exactly for a printable prefix that is not empty (it may hold the separator) and within the limit |
| Bech32.EncodeDecode | src/bech32.cpp:358-400 | An accepted string, put in lower case, is the encoding of what it decodes to |
| Bech32.ErrorsDetected | src/bech32.cpp:137-142 | With one prefix, value lists that differ only within six consecutive places never verify under the same encoding |
| Bech32Field.ApplyLinear | src/bech32.cpp:74-110 | Multiplication by a fixed element of GF(1024) is linear |
| Bech32Field.Composed | src/bech32.cpp:74-110 | One such map after another is the map of the composed columns |
| Bech32Powers.Products | src/bech32.cpp:74-110 | The powers of e, as maps, multiply as their exponents add |
| Bech32Period.EIsTimesE | src/bech32.cpp:78-110 | The map for e is the step that builds the table: 23 times the high half, and 9 times it plus the low half |
| Bech32Period.PeriodIs1023 | src/bech32.cpp:160-166 | Fewer than 1023 multiplications by e leave only zero in place |
| Bech32Period.RootsArePowers | src/bech32.cpp:160-166 | The three maps used are multiplication by e^997, e^998 and e^999 |
| Bech32Errors.Root997 | src/bech32.cpp:160-171 | The generator vanishes at e^997 |
| Bech32Errors.Root998 | src/bech32.cpp:160-171 | And at e^998 |
| Bech32Errors.Root999 | src/bech32.cpp:160-171 | And at e^999 |
| Bech32Errors.ValueStep | src/bech32.cpp:178-214 | Seen at a root, a step of the remainder multiplies by the root and adds the value |
| Bech32Errors.ValuePolyMod | src/bech32.cpp:178-214 | So the remainder has at a root the value of the whole polynomial |
| Bech32Errors.ThreePowers | src/bech32.cpp:168-171 | Values at three distinct powers of e cannot cancel at three consecutive roots |
| Bech32Errors.ThreeDetected | src/bech32.cpp:137-142 | Inputs that differ in one to three places within 1023 have different remainders |
| Bech32Detection.ThreeErrorsDetected | src/bech32.cpp:137-142 | With one prefix, value lists that differ so never verify under the same encoding |
| Bech32Detection.AcceptedApart | src/bech32.cpp:137-142 | Two accepted strings of one prefix, length and encoding that differ, case aside, in at most three places within 1023 are the same |
| ArithUint256.Add | src/arith_uint256.h:117-127 | Sum modulo 2^(32 width), also of an object with itself |
| ArithUint256.Not | src/arith_uint256.h:51-57 | Complement |
| ArithUint256.Negate | src/arith_uint256.h:59-66 | Two's complement |
| ArithUint256.Subtract | src/arith_uint256.h:129-133 | Difference modulo 2^(32 width) |
| ArithUint256.Increment | src/arith_uint256.h:155-162 | Adds one, wrapping |
| ArithUint256.Decrement | src/arith_uint256.h:172-179 | Subtracts one, wrapping |
| ArithUint256.MulSmall | src/arith_uint256.cpp:49-58 | Product with a 32-bit number; the carry expression fits 64 bits |
| ArithUint256.Multiply | src/arith_uint256.cpp:61-74 | Product modulo 2^(32 width); the carry expression fits 64 bits |
| ArithUint256.MulRow | src/arith_uint256.cpp:64-71 | One row of the product, with the carry out |
| ArithUint256.Divide | src/arith_uint256.cpp:77-100 | Throws exactly on zero; else quotient and remainder |
| ArithUint256.SetBit | src/arith_uint256.cpp:93-93 | Setting a clear bit adds its power of two |
| ArithUint256.Compare | src/arith_uint256.cpp:103-112 | The order of the values |
| ArithUint256.Bits | src/arith_uint256.cpp:157-169 | Position of the highest bit plus one |
| ArithUint256.LimbBits | src/arith_uint256.cpp:159-166 | The bits of the highest limb |
| ArithUint256.ShiftLeft | src/arith_uint256.cpp:15-29 | Multiplies by a power of two, modulo 2^(32 width) |
| ArithUint256.ShiftRight | src/arith_uint256.cpp:32-46 | Divides by a power of two |
| Limbs.ShlValue | src/arith_uint256.cpp:15-29 | Limbs moved up, with the bits that cross, make the product by the power of two |
| Limbs.ShrValue | src/arith_uint256.cpp:32-46 | Limbs moved down make the quotient |
| Limbs.CompareAt | src/arith_uint256.cpp:103-112 | The highest differing limb decides |
| Limbs.ProductFits | src/arith_uint256.cpp:64-71 | Carry, old limb and product of two limbs fit 64 bits |
| ArithUint256.DivideStep | src/arith_uint256.cpp:89-97 | One step of long division keeps quotient times divisor plus rest |
| ArithCompact.SetCompact | src/arith_uint256.cpp:176-194 | The value modulo 2^256; the overflow flag exactly when it does not fit, the sign exactly as encoded |
| ArithCompact.OverflowIff | src/arith_uint256.cpp:189-192 | The three comparisons say exactly that mantissa times 256^(size - 3) reaches 2^256 |
| ArithCompact.GetCompact | src/arith_uint256.cpp:196-217 | Computes Compact, with the sign only on a mantissa that is not zero |
| ArithCompact.CompactRoundTrip | src/arith_uint256.cpp:176-217 | Decoding an encoded value clears low-order bytes only, is never negative or overflowing, and encodes to the same again |
| ArithCompact.Decompacted | src/arith_uint256.cpp:176-217 | What an encoded value expands to |
| ArithCompact.CompactAgain | src/arith_uint256.cpp:176-217 | The expanded value has the same compact form |
| ArithCompact.GetBitsProof | src/chain.cpp:120-133 | Exactly floor(2^256 / (target + 1)), or zero for a refused target |
| CompactBlocks.MakeCompact | src/blockencodings.cpp:22-35 | The coinbase whole, the rest as short ids in order |
| CompactBlocks.PlacePrefilled | src/blockencodings.cpp:74-90 | Accepts exactly indexes within bounds and 16 bits, and fills exactly those slots |
| CompactBlocks.IndexIds | src/blockencodings.cpp:96-116 | Short ids go one to one, in order, to the slots not prefilled, never out of bounds; fails exactly on a repeated id or a lopsided table |
| CompactBlocks.ConsiderKeeps | src/blockencodings.cpp:124-136 | A match fills its slot, a second one empties it; the count stays exact |
| CompactBlocks.Scan | src/blockencodings.cpp:118-177 | A slot left empty had no match in the list, or more than one, despite the early exit |
| CompactBlocks.PartiallyDownloadedBlock.InitData | src/blockencodings.cpp:61-181 | Invalid exactly for a refused message or bad prefilled index, failed otherwise exactly on a repeated id or a lopsided table; on success every slot is as described |
| CompactBlocks.Collect | src/blockencodings.cpp:198-208 | The merged list, stopping short exactly if too few transactions were given |
| CompactBlocks.EmptiedMissing | src/blockencodings.cpp:199-208 | After too few transactions, those already taken out are missing as well |
| CompactBlocks.ConsiderExplained | src/blockencodings.cpp:124-136 | A slot stays explained: filled by the one match, or empty for none or several |
| CompactBlocks.AvailableIsRight | src/blockencodings.cpp:61-181 | Without foreign matches, what a started block holds are the transactions of the block sent |
| CompactBlocks.PartiallyDownloadedBlock.FillBlock | src/blockencodings.cpp:191-236 | Succeeds exactly with as many transactions as are missing and a block that is not mutated, fails exactly on a mutated one, works once; after too few transactions exactly the slots below the first one left open are empty |
| CompactBlocks.MergeAbsent | src/blockencodings.cpp:195-208 | If what is available is right, the absent ones complete the list |
| CompactBlocks.Relay | src/blockencodings.cpp:22-236 | A block sent, started and filled comes back exactly, provided no foreign transaction has a matching short id; starting fails exactly on a repeated id or a lopsided table |
| CompactBlocks.DifferenceFormatter.Ser | src/blockencodings.h:29-35 | Refuses exactly values out of order or too large |
| CompactBlocks.DifferenceFormatter.Unser | src/blockencodings.h:36-43 | Refuses exactly sums beyond the type, also when they wrap |
| CompactBlocks.SumsOfDifferences | src/blockencodings.h:24-43 | Reading undoes writing |
| CompactBlocks.DifferencesOfSums | src/blockencodings.h:24-43 | Writing undoes reading |
| CompactBlocks.WriteIndexes | src/blockencodings.h:29-35 | Succeeds exactly on increasing indexes |
| CompactBlocks.ReadIndexes | src/blockencodings.h:36-43 | Succeeds exactly while values fit 16 bits |

## Left out

- Coins: best-block hashes, memory pools, tracepoints, error-catching wrappers, `EmplaceCoinInternalDANGER` and the batching of database writes; a script's allocated capacity is taken to be its size.
- CoinsBlocks.ConnectThenDisconnect: assumes that nothing is overwritten and that the coins spent carry a height and are spendable, because what was overwritten is not recorded and undo data for other coins is completed from sibling outputs or dropped; `DisconnectBlock` states what happens then.
- CoinsBlocks: the two historic blocks with duplicate coinbases are a parameter; reading undo data from disk is not modelled.
- AddrMan: `Select_`, `GetChance`, `FindAddressEntry_`, `GetEntries_` and `Size_`, which are probabilistic or plain lookups; locking; the periodic self-check.
- AddrManFile: the byte layout of a saved file, and the older address encoding chosen by the format number.
- AddrManFile.RoundTrip: takes times of any size; the source writes the time of an address as 32 bits, so larger ones would not come back.
- AddrManSerial.Unserialize: what is left in the object after a failed load is not modelled.
- CheckQueue: fairness and termination of the check functions themselves; spurious wake-ups are covered, since a waiting thread may take the lock at any time.
- Chain: `GetMedianTimePast`, block hashes other than as names, and `GetBlockProofEquivalentTime`.
- MostWork.Chainstate.InvalidChainFound: does not model the best header and the warnings, which do not affect the candidates.
- MostWorkRuns.Run: ends where the set of candidates gets out of order or data for a reorganization is missing, because the source promises nothing from there on; invalidating an active block by hand is skipped if its parent, the new tip, has no data.
- MostWorkBest.ActivateBestChain: takes which blocks are invalid as given and active blocks as valid, because script validation is not part of the model; shutdown requests, disk errors and a block mutated on disk are left out.
- MostWorkRuns.PruneBlock: gives up one block at a time, because which blocks share a file is a matter of storage.
- MostWorkArrival.ReceivedBlockTransactions: leaves out file positions and the witness flag; with the set out of order it bounds the candidates but does not say where a block is stored, which depends on the shape of the tree.
- MostWork: `PreciousBlock`, which changes sequence numbers by hand, and its counters; other threads between the locked parts of an activation; flushing and notifications.
- Base58: `int` overflow of the buffer size for texts beyond two gigabytes.
- Bech32: `LocateErrors`; detection of four errors within 89 places, which rests on an exhaustive search; prefixes with characters beyond seven bits.
- ArithUint256: conversion to floating point, hexadecimal and byte strings; bitwise operators other than complement and shifts.
- CompactBlocks: the number of extra transactions kept for logging; when a hash bucket grows too long is a parameter, and so is the mutation check.
- CompactBlocks.PartiallyDownloadedBlock.InitData: requires at most 65535 transactions, which deserialization enforces (src/blockencodings.h:124-129).
- CompactBlocks.Relay: an extra transaction is keyed by its own witness hash.
- Not modelled at all: files that only read or write the disk, start the process, parse arguments or hold data; the encrypted transport; script and address types.
