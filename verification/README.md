# Ad service: the targeting index and the replicated log

A Dafny model of an ad service that answers targeted reads from memory on any
number of replicas. Two parts carry it.

**The targeting index.** Each replica keeps its ads in a four-level tree keyed
Age, Country, Platform, Gender, with sorted sets as leaves. An ad is inserted
under every value it targets and under the wildcard of each level; a read follows
one path. The reference is the simple thing the index speeds up: filter the live
ads, sort them by (CreatedAt, id), take a page.

**The replicated log.** Writers take turns under a lock: each commits an
operation to a table under version `MAX(version) + 1`, then appends it to a
stream under that id. A replica restores the active rows, replays the stream from
the restored version on, and feeds a dispatcher that owns the store and defers
ads that have not started to timers. The reference is the fold of the committed
operations.

They meet in `Cluster.EveryAnswer`: in every run, a replica with nothing queued
and no timer due answers every request with the page of the active, started,
matching ads as of its version. That a replica gets there, and that callers get
their answers, is `Progress`.

What the reference notions come to is also said without them, in the fields of ads
and operations: a page in `Ranking.PageInFields` and `Store.ReadInFields`, the live
ads of a history in `Store.LiveMeaning`, the fold of the commits in
`Log.FoldMeaning`, what a subscriber sends in `Service.SentAt` and
`Service.AcceptedMeaning`.

| file | models |
|---|---|
| `AdModel.dfy` | the ad, the request, the key chain, the value expansion in uint8 arithmetic |
| `Ranking.dfy` | a leaf's sorted set and the rank-range read |
| `IndexTree.dfy` | the tree the index denotes; what adding and deleting do to every lookup |
| `Index.dfy` | the mutable nodes, each method proved against that tree |
| `ConcurrentAdd.dfy` | every interleaving of the goroutines of one AddAd |
| `Store.dfy` | the store's map and index; whole histories of a store |
| `ConcurrentStore.dfy` | whole histories over the concurrent index, each AddAd by any schedule |
| `Log.dfy` | table, stream, lock and writers as a transition system |
| `Replica.dfy` | restore, subscribe, dispatch and timers of one replica |
| `Cluster.dfy` | log, replicas and callers together; runs |
| `Answers.dfy` | what a caller of CreateAd or GetAds is told, over runs |
| `Replies.dfy` | the sending of replies, over runs |
| `Progress.dfy` | that the system gets on: continuations of every run in which replicas settle and callers are answered |
| `Scenarios.dfy` | runs from the empty service, step by step, that reach the states spoken of |
| `Service.dfy` | the service's own methods, against the transitions of `Log` |
| `Subscriber.dfy` | the service's Subscribe, against the transitions of `Replica` |
| `Dispatcher.dfy` | the dispatcher's handlers as written, with captured variables |

`dafny verify dfyconfig.toml` checks the whole project.

## Assumptions

- The lock gives mutual exclusion, although it is taken for 100 ms
  (`pkg/service/ad.go:50`, `pkg/service/ad.go:305`).
- A transaction is atomic and a restore reads one snapshot. The stream rejects an
  id not above its last one and trims exactly to 100000 entries.
- A publish follows its commit and is not atomic with it. The invariant of `Log`
  holds with lost publishes; whatever compares a replica with the table assumes
  none (`Log.Healthy`).
- A delete names an existing row, once per ad, at or after the ad's end; an ad's id
  is new, and the ad starts before it ends and does not end at age 255
  (`Log.Healthy`). What goes wrong otherwise is proved too (see "What the code does
  not do").
- A replica restores into an empty store, is at most 100000 entries behind when it
  reads, and an ad's own start timer, if due, has fired before the ad's delete is
  applied (`Replica.Timely`).
- Where the batch loop's variable is shared, as under go 1.21 (`go.mod:3`), no
  restored ad but the last of its batch has yet to start (`Replica.Timely`). With a
  variable per ad (`perAd`, go 1.22 on) this is not assumed. Both are in the
  transition system, and a run may mix replicas of either kind.
- The sorted set library is not part of this model. Its ranks are taken to be
  1-based and inclusive, rank 0 to mean rank 1, and its update of a present key to
  replace the entry. So a page at an offset above 0 can hold limit + 1 ads.

## What the code does not do

- An ad that ends at age 255 (a request admits it, `pkg/model/ad.go:166`) panics
  every replica that indexes it: the counter of the age loop wraps. Exactly that
  value does (`AdModel.ExpandAges`).
- An inverted age range is admitted as well. It targets no age, and leaves the nil
  key in the index unless it is inverted by exactly one (`AdModel.AgeMeaning`).
- Re-adding an id whose new ad targets fewer values leaves the old ad behind on
  the paths the new one does not reach; `Store.CreateAgrees` says exactly when.
- A delete takes a version and a stream id whether or not it finds its row. When it
  does not, the next create is rejected by the stream although its row is active,
  and exactly then (`Log.MissingRowLosesCreate`); so are as many of the following
  ones as the stream is ahead of the table, and no more (`Log.AheadAfterDelete`,
  `Log.LostCreates`). Such a delete also lowers the maximum version exactly when a
  tombstone carried it (`Log.DeleteMissingRow`).
- A reader more than 100000 entries behind skips entries, exactly then
  (`Log.ReadMeaning`).
- In a restored batch every delayed ad's timer creates the last ad of the batch:
  the closures share the loop variable under the rules of go 1.21 (`go.mod:3`).
  - The batch comes out right exactly when no delayed ad is other than the last
    (`Dispatcher.SharedVariable`), and its order matters except in the cases
    `Dispatcher.RestoreOrderFree` lists.
  - The last ad is served from the first start of any delayed one on
    (`Dispatcher.LastEarly`), and comes back after its delete exactly when a delayed
    one starts later (`Dispatcher.LastComesBack`).
  - A delayed ad not yet created when the loop moves on is lost, and its delete
    dereferences nil (`Replica.LoopLoses`, `Replica.LostDeletePanics`).
- A delete entry dereferences nil exactly when the start timer of its own ad has not
  fired, overdue (`Replica.DeletePanics`).
- Restoring never removes, so a second restore is right exactly when nothing live
  is missing from the snapshot (`Dispatcher.RestoreOnlyAdds`).
- A dispatcher that has found a caller's channel can send exactly while the caller
  has not timed out and deregistered (`Replies.SendBlocksOnlyOnTimeout`); otherwise it
  is blocked for good and its replica applies no further entry
  (`Replies.BlockedForGood`).
- A caller's channel stays registered, empty, between its receive and its deferred
  deregistration, so a second reply would find it. None comes, because no replica
  applies an entry twice (`Replies.AtMostOneReply`).
- Deleting takes an ad from the index, never from the store's map
  (`Store.InMemoryStore.DeleteAd`).

Where code and documentation differ, the code is modelled. The diagram in the
repository's README.md (lines 211-217) has Country above Age; the key chain has
Age on top. The comment at `pkg/model/ad.go:108` bounds a read by EndAt; the code
serves an ad until its scheduled delete is applied. The comment at
`pkg/inmem/store.go:34-35` has the restore use CreateBatchAds; the dispatcher
creates the restored ads one by one.

## Model

| member | source | states |
|---|---|---|
| AdModel.KeyChainAdvances | pkg/model/ad.go:86-99 | the key chain starts four levels up and every key's successor is one level lower, so recursion over it ends in a leaf |
| AdModel.ExpandAges | pkg/model/ad.go:44-52 | in uint8 arithmetic the age expansion panics exactly when AgeEnd is 255, and otherwise yields AgeStart to AgeEnd followed by 0, or nil slots and 0 for an inverted range |
| AdModel.ExpandTexts | pkg/model/ad.go:53-62 | a slice field expands to its texts in order followed by the empty text |
| AdModel.GetValueByKey | pkg/model/ad.go:40-72 | the values of each of the four keys; only the age key can panic, exactly for AgeEnd 255 |
| AdModel.AgeMeaning | pkg/model/ad.go:44-52 | an ad is indexed under exactly the ages it targets, 0, and the nil key when its range is inverted by more than one |
| AdModel.TextMeaning | pkg/model/ad.go:53-62 | a text is among a field's values exactly when it is empty or in the field |
| AdModel.Dedup | pkg/model/ad.go:74-84 | the de-duplicated values have the same elements, none of them twice |
| AdModel.UniqueSlice | pkg/model/ad.go:74-84 | the loop over a seen-set yields the first occurrences in order |
| Ranking.AddOrUpdateElems | pkg/inmem/index.go:114-118 | a leaf stays sorted by (CreatedAt, id) with one entry per id, and holds what it held with the new ad in place of its id's entry |
| Ranking.RemoveRanked | pkg/inmem/index.go:133-137 | removing an id keeps a leaf sorted and unique and takes out exactly that id |
| Ranking.SortedUnique | pkg/inmem/index.go:109-118 | the order leaves no choice: two sorted sequences of the same ads are equal, so a leaf is determined by its set of ads |
| Ranking.SortedAds | pkg/inmem/index.go:121-130 | every set of ads with distinct ids has a sorted listing of exactly that set: the reference answer |
| Ranking.PositionIsRank | pkg/inmem/index.go:117 | in a leaf, an ad's position is the number of its ads with a smaller CreatedAt, or the same and a smaller id |
| Ranking.PageInFields | pkg/inmem/index.go:117-124 | a page in the ads' own fields: by CreatedAt ascending and then id, an ad being on it exactly when one more than the number of ads before it is from offset to offset + limit |
| Ranking.FirstPage | pkg/inmem/index.go:117-124 | the page at offset 0 leaves off no ad that precedes one on it |
| Ranking.PageRanked | pkg/inmem/index.go:121-130 | a page is sorted, has at most limit ads at offset 0 and at most limit + 1 elsewhere |
| Ranking.WalkCovers | pkg/inmem/index.go:124 | walking the offset by the limit from 0, an ad is on the page its position falls on, and on the next one too exactly when it is last of its page: none is missed |
| IndexTree.PathMeaning | pkg/model/ad.go:120-133 | an ad is indexed on a request's path exactly when each of age, country, platform and gender is unset in the request or targeted by the ad |
| IndexTree.FindRanked | pkg/inmem/index.go:62-76 | every leaf of a tree is sorted and unique by id, and lies at the end of the key chain |
| IndexTree.AddFind | pkg/inmem/index.go:27-59 | AddAd changes exactly the lookups on paths the ad is indexed on, each to its leaf with the ad put in |
| IndexTree.AddEachFind | pkg/inmem/index.go:36-56 | of the values walked only membership matters, neither order nor repetition |
| IndexTree.DelFind | pkg/inmem/index.go:79-95 | DeleteAd changes exactly the existing leaves on paths the ad is indexed on, each by removing its id |
| IndexTree.AddIdempotent | pkg/inmem/index.go:27-59 | adding an ad again changes no lookup |
| IndexTree.AddsCommute | pkg/inmem/index.go:27-59 | adds of two ids commute, as every lookup sees them |
| IndexTree.DelUndoesAdd | pkg/inmem/index.go:79-95 | deleting a freshly added ad restores what every lookup returns, and deleting it again changes nothing |
| IndexTree.DedupSameLookups | pkg/model/ad.go:49-51 | de-duplicating the values at every level, commented out in the source, would change no lookup |
| IndexTree.BatchAt | pkg/inmem/store.go:36-45 | a batch puts its covering ads on each path and keeps the others whose ids it does not overwrite there |
| IndexTree.BatchOrderIrrelevant | pkg/inmem/store.go:36-45 | a batch of distinct ids added at once gives the same answers in every order |
| IndexTree.PathsCovered | pkg/inmem/index.go:36-54 | the paths built from the four value sets are exactly those the ad is indexed on |
| IndexTree.LeavesHolding | pkg/inmem/index.go:36-54 | the leaves that hold a freshly added ad number exactly the product of its four numbers of distinct values, wildcards included |
| Index.IndexLeafNode.AddAd | pkg/inmem/index.go:114-118 | the leaf stays sorted by (CreatedAt, id) with one entry per id, and holds what it held with the ad in place of its id's entry |
| Index.IndexLeafNode.GetAd | pkg/inmem/index.go:121-130 | of the leaf, exactly the ads ranked offset to offset + limit, counting from 1, in order |
| Index.IndexLeafNode.DeleteAd | pkg/inmem/index.go:133-137 | the leaf stays sorted and unique and loses exactly the entry of the ad's id |
| Index.IndexInternalNode.constructor | pkg/inmem/index.go:102-107 | a new node denotes the empty tree of its key |
| Index.IndexInternalNode.MakeChild | pkg/inmem/index.go:44-52 | a missing child is made for the next key, a leaf at the end of the chain, and disturbs no sibling |
| Index.IndexInternalNode.AddUnder | pkg/inmem/index.go:38-55 | one value's goroutine, run alone, adds the ad in that value's subtree and leaves every sibling subtree as it was |
| Index.IndexInternalNode.AddAd | pkg/inmem/index.go:27-59 | the node ends up denoting the tree of the add, or panics before any change when the ad ends at age 255 |
| Index.IndexInternalNode.GetAd | pkg/inmem/index.go:62-76 | the walk returns the page of the leaf on the request's path, or nothing where a child is missing |
| Index.IndexInternalNode.DeleteAd | pkg/inmem/index.go:79-95 | the node ends up denoting the tree of the delete |
| ConcurrentAdd.StepInv | pkg/inmem/index.go:38-55 | every atomic step of every goroutine keeps the invariant: old nodes lose nothing, new ones hold only this ad, every value of a node begun on is done or under way |
| ConcurrentAdd.InterleavingsAgree | pkg/inmem/index.go:34-58 | every interleaving of the goroutines that has run to its end leaves the lookups of one sequential add, duplicate values racing on get and set included |
| ConcurrentAdd.EndsAsIndex | pkg/inmem/index.go:34-58 | the heap an interleaving leaves is again a four-level index with sorted, unique leaves |
| ConcurrentAdd.NothingLost | pkg/inmem/index.go:43-52 | at every moment a leaf made during the add, discarded or not, holds at most this ad, and an old leaf has lost none |
| ConcurrentAdd.SchedulesEnd | pkg/inmem/index.go:34-58 | no interleaving is longer than a bound given by the ad, and none gets stuck before its end |
| ConcurrentAdd.RunToEnd | pkg/inmem/index.go:34-58 | every interleaving begun can be carried on until no goroutine is left |
| ConcurrentStore.DelNodeFind | pkg/inmem/index.go:79-95 | the delete's loops take the id out of exactly the leaves under the ad's values, and no other lookup sees it |
| ConcurrentStore.HistoriesAgree | pkg/inmem/index.go:27-95 | over every history of creates, batches and deletes, whatever the schedule of each add, every lookup is that of the sequential history |
| ConcurrentStore.ConcurrentReads | pkg/inmem/store.go:36-73 | so with immutable ads every read of the concurrent store is the sorted page of the matching ads created and not deleted since |
| Store.QueryMeaning | pkg/inmem/store.go:56-65 | when the index agrees with the live ads, a read is: filter them, sort by (CreatedAt, id), take the page |
| Store.ReadInFields | pkg/inmem/store.go:56-65 | a read in fields: of the live ads that meet every set field of the request, ordered by CreatedAt and then id, those ranked offset to offset + limit |
| Store.CreateAgrees | pkg/inmem/store.go:47-54 | creating an ad replaces its id's live ad, and the index still agrees exactly when the ad replaced was indexed under no value the new one drops |
| Store.CreateSame | pkg/inmem/store.go:47-54 | with one ad per id, creating an ad, again or not, adds it and keeps the index in agreement |
| Store.DeleteAgrees | pkg/inmem/store.go:68-73 | deleting a known id takes exactly its ad out of every answer |
| Store.CreateEachTree | pkg/inmem/store.go:36-45 | in the index a batch is its adds in order, and it panics exactly when one of its ads ends at age 255 |
| Store.RunSingles | pkg/inmem/store.go:36-54 | a history with batches is the history of their creates |
| Store.RunMeaning | pkg/inmem/store.go:36-73 | over every history of creates, batches and deletes of immutable ads: the store panics exactly when a delete is unknown or an ad ends at age 255, and otherwise the index agrees with the ads created and not deleted since |
| Store.LiveMeaning | pkg/inmem/store.go:47-73 | the live ads of a history are exactly those created and since then neither deleted nor created otherwise |
| Store.InMemoryStore.constructor | pkg/inmem/store.go:26-32 | a new store is empty |
| Store.InMemoryStore.CreateAd | pkg/inmem/store.go:47-54 | the create step of a history, in the map and the index; on a panic only the map has changed |
| Store.InMemoryStore.CreateBatchAds | pkg/inmem/store.go:36-45 | the batch step of a history; a panic exactly when one of its ads ends at age 255 |
| Store.InMemoryStore.GetAds | pkg/inmem/store.go:56-65 | the answer is the query of the store's state, its length the count; where the index agrees with the live ads it is, in their fields, the page ReadInFields states |
| Store.InMemoryStore.DeleteAd | pkg/inmem/store.go:68-73 | the delete step of a history: a known id leaves the index and stays in the map, an unknown one is a nil dereference |
| Log.MaxVersion | pkg/service/ad.go:73 | a version that is the maximum of the table's, 0 for an empty table |
| Log.DeleteTable | pkg/service/ad.go:64-88 | deleting an existing row leaves one tombstone, which carries the new maximum, so collecting older tombstones never lowers it; the active rows lose exactly that ad |
| Log.DeleteMissingRow | pkg/service/ad.go:78-84 | a delete that finds no row lowers the maximum version exactly when a tombstone carried it |
| Log.LogPreserved | pkg/service/ad.go:322-362 | in every run, lost publishes included: the maximum version counts the commits, row versions are distinct, at most one tombstone remains, stream ids strictly increase, each entry is the commit of its number, and the stream never rejects a publish |
| Log.HealthyPreserved | pkg/service/ad.go:332-358 | without lost publishes the stream has no gap, lags the commits by at most the write in progress, and the active rows are the fold of the commits |
| Log.FoldMeaning | pkg/service/ad.go:64-88 | an ad is in the fold of the commits exactly when it was created and not deleted since |
| Log.ReadMeaning | pkg/service/ad.go:242-247 | of a stream trimmed to 100000 entries, a read returns the next entries, at most 10, in order and without a gap, exactly when the reader is at most 100000 behind |
| Log.MissingRowLosesCreate | pkg/service/ad.go:78-108 | the create after a published delete is rejected by the stream, its row active, exactly when the delete found no row |
| Log.AheadAfterDelete | pkg/service/ad.go:72-108 | a delete leaves the stream ahead of the table by nothing when it found its row, and otherwise by the commits so far plus one less the highest active version |
| Log.LostCreates | pkg/service/ad.go:322-362 | of any creates in a row, the stream rejects exactly as many as it is ahead, and those first |
| Log.LostCreateComesUp | pkg/service/ad.go:78-108 | from the empty service: create, delete an id with no row, create; the last is rejected, its row active |
| Replica.LogGrows | pkg/service/ad.go:332-358 | commits and publishes elsewhere do not disturb a replica's invariant |
| Replica.SnapshotInv | pkg/service/ad.go:186-206 | a snapshot taken at any moment, a committed write not yet in the stream included, starts a replica off at the fold of the commits up to its version |
| Replica.AcceptInv | pkg/service/ad.go:253-271 | an accepted entry is the one right after the replica's version |
| Replica.DeletePanics | pkg/inmem/store.go:71 | a delete entry dereferences nil exactly when a start timer of its own ad is still pending, and then that timer is overdue |
| Replica.DeleteKnown | pkg/inmem/store.go:71 | with the ad's own timer fired if due, the store knows the ad and no timer is left for it, so the nil dereference is out of reach |
| Replica.BatchAdInv | pkg/dispatcher/request_multiplexer.go:30-49 | restoring one ad, at once or by a timer, keeps live plus pending equal to the fold; with a loop variable per ad for every batch, with a shared one where only the last ad may be delayed |
| Replica.ApplyCreateInv | pkg/dispatcher/request_multiplexer.go:60-76 | applying a create entry, at once or by a timer, advances the replica to the fold of one more commit |
| Replica.EntryShows | pkg/dispatcher/request_multiplexer.go:60-76 | an applied create is live at once exactly when its ad started strictly before now, and otherwise waits on its own timer, due at its start |
| Replica.RestoredShows | pkg/dispatcher/request_multiplexer.go:32-41 | the same for a restored ad, its timer being on the loop's variable where that is shared |
| Replica.FireInv | pkg/dispatcher/request_multiplexer.go:68-75 | a timer moves its ad from pending to live |
| Replica.ReplicaPreserved | pkg/service/ad.go:185-280 | every step of restore, subscribe, dispatch and timers keeps: each operation after the restored version applied once and in order, and live plus pending ads equal to the fold of the commits applied |
| Replica.CaughtUp | pkg/service/ad.go:185-280 | with nothing queued and no timer due, a replica has live exactly the ads committed up to its version, not deleted up to it, and started; at the last version, those of the table |
| Replica.NaiveAnswer | pkg/service/ad.go:185-280 | such a replica answers every request with the page of those ads that match |
| Replica.SameVersionSameAnswer | pkg/service/ad.go:185-280 | two replicas at one version answer alike, whatever snapshots they began from: snapshot plus suffix is replay of the whole log |
| Replica.LoopLoses | pkg/dispatcher/request_multiplexer.go:32-41 | with the loop variable shared, when the loop moves on an id neither in the rest of the batch nor in the store is lost: no timer will create it |
| Replica.LostStays | pkg/dispatcher/request_multiplexer.go:30-76 | no step of the replica brings a lost ad back, unless the log creates its id again |
| Replica.LostDeletePanics | pkg/inmem/store.go:71 | over any steps of the replica, a lost ad never gets into the store, and applying its delete ends the process |
| Replica.RestoreLoses | pkg/dispatcher/request_multiplexer.go:32-41 | from a table of two active ads yet to start, a restore loses the first |
| Cluster.Preserved | pkg/service/ad.go:366-436 | every step of log, replicas and callers keeps the whole invariant |
| Cluster.EveryAnswer | pkg/service/ad.go:185-280 | in every run a settled replica answers every request naively as of its version, which at the last version is over the table's active rows; and in their fields, the page of the folded, started ads |
| Cluster.NoPanicNoUnknown | pkg/service/ad.go:367-436 | in no run does a replica panic or a caller end with ErrUnknown |
| Replies.SendBlocksOnlyOnTimeout | pkg/dispatcher/request_multiplexer.go:78-84 | a dispatcher about to reply never finds the channel full, and can send exactly when its caller has not timed out and deregistered since the check |
| Replies.BlockedForGood | pkg/dispatcher/request_multiplexer.go:78-84 | a dispatcher about to send on a deregistered channel stays so in every continuation, and its replica applies no further entry |
| Answers.CreatedStays | pkg/service/ad.go:332-358 | a committed ad is in every later fold unless a delete of its id was committed in between |
| Answers.CreateIsVisible | pkg/service/ad.go:367-393 | in every run a reply to CreateAd carries the caller's own ad's id, and an ad started before the call is then live at that replica until its delete is applied |
| Answers.LiveIsFound | pkg/inmem/index.go:62-76 | a live ad is on the path of every request it matches |
| Answers.BeginFixes | pkg/service/ad.go:367-424 | what a call was begun with, its request or ad, its replica and its time, it keeps in every later state |
| Answers.ReadsAreAtomic | pkg/dispatcher/request_multiplexer.go:87-98 | in every run the answer to a read begun with a request at a replica is, at one moment between its beginning and its reply, the page in fields of that request over the ads live there, and its total is its length |
| Answers.ReadsSeeWrites | pkg/service/ad.go:366-436 | in every run, once a reply has come to the CreateAd of a started ad, every matching read begun later at that replica is a page of live ads that include it, unless its delete has been applied there by then |
| Replies.AtMostOneReply | pkg/dispatcher/request_multiplexer.go:51-97 | in every run, across all replicas, at most one reply is sent to a request and its channel is found at most once, although it is still registered after the receive |
| Progress.DueTimerFires | pkg/dispatcher/request_multiplexer.go:40-47 | in every state of every run each due timer can fire, whether it has an ad of its own or the loop's variable; then it is gone and its ad is live |
| Progress.AlwaysSettles | pkg/service/ad.go:185-280 | from every state of every run a replica, down, restoring or subscribed, can settle at the stream's last version, unless its dispatcher is blocked for good or it is more than 100000 entries behind |
| Progress.ReadAnswered | pkg/service/ad.go:412-436 | from every state of every run a read whose caller waits can be answered, unless its dispatcher has yet to take it and is blocked for good |
| Progress.CreateAnswered | pkg/service/ad.go:383-387 | from every state of every run a waiting create whose entry is in the stream can be answered with its ad's id |
| Progress.CreateSucceeds | pkg/service/ad.go:367-393 | from every state of every run with the lock free, a create of a new, proper ad can be written, published, applied and answered |
| Scenarios.ReadComesUp | pkg/service/ad.go:412-436 | a run from the empty service in which a read returns the ad just created, with total 1 |
| Scenarios.DelayedComesUp | pkg/dispatcher/request_multiplexer.go:32-47 | a run in which an ad restored before its start, the loop variable shared, is live once its timer has fired |
| Scenarios.DeleteComesUp | pkg/service/ad.go:268-271 | a run from the empty service that brings a delete to a replica whose store has the ad live |
| Scenarios.BlockComesUp | pkg/dispatcher/request_multiplexer.go:78-84 | a run from the empty service that leaves a dispatcher blocked |
| Service.Shared.SelectMaxVersion | pkg/service/ad.go:73 | the query returns the table's maximum version |
| Service.Shared.FindActive | pkg/service/ad.go:191-192 | the query returns exactly the active ads, none twice, in some order |
| Service.AdService.StoreAndPublishWithLock | pkg/service/ad.go:303-364 | one whole write of the log or none; it succeeds exactly when the lock is obtained, the commit succeeds with a new id and the publish arrives above the stream's last id; then, and only then, the stream has one more entry, the row's |
| Service.AdService.DeleteAd | pkg/service/ad.go:47-115 | the same for a delete: exactly when it succeeds, and which rows and entries are left, field by field |
| Service.AdService.Restore | pkg/service/ad.go:185-206 | the version becomes the table's maximum and exactly the active ads are sent as one batch; an error sends nothing |
| Service.AdService.HandleMessages | pkg/service/ad.go:252-276 | of any messages, those above the version at their turn have their operations sent on, one by one and as they are, and version and last id follow the last of them |
| Service.AdService.Subscribe | pkg/service/ad.go:223-280 | whatever the stream holds at each read, growing in between or not, what is sent has strictly increasing ids above the starting version; where no read finds a gap or the replica too far behind, it is every entry from that version on, once and in order |
| Service.AdService.Poll | pkg/service/ad.go:241-276 | one read: what it returns goes through the version test and is sent on, and the last id follows the version |
| Subscriber.PollIsSteps | pkg/service/ad.go:241-276 | over any steps of a replica from a read to the end of its batch, however dispatcher and timers interleave, version, last id and the channel change exactly as Poll says |
| Service.AcceptedIncreasing | pkg/service/ad.go:255-262 | whatever arrives, the accepted messages are in strictly increasing order of ids above the version |
| Service.AcceptedMeaning | pkg/service/ad.go:255-262 | a message is accepted exactly when its id is above the version and above every id before it |
| Service.SentAt | pkg/service/ad.go:263-271 | what is sent for the accepted messages is, position by position, their operations |
| Service.AllAccepted | pkg/service/ad.go:255-262 | nothing is skipped exactly when the messages arrive in that order |
| Service.IncreasingMeaning | pkg/service/ad.go:255-262 | of any two accepted messages the earlier has the smaller id, and both are above the version |
| Service.RoundOfReadable | pkg/service/ad.go:241-276 | one more read of a stream without gaps extends what was accepted by exactly the next entries, ten at most, never past the end |
| Dispatcher.Dispatcher.HandleCreate | pkg/dispatcher/request_multiplexer.go:60-76 | a started ad is created at once; another leaves the store alone and a timer on a variable of its own |
| Dispatcher.Dispatcher.HandleCreateBatch | pkg/dispatcher/request_multiplexer.go:30-49 | the started ads are created in order, and all the others leave timers on one variable, which ends up holding the last ad of the batch |
| Dispatcher.Dispatcher.HandleDelete | pkg/dispatcher/request_multiplexer.go:100-101 | the ad is deleted, or the process panics on an id the store does not know |
| Dispatcher.Dispatcher.Fire | pkg/dispatcher/request_multiplexer.go:40-47 | a timer creates what its variable holds when it fires |
| Dispatcher.Dispatcher.RestoreAndFireAll | pkg/dispatcher/request_multiplexer.go:30-49 | a batch and then all its timers, in whatever order: the started ads are created, then the last ad once for every delayed one |
| Store.CreateEachMeaning | pkg/dispatcher/request_multiplexer.go:32-38 | creating ads of distinct ids one by one adds exactly them, and panics exactly when one of them ends at age 255 |
| Dispatcher.SharedVariable | pkg/dispatcher/request_multiplexer.go:32-49 | when all timers have fired a batch is whole exactly when each delayed ad is the last one or was live before; with a variable per ad it always is |
| Dispatcher.LastEarly | pkg/dispatcher/request_multiplexer.go:40-47 | the last ad of a batch is live at a time exactly when it had started, was live before, or the start of some delayed ad of the batch has come |
| Dispatcher.LastComesBack | pkg/dispatcher/request_multiplexer.go:40-47 | deleted at a time, the last ad is created again exactly when some delayed ad of the batch starts later |
| Dispatcher.RestoreOrderFree | pkg/service/ad.go:192 | two orders of a restored batch end alike exactly when no ad is delayed, the last ads are the same, or neither last ad needs a timer |
| Dispatcher.RestoreOnlyAdds | pkg/service/ad.go:200-206 | restoring over a store that is not empty gives the snapshot exactly when nothing live is missing from it |

## Left out

- RunMeaning: speaks of one ad per id; for re-adds that change an ad see CreateAgrees.
- EveryAnswer: assumes no lost publish, no missing row, ids not reused, own timers on time, a reader less than 100000 behind and, with a shared loop variable, no delayed ad before the last of a batch, as listed under Assumptions; a lost publish does leave replicas behind the table.
- NoPanicNoUnknown: under the same assumptions; DeletePanics and LostDeletePanics say when a replica does panic.
- LastComesBack: the deletes of a batch's ads other than the last are not in it; one of a lost ad ends the process (LostDeletePanics).
- AlwaysSettles: gives a continuation, as do ReadAnswered, CreateAnswered and CreateSucceeds; that the scheduler takes it is not claimed. While a batch with a shared loop variable is being restored, the continuation waits for the ads to start, as the assumption on such batches asks.
- Expiry of the lock while it is held, and what two writers at once would do.
- Restoring again after an error or a retry (`pkg/service/ad.go:150-178`): a replica of Cluster restores once, from an empty store; RestoreOnlyAdds covers a second restore of the store alone.
- The reply to Restore and its timeout (`pkg/service/ad.go:208-219`): a replica's Restore step waits for its batch; the callers of Cluster are those of CreateAd and GetAds.
- Time passing while a batch is being handled, and timers firing in between: HandleCreateBatch reads one clock; Replica lets the clock advance and timers fire between two ads.
- Clock skew between replicas: one clock serves the whole model.
- The goroutines of AddAd all exist from the moment a node's values are expanded, and the wait for them is the end of the schedule; spawning one by one only removes interleavings.
- A leaf's sorted set and an internal node's map are a sequence and a map; their libraries' internals, and the locks inside them, are single atomic steps.
- The store's mutex: each store operation is one atomic step of a replica or of a read.
- Scheduling of the delete (`pkg/service/ad.go:395-409`, `pkg/service/task.go:16-22`): a delete may begin at any time at or after the ad's end.
- A failed enqueue of the delete task and a failed write both end a call like a timeout does (the GiveUp event of Cluster).
- UUIDs are numbers, ordered as their text is; CreatedAt is in whole seconds; JSON, reflection and time formatting are left to the datatypes.
- The scalar branch of GetValueByKey (`pkg/model/ad.go:63-71`): none of the four keys reaches it.
- Rank ranges with a negative offset or a limit below 1: the binding rules of a read exclude them (`pkg/model/ad.go:116-117`).
- HTTP routes and controllers, configuration, start-up and shutdown, the reverse proxy, data injection, back-off and logging: input and output with no property of their own.
- `pkg/inmem/store_experient.go`: commented out.
