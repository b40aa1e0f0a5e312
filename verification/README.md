# The lease-cached store, modelled and proved

The system is a small social network in Go. An application server keeps users, subscriptions and
posts in a key-value store; the store is spread over several servers by consistent hashing; and a
client library caches what it reads under leases that a server calls in before it changes a value.
This project models that stack in Dafny, from the string formats up, and proves what it guarantees,
together with the exact conditions under which it does not.

`dafny verify dfyconfig.toml` checks everything.

| file | what it holds |
|---|---|
| `Ordered.dfy` | strictly ascending sequences and the binary search over them |
| `KeyCodec.dfy` | key and lease-record formats, with Go's `Split`, `FormatInt`, `ParseInt` |
| `ListStore.dfy` | what the four write calls do to stored lists; lists refine sets |
| `ClientCache.dfy` | lease constants, and the cache slot of one key |
| `LeaseProtocol.dfy` | the lease protocol as a state machine, its invariant, one step at a time |
| `LeaseRuns.dfy` | what holds over whole runs of the protocol |
| `LeaseHistory.dfy` | query histories over runs, and what stays in the tables of clients and server |
| `LeaseKinds.dfy`, `LeaseModes.dfy` | what the two kinds of reads and the three modes of a client mean over runs |
| `LeaseMishaps.dfy` | one run for each way the protocol fails |
| `HashRing.dfy` | key ownership, ring building and registration |
| `Libstore.dfy`, `StorageServer.dfy` | the client library and the storage server as classes |
| `ServerRefinement.dfy` | the server's calls are steps and runs of the lease protocol |
| `Timeline.dfy` | the newest of a collection, and the user and home timelines |
| `AppProtocol.dfy`, `AppRuns.dfy` | application requests as interleaved storage calls, and their runs |
| `AppTimelines.dfy` | timelines whose storage calls are spread over a run |
| `AppEffects.dfy` | who exists, who is subscribed, what is listed and what it says, in terms of the requests of a run |
| `AppRequests.dfy` | what each request answers, and what it does when it runs alone |
| `AppMishaps.dfy` | runs in which a timeline fails or hides a post, or a listed post has no contents |

## The lease protocol

The machine of `LeaseProtocol` has one storage server with its one lock, any number of clients, any
number of keys, and a clock that counts whole seconds. Nothing is made atomic that the code does not
lock:

- A read has three steps: the client consults its table, the server answers and notes the lease, the
  answer lands. Anything may happen in between, because the client drops its lock around the call.
- A write that calls leases in takes the lock, deals with the tenants one at a time (skip, call,
  acknowledge, time out) and commits. Clients, callbacks, the recycler and the clock go on meanwhile.
  The order of the tenants is arbitrary here; in `StorageServer.CallIn` it is the ledger's.
- `CallFailed` is a callback that ends in an error. The server does not look at the error and goes on.
- A callback may run at any time, on time or late, or never. The recycler may look at any key.
- No host has a tilde in its name: `Host` is the type of strings without one. The server's lease records
  put a tilde after the host, and for other names the protocol is not what the code does (see below).
- The mode of a client is chosen anew for every read, which covers the three fixed modes.
- A run is any sequence of steps; a step that is not possible where it stands changes nothing.

`epoch`, `stamp`, `serve` and `crossed` in a copy, and `lost` in the lock, are bookkeeping for the
statements. No step depends on them.

The main results are `OutdatedIffEscaped` (a leased copy is out of date if and only if one of four
things let a write past it), `CurrentWithinLease` (without the three mishaps, a copy is current until
its lease runs out by the server's clock), `LedgerCoherence` (if answers land at once, whatever the
server has on its books is coherent at every moment) and `BoundedBlocking` (a write waits at most one
lease and guard in all).

## What the code does not do

Each of these is a run in `LeaseMishaps` or a condition in a lemma:

- A hit extends the client's lease by the client's clock, while the server keeps the first time it
  noted. A client that keeps asking can read a stale value with nothing else going wrong, as long
  after the write as it goes on asking (`ClientExtendsItsLease`). A hit can be trusted exactly if the
  last query before it came less than the guard seconds after the noted time (`HitIsCurrentIff`).
- The server ignores the error of a callback and commits over a live lease (`CallbackErrorUnread`).
- A callback that overtakes the answer it should revoke finds nothing, and the answer lands stale
  (`CallbackOvertakesAnswer`).
- An append to an existing empty list calls no leases in (`AppendToEmptyListIsQuiet`).
- If the recycler drops a record while a read under it is on its way, the answer is cached without a
  record, and the next callback dereferences nil (`RecycledRecordOrphansCache`); this is the only way
  (`CallbacksSafeIffNoOrphans`).
- A user whose name has a colon can post (`AnyoneCanPost`) but can never delete a post
  (`DeletableIffNoColon`).
- The posts of such a user are shown under another name, and their keys all read as the same time
  (`ShownAsPostedIff`, `ColonTimeIsConstant`). So the user's timeline is in the order of posting only
  if there is but one post (`UserTimelineIsChronologicalIff`), and a home timeline can be full of older
  posts and leave the newest one out (`NewestPostLeftOut`).
- A timeline reads a list in one call and each post in another. If a post is deleted between the moment
  whose store the list reflects and the moment whose store its own answer reflects, the whole request
  fails (`DeletionBetweenReads`); a list that comes from the cache reflects an earlier moment, so the
  deletion may also come before the request. That, or an answer that reflects a moment before the post was
  put, is exactly when it fails (`UserTimelineSucceedsIff`, `HomeTimelineSucceedsIff`).
- The lease of a host with a tilde in its name reads back under another name and at a time that is part
  of the name (`TildeHostReadsBack`). Once that time has passed, and for "a~b" it is second 11
  (`TildeExample`), the server skips the lease and commits over it at once, however long it has still to
  run (`TildeLeaseNotWaitedForIff`, `WriteOverTildeLease`). The record can spoil the order of the ledger
  (`TildeSpoilsLedger`) or take the place of another client's (`TildeTakesAnothersPlace`).
- A hit ignores the kind of read it was asked for: after `Get` has cached a list key, `GetList` answers the
  first item only (`MixedKindsCutLists`). The key formats keep the kinds apart (`KeysHaveOneKind`,
  `HitHasKindAsked`).
- Two posts of a user in the same nanosecond share a key; with a deletion between them a listed post ends
  up without contents (`RepeatedKeyDangles`). Without such posts the invariant holds (`FreshRunsKeepInv`).
- The repository's README says the home timeline includes the user's own posts; the line that would
  do it is commented out (src/stwserver/stwserver_impl.go:304), and the model follows the code.

## The other layers

`fnv` stands for the 32-bit hash in every statement about ownership, so those statements hold for any
hash. In `StorageServer`, `answers` says how long each client takes to answer a callback, if it ever
does, so the timing results hold for any pattern of answers. `ServerRefinement` ties that class to the
protocol: a read is an answer, and a write is a run of lock, tenant and commit steps. In
`AppProtocol`, `enc` stands for the key formats; `AppRuns` puts in the real ones, whose injectivity is
proved. `posted` and `claims` there are bookkeeping: only the assumption that a new post has a new key
reads them. Timelines only read, so
they are not requests of that machine; `stores(n)` is the store that the answer to call `n` of a timeline
reflects, and `AppTimelines` takes those stores from any moments of a run, in any order. That covers
answers from a client's cache: each reflects the store of one earlier moment (`CopyReflectsOneMoment`).
`Newest.SortNewestFirst` stands for `sort.Sort`; nothing about it is used except that its result is an ordered permutation.

## Model

| member | source | states |
|---|---|---|
| `LeaseRuns.OutdatedIffEscaped` | src/storageserver/storageserver_impl.go:184-266 | for hosts without a tilde, in every state of every run, a copy held under lease, cached or on its way, is current (it equals the stored value, no write to its key has committed since it was handed out, and its lease is on the server's books) if and only if no write got past it by one of four causes: expiry by the server's clock, an unread callback error, a callback that overtook the answer, an append to an empty list. A write past the lease that puts the same value back counts as outdating it |
| `LeaseRuns.CleanCause` | src/storageserver/storageserver_impl.go:245-265 | without mishaps, an outdated copy means a write to its key committed no sooner than the recorded time plus lease and guard |
| `LeaseRuns.CurrentWithinLease` | src/rpc/storagerpc/proto.go:19-24 | the lease promise, for hosts without a tilde: without mishaps every leased copy is what the server holds until lease and guard have passed since the recorded time, in the middle of writes too |
| `LeaseRuns.HitWithinGuardIsCurrent` | src/libstore/libstore_impl.go:202-219 | a cache hit is current if the previous query came within the guard seconds of the server's recorded time, however often the client has extended its own lease |
| `LeaseMishaps.HitIsCurrentIff` | src/libstore/libstore_impl.go:202-219 | for every d: all hits, in all runs without mishaps, whose last query came d seconds after the server's recorded time are current if and only if d is less than the guard seconds |
| `LeaseMishaps.LateHit` | src/libstore/libstore_impl.go:202-219 | for every client, key and d from the guard seconds on there is a run without mishaps with such a hit that is not current |
| `LeaseRuns.CopyReflectsOneMoment` | src/libstore/libstore_impl.go:212-219 | every copy held under lease, however old, is what the server would have answered at some one moment of the run |
| `LeaseHistory.HistoryIsTail` | src/libstore/libstore_impl.go:243-253 | in every state of every run a record's history is the last three, in order, of all the hits and answers that have reached that record since it was made |
| `LeaseHistory.MissWantsLeaseIff` | src/libstore/libstore_impl.go:220-224 | so a client in normal mode that misses asks for a lease if and only if it has a record and at least three of all those queries fall in the last ten seconds |
| `LeaseHistory.HitIff` | src/libstore/libstore_impl.go:202-219 | in every state of every run a read in normal mode is a hit if and only if the record is granted and its last query no older than the lease, and it hands out what is cached |
| `LeaseHistory.LandEffect` | src/libstore/libstore_impl.go:241-259 | an answer with a lease is cached and grants the record it reaches, one without touches neither cache nor grant, and the query is that record's last |
| `LeaseHistory.RecordLeavesIff` | src/libstore/libstore_impl.go:159-166 | a record leaves the table if and only if the recycler looks at it and it is lapsed or without a grant |
| `LeaseHistory.CopyLeavesIff` | src/libstore/libstore_impl.go:431-443 | a cached value leaves if and only if a callback takes it, or with its record |
| `LeaseHistory.RecordInUseStays` | src/libstore/libstore_impl.go:159-166 | in every run a record with a grant that has not lapsed survives every step, and its cached value survives all but the callback |
| `LeaseHistory.CallbackKeepsHistory` | src/libstore/libstore_impl.go:435-437 | a callback takes the cached value and the grant and keeps the record with its history |
| `LeaseHistory.BooksHaveFirstTime` | src/storageserver/storageserver_impl.go:185-200 | in every run the time on the books is that of the first answer with a lease since the key was last written, however many leases were given since |
| `LeaseModes.NeverHasNoLeases` | src/libstore/libstore_impl.go:196-198 | in every run, a client all of whose reads are in mode Never is on no ledger, has nothing cached and has no read under way that asks for a lease |
| `LeaseModes.AlwaysAsksForLeases` | src/libstore/libstore_impl.go:199-200 | in every run, all reads under way of a client in mode Always ask for a lease |
| `LeaseModes.AlwaysIsNoted` | src/storageserver/storageserver_impl.go:217-220 | and with every answer such a client is on the key's ledger |
| `LeaseModes.AlwaysGoesToTheServer` | src/libstore/libstore_impl.go:199-200 | a read in mode Always is never a hit and asks for a lease |
| `LeaseModes.NeverGoesToTheServer` | src/libstore/libstore_impl.go:196-198 | a read in mode Never is never a hit and asks for none |
| `LeaseKinds.HitHasKindAsked` | src/libstore/libstore_impl.go:330-338 | if every key is read in one way only, every hit has the kind that was asked for, and a current one is what the server would answer to that read |
| `LeaseKinds.KeysHaveOneKind` | src/util/keyFormatter.go:14-50 | the key formats tell list keys from the others, so no key has two kinds |
| `LeaseMishaps.MixedKindsCutLists` | src/libstore/libstore_impl.go:254-258 | for every client and key there is a run after which the next read, of either kind, answers the first item of a longer list from the cache |
| `LeaseRuns.LedgerCoherence` | src/storageserver/storageserver_impl.go:313-411 | if answers land at once and nothing is appended to an empty list, then at every moment whatever a client has cached under a recorded lease equals the stored value |
| `LeaseRuns.BoundedBlocking` | src/storageserver/storageserver_impl.go:240-266 | the whole revocation loop lasts no longer than the latest lease on the key, so at most one lease and guard in all, for any number of tenants and any pattern of answers |
| `LeaseRuns.WriteCanFinish` | src/storageserver/storageserver_impl.go:240-266 | from every moment of every run a write under way can be finished by the server alone, with no help from any client, within one lease and guard of its beginning: there is a continuation after which exactly its change is made and its key has no leases |
| `LeaseRuns.NoInconsistentCache` | src/libstore/libstore_impl.go:207-215 | the "Cache inconsistent" exit cannot be reached in any run, and every key with a ledger is stored |
| `LeaseRuns.CallbacksSafeIffNoOrphans` | src/libstore/libstore_impl.go:431-443 | the callback's record lookup succeeds at every moment of a run if and only if no answer lands under a record that was recycled meanwhile |
| `LeaseRuns.CallbackFindsRecord` | src/libstore/libstore_impl.go:254-258 | in such runs a cached key always has a record |
| `LeaseRuns.InvHolds` | src/storageserver/storageserver_impl.go:319-323 | the protocol invariant over all runs: ledgers of stored keys only and none from the future, every tenant of a write under way still to do or settled, answered hosts holding nothing but overtaken answers, granted keys cached |
| `LeaseProtocol.BackedStep` | src/storageserver/storageserver_impl.go:245-265 | one step of anything leaves a current copy current unless it is one of the four causes |
| `LeaseProtocol.QuietWriteIff` | src/storageserver/storageserver_impl.go:338-345 | in every state, a write to a stored key calls no leases in if and only if it is an append to an empty list |
| `LeaseProtocol.InvStep` | src/storageserver/storageserver_impl.go:240-266 | every step of the server, a client or the clock keeps the invariant |
| `LeaseProtocol.LockBooksStep` | src/storageserver/storageserver_impl.go:245-264 | the tenant loop settles each tenant by answer, error or expiry before it goes on, and no lease is younger than the write |
| `LeaseMishaps.StaleHitHasCause` | src/libstore/libstore_impl.go:212-219 | every stale hit of every run goes back to one of the four causes |
| `LeaseMishaps.ClientExtendsItsLease` | src/libstore/libstore_impl.go:203-211 | for every client, key and number of seconds there is a run without mishaps that ends in a stale hit that long after the write committed |
| `LeaseMishaps.CallbackErrorUnread` | src/storageserver/storageserver_impl.go:256-263 | a failed callback leads to a stale hit within the same second |
| `LeaseMishaps.CallbackOvertakesAnswer` | src/libstore/libstore_impl.go:227-258 | so does a callback between the answer and its landing |
| `LeaseMishaps.AppendToEmptyListIsQuiet` | src/storageserver/storageserver_impl.go:341-345 | so does an append to an existing empty list |
| `LeaseMishaps.RecycledRecordOrphansCache` | src/libstore/libstore_impl.go:159-166 | a run after which the callback dereferences nil |
| `ClientCache.RecallIsTail` | src/libstore/libstore_impl.go:250-253 | pushing and trimming one query at a time leaves the last three of all query times |
| `ClientCache.HistorySuffices` | src/libstore/libstore_impl.go:221-223 | three remembered times decide what all would: a lease is asked for if and only if at least three of all queries fall in the last ten seconds |
| `Libstore.Libstore.BeginRead` | src/libstore/libstore_impl.go:192-227 | the first half of a read, by mode, on the tables: the slot's new state and the decision are those of the protocol, mode Never asks for no lease and mode Always for one, whatever the record; a hit is logged as a query and nothing else is, no other key changes, and the exit is not taken |
| `Libstore.Libstore.Consult` | src/libstore/libstore_impl.go:319-345 | the same for a recorded key in normal mode: lapse, hit with the query noted, or a question with or without a lease; the log grows by a hit |
| `Libstore.Libstore.FinishRead` | src/libstore/libstore_impl.go:363-384 | the second half after an `OK` reply: cache, record and history as in the protocol, also when the record was recycled or replaced; a new record's log is this one query, one that is still there gets it added, any other keeps its log; other keys kept |
| `Libstore.Libstore.RevokeLease` | src/libstore/libstore_impl.go:431-443 | `KeyNotFound` exactly if the key was not cached; otherwise it is uncached and no longer granted, and the lookup dereferences nil exactly if the key has no record |
| `Libstore.Libstore.RecycleKey` | src/libstore/libstore_impl.go:160-166 | a lapsed or ungranted record goes with its cached value, any other stays |
| `Libstore.Libstore.HistoryStandsForQueries` | src/libstore/libstore_impl.go:372-375 | in every valid state a record's history is the tail of its log, to which the methods add every hit and every answer that reaches the record and nothing else, and it counts as frequent exactly when the log does |
| `StorageServer.OneRecordPerHost` | src/storageserver/storageserver_impl.go:195-200 | a ledger is a map: one record for each host |
| `StorageServer.AddLease` | src/storageserver/storageserver_impl.go:184-201 | a host without a tilde is on the ledger afterwards with the first time it was leased the key, and nothing else changes; for any other host a record is added every time; the ledger stays strictly sorted exactly when the host has no tilde or reads back as a new one |
| `StorageServer.TildeLeaseNotWaitedForIff` | src/storageserver/storageserver_impl.go:245-250 | the lease of a host with a tilde makes no difference to the tenant loop, whatever the clients answer, if and only if the time in its name has run out |
| `StorageServer.WriteOverTildeLease` | src/storageserver/storageserver_impl.go:319-325 | then a put commits at the very time it begins, whenever the lease was given |
| `StorageServer.TildeSpoilsLedger` | src/storageserver/storageserver_impl.go:190-199 | a lease of such a host on a ledger with the host it reads back as leaves the ledger out of order |
| `StorageServer.TildeTakesAnothersPlace` | src/storageserver/storageserver_impl.go:190-200 | after a lease of such a host the host it reads back as is not noted, and stands there with the time in the name |
| `StorageServer.CallIn` | src/storageserver/storageserver_impl.go:245-264 | the loop ends at the time that a fold over the ledger gives, in which the wait for each tenant ends at the earlier of its answer and its expiry, counted from when it is called; within one lease and guard if no record is from the future |
| `StorageServer.DoneWith` | src/storageserver/storageserver_impl.go:247-263 | the first moment from the call on at which the client's answer is in or the lease has run out |
| `StorageServer.LoopDealsWithAll` | src/storageserver/storageserver_impl.go:245-264 | when the loop ends every tenant was called and has answered, or its lease has run out |
| `StorageServer.LoopEndBound` | src/rpc/storagerpc/proto.go:22-23 | for any number of tenants and any answers the loop ends no later than the expiry of one of the leases, and at most one lease and guard after the write began |
| `StorageServer.LoopEndIfAllAnswer` | src/storageserver/storageserver_impl.go:261-262 | if every client answers within d seconds the loop lasts at most d seconds for each of them, and no time at all if d is zero |
| `StorageServer.LoopEndIfNoneAnswers` | src/storageserver/storageserver_impl.go:257-260 | if no client answers the loop ends when the last of the leases has run out |
| `StorageServer.WriteCallsLeasesIn` | src/storageserver/storageserver_impl.go:313-411 | every write that changes a stored value, but an append to an empty list, takes the key off the books after every client on it has answered or its lease has run out |
| `StorageServer.StorageServer.MineIsSuccessor` | src/storageserver/storageserver_impl.go:176-182 | the server takes a key for its own if and only if it is the successor of the key's hash on its ring |
| `StorageServer.StorageServer.Read` | src/storageserver/storageserver_impl.go:288-311 | status by ownership and presence, the stored list, the lease, no change but to the key's ledger, for a host without a tilde exactly its first time added to it, and for any other one record more |
| `StorageServer.StorageServer.RevokeLease` | src/storageserver/storageserver_impl.go:240-266 | all leases on the key dealt with and dropped, the others kept, at the time the loop ends, within one lease and guard |
| `StorageServer.StorageServer.Put` | src/storageserver/storageserver_impl.go:313-327 | replaces the value after calling all leases in and dropping them; refused with no effect on the wrong server |
| `StorageServer.StorageServer.Delete` | src/storageserver/storageserver_impl.go:268-286 | removes the key after calling its leases in, or `KeyNotFound` with no effect |
| `StorageServer.StorageServer.AppendToList` | src/storageserver/storageserver_impl.go:329-373 | inserts in order or answers `ItemExists`; on a list that is not empty the leases are called in and dropped first, whichever branch inserts; every index is in range |
| `StorageServer.StorageServer.RemoveFromList` | src/storageserver/storageserver_impl.go:375-411 | removes exactly the item after calling leases in, or `ItemNotFound` with no effect |
| `ServerRefinement.ReadIsAnAnswer` | src/storageserver/storageserver_impl.go:297-306 | a leased read of the server is an answer step of the lease protocol, with the sorted ledger read as its map |
| `ServerRefinement.OtherReadIsAnAnswer` | src/storageserver/storageserver_impl.go:297-309 | a read without a lease, or of a key that is not stored, is one too and leaves the server as it is |
| `ServerRefinement.ViewIsAnswer` | src/storageserver/storageserver_impl.go:212-216 | `Get` answers the first item or an empty string, `GetList` all items |
| `ServerRefinement.WriteIsARun` | src/storageserver/storageserver_impl.go:313-411 | every write call of the server is a run of the protocol, for any answers of the clients: the end time, the store and the ledgers agree |
| `ServerRefinement.LoopPath` | src/storageserver/storageserver_impl.go:245-264 | the tenant loop is a path of skip, call, tick, callback, acknowledge and timeout steps that takes exactly as long |
| `ServerRefinement.AnswerPath` | src/storageserver/storageserver_impl.go:256-263 | a tenant that answers in time has run its callback, and has nothing cached when the loop goes on |
| `StorageServer.FindItem` | src/util/common.go:22-35 | where the item is if and only if it is there, and otherwise where inserting it keeps the order |
| `StorageServer.AppendAtEnd` | src/storageserver/storageserver_impl.go:346-351 | the shortcut for an item above the last one is the general insertion |
| `Ordered.BinarySearch` | src/util/common.go:72-87 | the slot of the value under any strict order and key, and a hit if and only if the value is there |
| `Ordered.InsertKeepsOrder` | src/storageserver/storageserver_impl.go:361-363 | shifting up and writing adds exactly the item, and keeps the order exactly when it is new |
| `Ordered.RemoveKeepsOrder` | src/storageserver/storageserver_impl.go:399-400 | removal keeps the order, takes away exactly the item, one place at most |
| `Ordered.RemoveAt` | src/storageserver/storageserver_impl.go:399-400 | shifting down over a position is that removal |
| `Ordered.AscendingIsCanonical` | src/storageserver/storageserver_impl.go:329-411 | a sorted list is determined by its set of items |
| `ListStore.PlanRefinesSets` | src/storageserver/storageserver_impl.go:338-370 | one call leaves a sorted list that is the set the simple form leaves; `ItemExists` and `ItemNotFound` exactly by membership; one item more or less |
| `ListStore.WhichWritesRevoke` | src/storageserver/storageserver_impl.go:338-370 | a call that changes anything calls leases in unless it appends to an empty or absent list |
| `ListStore.ListsRefineSets` | src/storageserver/storageserver_impl.go:313-411 | over any sequence of calls on any keys: same contents and same replies as a map of sets, all lists sorted |
| `ListStore.HistoryIndependence` | src/storageserver/storageserver_impl.go:329-411 | two histories that reach the same sets hold identical lists |
| `ListStore.AppendsCommute` | src/storageserver/storageserver_impl.go:329-373 | appends of any two items commute |
| `ListStore.RemoveUndoesAppend` | src/storageserver/storageserver_impl.go:375-411 | removing a newly appended item restores the store, or leaves an empty list where there was no key |
| `HashRing.OwnerIsSuccessor` | src/util/common.go:52-59 | the owner is the one node that consistent hashing names: the least at or above the hash, else the least of all |
| `HashRing.JoinMovesKeysToNewNodeOnly` | src/storageserver/storageserver_impl.go:143-150 | a joining node changes a key's owner only to itself |
| `HashRing.UserKeysCoLocated` | src/libstore/libstore_api.go:47-52 | all keys of a user have one owner, whatever the name |
| `HashRing.PrefixIsHashed` | src/libstore/libstore_api.go:47-52 | what comes after the first colon of any key does not matter to its hash |
| `HashRing.SearchHashRing` | src/libstore/libstore_impl.go:46-53 | finds the successor of the key's hash |
| `Cluster.BuildRing` | src/libstore/libstore_impl.go:106-115 | the ring over exactly the listed nodes, sorted, whatever the order of the list |
| `Cluster.InsertId` | src/storageserver/storageserver_impl.go:144-148 | adds the id to the ring and keeps it strictly ascending |
| `Cluster.ListNodes` | src/storageserver/storageserver_impl.go:166-168 | every node once, with its address |
| `Cluster.StorageNode.Slave` | src/storageserver/storageserver_impl.go:95-106 | a slave's ring and table are those of the reply |
| `Cluster.StorageNode.RegisterServer` | src/storageserver/storageserver_impl.go:139-161 | registration is idempotent, keeps the ring in step with the table, and is `OK` with the full list exactly when enough nodes are in, and lists none otherwise |
| `Cluster.StorageNode.GetServers` | src/storageserver/storageserver_impl.go:163-174 | `OK` with every node exactly when enough are in, and no node otherwise |
| `Cluster.StorageNode.KeyRangeContains` | src/storageserver/storageserver_impl.go:176-182 | true exactly if this node owns the key |
| `Cluster.RingsAgree` | src/storageserver/storageserver_impl.go:151-156 | a ring built from any `OK` reply is the final ring if at most the expected number of nodes register; in general exactly when no new node registered after it |
| `Cluster.FirstRegistrationCounts` | src/storageserver/storageserver_impl.go:143-150 | every node is listed under the address of its first registration |
| `Cluster.AllRingsAgree` | src/storageserver/storageserver_impl.go:96-106 | then any two of master, slaves and clients hold the same ring, over exactly the registered nodes, whenever and in whatever order their replies came |
| `Cluster.RoutingAgrees` | src/libstore/libstore_impl.go:178-180 | and every key is routed to a registered node, the only one that accepts it |
| `KeyCodec.PostKeyRoundTrip` | src/util/keyFormatter.go:28-44 | parsing undoes formatting for every 64-bit time, and gives the author back exactly when the name has no colon |
| `KeyCodec.ColonTimeIsConstant` | src/util/keyFormatter.go:36-43 | for a name with a colon the time read out of a post key does not depend on the time of the post |
| `KeyCodec.SplitJoin` | src/util/keyFormatter.go:33-38 | splitting at a separator splits the two sides independently |
| `KeyCodec.FormatInjective` | src/util/keyFormatter.go:14-50 | the four key families are disjoint and injective for all user names |
| `KeyCodec.LeaseRecordRoundTrip` | src/util/common.go:61-70 | a lease record reads back as written exactly when the host has no tilde |
| `KeyCodec.TildeHostReadsBack` | src/util/common.go:65-70 | the lease record of a host with a tilde reads back with a host and a time that both come from the name, whatever the time of the lease |
| `KeyCodec.TildeExample` | src/util/common.go:65-70 | the record of "a~b" reads back as "a" at second 11 |
| `KeyCodec.IntRoundTrip` | src/util/common.go:61-69 | base-16 parsing undoes base-16 formatting for every 64-bit integer, the smallest included |
| `KeyCodec.ParseIntClamps` | src/util/common.go:65-70 | digits are read to their number or to the nearest 64-bit one |
| `KeyCodec.ParseUintRejects` | src/util/common.go:65-70 | a bad character before an overflow makes the number zero |
| `KeyCodec.KeyExamples` | src/util/keyFormatter.go:12-22 | the formats of user, subscription and post lists, by example |
| `KeyCodec.PostKeyExamples` | src/util/keyFormatter.go:24-30 | the format of post keys, with a negative time too |
| `KeyCodec.KeyParts` | src/util/keyFormatter.go:32-37 | how a formatted key splits at its colons |
| `Timeline.UserTimeline` | src/stwserver/stwserver_impl.go:249-290 | with every call on a store of its own: the newest hundred posts of the list, newest first by the time in the key, each as its key and contents read when it is fetched; an error exactly when one is missing then |
| `Timeline.HomeTimeline` | src/stwserver/stwserver_impl.go:292-334 | with every call on a store of its own: truncating each subscription, merging and truncating again gives the newest hundred of everything read, by the time in the key: the right number, newest first, nothing left out that is newer than something shown |
| `Timeline.Newest100` | src/stwserver/stwserver_impl.go:312-317 | the newest hundred of a list, enough of it to find the newest hundred of any union |
| `Timeline.Fetch` | src/stwserver/stwserver_impl.go:320-331 | the first hundred in order with their contents, or the first of them that is missing when its turn comes |
| `Timeline.Merge` | src/stwserver/stwserver_impl.go:306-318 | the truncated lists together are enough to find the newest hundred of all |
| `Timeline.MergeRefinesFullSort` | src/stwserver/stwserver_impl.go:305-331 | the times shown are those of sorting everything once and cutting once, whatever the sort does with ties |
| `Newest.TopOfSufficient` | src/stwserver/stwserver_impl.go:306-319 | the newest of a sufficient part are the newest of the whole |
| `Newest.SufficesSum` | src/stwserver/stwserver_impl.go:317-317 | sufficient parts of two collections are together sufficient for their union |
| `Newest.TopTimesUnique` | src/stwserver/stwserver_impl.go:239-247 | any two ways of taking the newest show the same times in the same order |
| `Newest.SelectionIsActualIff` | src/stwserver/stwserver_impl.go:243-247 | selecting by the time in the key is selecting by the time of posting, whatever the sort does with ties, exactly when no post that can be shown was made before one that does not read as newer |
| `AppTimelines.ListedPostIsThereIff` | src/stwserver/stwserver_impl.go:225-230 | for any two moments of any run, a post listed at the one is stored at the other, with the same contents, if and only if no deletion has dropped it by then or, if the other is the earlier, it had been put by then |
| `AppTimelines.UserTimelineSucceedsIff` | src/stwserver/stwserver_impl.go:257-272 | for answers that reflect any moments of any run, in any order, the timeline answers with posts if and only if none of them is deleted between the moment of the list and the moment of its own answer, or put only after an earlier one |
| `AppTimelines.HomeTimelineSucceedsIff` | src/stwserver/stwserver_impl.go:306-328 | the same for a home timeline, each post from the call that reads its own list |
| `AppTimelines.UserTimelineIsChronologicalIff` | src/stwserver/stwserver_impl.go:263-272 | in every reachable store the timeline is the newest posts by the time of posting, whatever the sort does with ties, if and only if the name has no colon or there is at most one post |
| `AppTimelines.UserTimelineShowsPostsIff` | src/stwserver/stwserver_impl.go:273-285 | a post is shown under its user, its time of posting and the contents it had when the list was read if and only if the name has no colon |
| `AppTimelines.HomeTimelineIsChronological` | src/stwserver/stwserver_impl.go:299-331 | for subscriptions without a colon the home timeline is the newest hundred posts by the time of posting, each under its user, its time and its contents |
| `AppTimelines.HomeTimelineIsChronologicalIff` | src/stwserver/stwserver_impl.go:306-319 | in general it is the newest hundred by the time of posting, whatever the sort does with ties, if and only if no post that can be shown reads as at least as new as a newer post where one of the two is by a user with a colon |
| `AppTimelines.ShownAsPostedIff` | src/stwserver/stwserver_impl.go:323-329 | a post is rendered with its author and time if and only if the author's name has no colon |
| `AppEffects.UserTimelineShowsWhatWasPosted` | src/stwserver/stwserver_impl.go:266-287 | for answers that reflect any moments of any run, every post shown has the contents of the request that made it |
| `AppEffects.HomeTimelineShowsWhatWasPosted` | src/stwserver/stwserver_impl.go:321-331 | the same for home timelines, with a subscribed user's request |
| `AppEffects.StoredIsWhatWasPosted` | src/stwserver/stwserver_impl.go:204-205 | at every moment of every run a stored post key holds exactly what its user asked to post at that time |
| `AppEffects.MadeOnce` | src/stwserver/stwserver_impl.go:204-205 | and there is but one such request |
| `AppEffects.SubscribedIff` | src/stwserver/stwserver_impl.go:164-190 | at every moment of every run a name is on a subscription list if and only if an append put it there and no removal has followed |
| `AppEffects.ListedIff` | src/stwserver/stwserver_impl.go:206-229 | the same for post lists: listed by its own request and not taken off by a deletion since |
| `AppEffects.UserExistsIff` | src/stwserver/stwserver_impl.go:138-148 | a user exists if and only if a request has created it |
| `AppEffects.SubsStep` | src/stwserver/stwserver_impl.go:164-190 | one storage call of any request changes a subscription list by its user's append or removal of one name, and not otherwise |
| `AppEffects.ColonPostsStay` | src/stwserver/stwserver_impl.go:219-223 | no run takes a post off the list of a user with a colon in the name, whatever keys are supplied |
| `AppRequests.FirstCall` | src/stwserver/stwserver_impl.go:150-223 | a request of an unknown user, to create a known one, or to delete under another author's key is refused and changes nothing; any other goes on |
| `AppRequests.AnswersWhenItEnds` | src/stwserver/stwserver_impl.go:138-237 | a request answers exactly with its last storage call |
| `AppRequests.FinalTellsMembership` | src/stwserver/stwserver_impl.go:164-236 | the answers tell whether the name or post was on the list, in any interleaving; the last call of a deletion always succeeds |
| `AppRequests.AloneCreate` | src/stwserver/stwserver_impl.go:138-148 | run alone, it makes the user exist and changes nothing else |
| `AppRequests.AloneSubscribe` | src/stwserver/stwserver_impl.go:150-171 | run alone, it adds the target to the list if both users exist and changes nothing else |
| `AppRequests.AloneUnsubscribe` | src/stwserver/stwserver_impl.go:173-194 | run alone, it takes the target off the list if both users exist and changes nothing else |
| `AppRequests.AlonePost` | src/stwserver/stwserver_impl.go:196-210 | run alone, it stores the contents and lists the key if the user exists and changes nothing else |
| `AppRequests.AloneDelete` | src/stwserver/stwserver_impl.go:212-237 | run alone, it takes a post of its author off the list and drops its contents if it is listed, and changes nothing else |
| `AppRuns.AuthorIff` | src/util/keyFormatter.go:32-44 | the author read out of a key is what comes before the first colon, if an underscore comes before a second one |
| `AppMishaps.DeletionBetweenReads` | src/stwserver/stwserver_impl.go:268-272 | for every user without a colon there is a run in which a timeline fails because its post is deleted after the list is read |
| `AppMishaps.NewestPostLeftOut` | src/stwserver/stwserver_impl.go:312-322 | for every reader, every user with a colon whose key reads as time zero or less and every other user there is a run after which the home timeline shows a hundred posts, all older than the newest post of the first, and not that one |
| `AppMishaps.NoTimeInName` | src/util/keyFormatter.go:36-43 | a name with one colon and no underscore after it is such a user |
| `AppMishaps.AnyoneCanPost` | src/stwserver/stwserver_impl.go:196-210 | for every name and time there is a run in which that user has listed that post |
| `AppMishaps.RepeatedKeyDangles` | src/stwserver/stwserver_impl.go:203-206 | for every user without a colon and every time there is a run with two posts at that time, and a deletion, after which the post is listed and has no contents |
| `AppMishaps.FreshRunsKeepInv` | src/stwserver/stwserver_impl.go:196-237 | every run in which no post repeats a key keeps the invariant of posts, lists and subscriptions |
| `AppProtocol.InvStep` | src/stwserver/stwserver_impl.go:138-237 | any storage call of any request keeps: listed posts are stored, own and not being worked on; stored posts are listed or being worked on; subscriptions name users |
| `AppProtocol.InvHolds` | src/stwserver/stwserver_impl.go:138-237 | so does every interleaving of any number of requests |
| `AppRuns.ListedPostsAreStored` | src/stwserver/stwserver_impl.go:196-210 | at every moment every key in a post list has contents and is a post of that user |
| `AppRuns.DeleteAfterRemoveSucceeds` | src/stwserver/stwserver_impl.go:224-234 | once a post is off its list the deletion of its contents succeeds |
| `AppRuns.StoredIffListed` | src/stwserver/stwserver_impl.go:204-206 | with no request under way the stored posts are exactly the listed ones |
| `AppRuns.SubscriptionsNeverDangle` | src/stwserver/stwserver_impl.go:150-171 | every subscription names an existing user |
| `AppRuns.UsersPersist` | src/stwserver/stwserver_impl.go:138-148 | a user once created is there for good, whatever keys DeletePost is given |
| `AppRuns.DeletionIsolation` | src/stwserver/stwserver_impl.go:212-237 | a deletion, for any supplied key, takes at most one post off the caller's list, one the caller posted, and leaves everyone else's timeline as it was |
| `AppRuns.DeletableIffNoColon` | src/stwserver/stwserver_impl.go:219-223 | a listed post passes the author test exactly when its user's name has no colon |

## Left out

- Dialing, connection maps, listeners, retry loops with sleeps and `log.Fatal` exits: only the effects of calls are modelled.
- The web server, the HTTP client, the command-line clients, the runners and the test programs.
- The body of the FNV hash, and the internals of `sort.Sort`, which sorts slices in place; sorting here is on values.
- The application servers' own list of one another (src/stwserver/stwserver_impl.go:83-136), which nothing reads.
- Slices that share storage: lists, ledgers and rings are values that a method replaces, so aliasing of a slice with its copy is not captured.
- Clock readings within one critical section are one reading, in whole seconds; fractions of a second and reads of `ring` and `cache` without the lock are not captured.
- Records are told apart by numbers, which stand for the original's pointers.
- Several storage servers in one run of the lease protocol: keys of different servers share no lock and no ledger, so each server has a run of its own.
- The composition of caching with requests that write: in `AppProtocol` a storage call acts on the store itself, so a post, a deletion or a subscription that goes by a stale cached value is not captured. For timelines it is.
- LeaseRuns.OutdatedIffEscaped: is about hosts without a tilde; a lease of any other is passed over for a further cause, given by `StorageServer.TildeLeaseNotWaitedForIff`.
- LeaseRuns.CurrentWithinLease: is about hosts without a tilde, too.
- Cluster.BuildRing: asks for different ids in the list, which every reply of a master has (`Cluster.ListNodes`); two servers that register with one id are one node here, as they are in the master's table.
- AppProtocol.InvHolds: is about runs in which no post repeats a key; `AppMishaps.RepeatedKeyDangles` shows what happens otherwise.
- AppProtocol.InvStep: is about steps that are not a post with a key used before, for the same reason.
- `Get` of the storage server, which answers the first item of the same value, is not a separate method beside `StorageServer.Read`.
- Cluster.StorageNode.Slave: asks for different ids in the list too.
- ServerRefinement.WriteIsARun: asks that every client with the key cached has a record of it; without one the client crashes in the callback (`LeaseRuns.CallbacksSafeIffNoOrphans`).
- LeaseRuns.BoundedBlocking: asks that the server moves on as soon as an answer is in or a timer fires.
- A hit hands out the cached copy whole. `Get` takes its first item, and fails where the original indexes an empty slice, on a cached empty list.
