# A verified model of the status service

This project models the write, publish and collect engine of the status service in Dafny 4.11 and
proves properties of that model. A status list is a packed array of small status values in Redis, with
a version counter beside it and a row in Postgres. Issuers allocate indices in lists and change the
status at indices they own; publishers turn the bytes into signed tokens that they cache by version; a
pool of ACTIVE lists is topped up and rotated; a collector archives, purges and deletes old lists; a
noiser writes decoy statuses at indices nobody owns.

Protocols that interleave are state machines: a total `Step(state, event)` in which a disabled event
changes nothing, and `Run` over a sequence of events. Every theorem about runs quantifies over every
sequence. Code that updates objects is written as classes and methods whose postconditions tie it to
the functions that the machines and lemmas use.

| file | what it models |
|---|---|
| `Bitmap.dfy` | packing of statuses into bytes, section 4.1 of draft-ietf-oauth-status-list-21 |
| `BitmapStore.dfy` | the Redis store: the Lua script, `Init`, `SetStatus`, `Snapshot`, `Purge` |
| `Allocator.dfy` | the Feistel network with cycle walking that turns cursors into indices |
| `LongWalks.dfy` | round functions under which cycle walking exceeds its cap |
| `SixBitTour.dfy`, `SixBits.dfy` | the same for halves of six bits, by tables and a tour of 1000 steps |
| `Convergence.dfy` | exactly when `Index` always converges |
| `MetaStore.dfy` | the three Postgres tables and the statements and transactions on them |
| `Lifecycle.dfy` | whole runs: allocators, rotators and any number of sweepers under one clock |
| `Sweeper.dfy` | one garbage-collection pass, run alone |
| `Publishing.dfy` | whole runs of writers and publishers on one list |
| `Publisher.dfy` | the publisher object, one call run alone |
| `Debounce.dfy` | whole runs of the leading debouncer, and the object |
| `DirtyPublish.dfy` | writers, debouncer and publishers together |
| `Decoy.dfy` | whole runs of the creator, allocators, owners and noisers on one list |
| `Noiser.dfy` | one decoy pass over one list, run alone |
| `Pool.dfy` | rotation, top-up and choice of ACTIVE lists |
| `Ingestion.dfy` | the allocate and set-status handlers |
| `Sharding.dfy` | whole runs of shard assignment and reassignment |
| `ListId.dfy`, `Routing.dfy` | list IDs, the ingress router and the backend's admission test |
| `Prelude.dfy` | shared datatypes and facts about numbers, sets and sequences |

## Where the obvious statement is false

- "A cached version never goes back" is false (`Publishing.CacheCanRegress`). `Publishing.LowersExact`
  says exactly which stores lower a label, and `Publishing.LabelsGrow` that none does while the calls of
  a process do not overlap. Freshness does not need it.
- Freshness fails across a purge, because versions restart (`Publishing.PurgeBreaksFreshness`): a call
  may hit an entry built before the purge. `Publishing.FreshSincePurge` proves it for every other call,
  and `Publishing.FreshOnceIdle` for every call of a process that had no cached token and no running call
  at some moment since the purge, such as one started after it.
- "`Index` always converges" is false (`LongWalks.CapCanFail`, `SixBits.SixBitsFail`). It holds, for every
  capacity, exactly when fewer than 1000 values of the padded domain are out of range
  (`Convergence.IndexConvergesExactly`).
- The comment at internal/allocator/allocator.go:33-37 says that about half of the padded domain is out
  of range. The code pads up to four times the capacity; `Allocator.DomainAtMostTwice` says exactly when
  the comment's bound holds.
- The comment at internal/ingestion/handlers.go:104-114 says that decoys never target a consumed
  position. On an ACTIVE list they can (`Decoy.RaceCorrupts`); `Decoy.DecoyWriteExact` says exactly when
  a decoy write does harm.
- "A decoy that became INVALID stays so" fails when one pass draws an index twice
  (`Noiser.RepeatUnsettles`); `Noiser.RedrawExact` says exactly when.
- "A list that decoys were written to is marked dirty" fails when the pass meets an index that does not
  converge: flips made before it stay written and unmarked (`Noiser.FlipStaysUnmarked`). `Noiser.SweepList`
  says exactly when the list is marked.
- A one-bit list accepts SUSPENDED through the script and shows VALID
  (`StatusList.NamedStatusesFit`, `Ingestion.HandleSetStatus`), while the in-memory bitmap refuses it.
- internal/ingress/router.go:98-109 means a reassigned issuer's old lists to stay reachable. The router
  does send the request to the list's shard, but that shard refuses every token of another tenant
  (`Routing.RoutedInEveryRun`).
- The comment at internal/store/redis.go:122-124 calls a string of another length unreachable. A write
  that precedes `Init` leaves a short one, and `BitmapStore.InitAnywhere` shows that it does no harm.

## Model

| member | source | states |
|---|---|---|
| StatusList.PutFieldKeeps | internal/statuslist/bitmap.go:113-124 | writing one field leaves every other field of the same byte as it was, for all four widths |
| StatusList.PutFieldReads | internal/statuslist/bitmap.go:113-134 | a written field reads back |
| StatusList.MaskIsShift | internal/statuslist/bitmap.go:113-134 | the field masks are the source's shifted ones, including the wrap at eight bits |
| StatusList.OffsetInRange | internal/statuslist/bitmap.go:106-110 | without 64-bit wrap-around every entry lies inside the allocated bytes, aligned to its width |
| StatusList.OffsetsDistinct | internal/statuslist/bitmap.go:106-110 | no two entries share a byte and offset |
| StatusList.ByteLenExact | internal/statuslist/bitmap.go:65-74 | the 64-bit byte count is the rounded-up one if and only if size * bits + 7 fits in 64 bits |
| StatusList.FieldNumber | internal/statuslist/bitmap.go:127-134 | least significant bit first: the field at bit offset o of a byte is the byte divided by 2^o, modulo 2^bits |
| StatusList.PutFieldNumber | internal/statuslist/bitmap.go:113-124 | a written byte, as a number, holds the value at that field and agrees with the old byte above and below it |
| StatusList.DecodeNumber | internal/statuslist/bitmap.go:106-134 | entry i of a packed list is byte i * bits / 8 divided by 2^(i * bits % 8), modulo 2^bits |
| StatusList.SetEntryRefines | internal/statuslist/bitmap.go:113-134 | rewriting one packed entry is updating one element of the sequence of statuses |
| StatusList.ZerosDecode | internal/statuslist/bitmap.go:65-74 | a fresh list decodes to VALID everywhere |
| StatusList.ReaderDecodesSame | tools/loadtest/lifecycle.go:100-114 | a reader that knows only bytes and width recomputes a size the wrapper accepts and decodes every true entry the same |
| StatusList.NamedStatusesFit | internal/store/redis.go:49-67 | the three named statuses survive the mask if and only if the width is at least two |
| StatusList.Bitmap.Set | internal/statuslist/bitmap.go:113-124 | succeeds exactly for an index in range and a value that fits, then changes one status in place, that is one field of one byte as a number; otherwise nothing |
| StatusList.Bitmap.Get | internal/statuslist/bitmap.go:127-134 | returns the status of the abstract list, which is the number in that field of the byte, or an error exactly out of range |
| StatusList.NewBitmap | internal/statuslist/bitmap.go:65-74 | a new bitmap holds VALID everywhere; refused widths and sizes |
| StatusList.WrapBitmap | internal/statuslist/bitmap.go:79-88 | accepted exactly for a valid width and the exact length |
| BitmapStore.ScriptByteIsPutField | internal/store/redis.go:49-67 | the script's 32-bit formula is the in-memory update of the masked value, and of the value itself when it fits; its result is a byte |
| BitmapStore.ScriptByteNumber | internal/store/redis.go:49-67 | the byte the script writes, as a number: the field holds the value modulo 2^bits, the rest is as it was |
| BitmapStore.WriteEntryNumber | internal/store/redis.go:49-67 | of the bytes a snapshot returns a write changes that one field, as a number |
| BitmapStore.WriteEntryPadded | internal/store/redis.go:49-67 | on the bytes a snapshot returns the script is the in-memory update, even on a missing or short string |
| BitmapStore.WriteEntryRefines | internal/store/redis.go:101-130 | one write followed by a snapshot updates exactly one status of the abstract list |
| BitmapStore.InitAnywhere | internal/store/redis.go:89-130 | wherever set-if-absent initialisations fall among the writes, the snapshot decodes to zero-fill followed by the writes |
| BitmapStore.Store.Init | internal/store/redis.go:89-97 | creates the string, zero bytes of the given length, only if it is absent; versions and other lists untouched |
| BitmapStore.Store.SetStatus | internal/store/redis.go:101-110 | byte write, then version plus one; other lists untouched |
| BitmapStore.Store.Snapshot | internal/store/redis.go:114-130 | zeros for a missing key, otherwise padded or cut to the asked length |
| BitmapStore.Store.Version | internal/store/redis.go:134-143 | the counter, 0 when missing |
| BitmapStore.Store.Purge | internal/store/redis.go:151-156 | drops both keys of one list, so its version restarts |
| BitmapStore.WriteStatus | internal/ingestion/handlers.go:186-190 | locating an entry and writing it changes one status of one list and bumps its version once |
| Allocator.HalfWidthBounds | internal/allocator/allocator.go:58-79 | n <= 2^(2*half) <= 4n for every n >= 1, strictly for n > 1 |
| Allocator.DomainAtMostTwice | internal/allocator/allocator.go:33-37 | the domain is at most 2n exactly when the length of n - 1 is even or n is a power of two |
| Allocator.DomainFits | internal/allocator/allocator.go:58-79 | a capacity of at most 2^(2w) is padded to at most 2^(2w), so 64-bit capacities stay in 64 bits |
| Allocator.New | internal/allocator/allocator.go:58-79 | refuses wrong key lengths and zero capacity, otherwise builds an allocator whose domain holds n |
| Allocator.PermuteBijective | internal/allocator/allocator.go:109-121 | for every round function the network is a bijection of the padded domain, with an explicit inverse |
| Allocator.ComputePermute | internal/allocator/allocator.go:109-121 | the loop over the four rounds computes the network |
| Allocator.FirstReturnInjective | internal/allocator/allocator.go:94-105 | walks from different cursors never meet at their first return below n |
| Allocator.WalkReturns | internal/allocator/allocator.go:94-105 | every walk returns below n within 2^(2*half) - n + 1 steps |
| Allocator.WalkIsFirstReturn | internal/allocator/allocator.go:94-105 | a capped walk succeeds exactly when the first return is within the cap, and yields it |
| Allocator.ComputeWalk | internal/allocator/allocator.go:94-105 | the loop computes the capped walk for every cap |
| Allocator.ComputeIndex | internal/allocator/allocator.go:94-105 | range check and capped walk, with both errors |
| Allocator.IndexInjective | internal/allocator/allocator.go:94-121 | two different cursors for which `Index` succeeds get different indices below n, for every round function, key and n |
| Allocator.IndexInRange | internal/allocator/allocator.go:94-105 | an index that is returned is below n |
| Allocator.IndexConverges | internal/allocator/allocator.go:94-105 | for every round function and every capacity, with fewer than 1000 values out of range the cap cannot fail |
| Allocator.UncappedPermutes | internal/allocator/allocator.go:94-121 | with the cap 2^(2*half) - n + 1 the walk always succeeds and permutes [0, n) |
| LongWalks.WhenNext | internal/allocator/allocator.go:109-121 | the planned walk over the last k rows is one round trip: each place comes one step after the one before it |
| LongWalks.NextLinked | internal/allocator/allocator.go:109-121 | under the planned round function the four rounds take each place of the k rows to the next |
| LongWalks.CapCanFail | internal/allocator/allocator.go:94-121 | for every capacity with at least as many values out of range as the cap, a round function and an in-range cursor whose walk exceeds the cap: for caps up to the length of a row, and at most 32 short of 2, 4 or 8 rows |
| LongWalks.CapExact | internal/allocator/allocator.go:94-121 | for these caps all round functions and cursors stay within the cap if and only if fewer values than the cap are out of range |
| SixBitTour.Leg00 | internal/allocator/allocator.go:109-121 | on bits, 1000 steps of the four rounds from (4, 5) that all end on one of the last 1000 values, under four tables of 64 entries |
| SixBits.LeapPermute | internal/allocator/allocator.go:109-121 | a step on bits is the network on numbers, for every place |
| SixBits.SixBitsFail | internal/allocator/allocator.go:94-105 | for every capacity whose halves have six bits and which leaves at least 1000 values out of range, a round function under which `Index` fails at cursor 261 |
| Convergence.IndexConvergesExactly | internal/allocator/allocator.go:94-105 | for every capacity `Index` always converges if and only if fewer than 1000 values are out of range; halves of five bits or fewer never have as many |
| MetaStore.AllocatorCollisionFree | internal/allocator/allocator.go:94-121 | the allocator under any keyed function gives the store in-range, collision-free indices |
| MetaStore.RowsOfList | internal/store/postgres.go:409-473 | row count equals cursor <= size, rows are the indices of the cursors used, a full list has every index once |
| MetaStore.RemainingIsFree | internal/store/postgres.go:107-112 | in a consistent store `Remaining` is the number of indices that no allocation row takes |
| MetaStore.ReserveNoConflict | internal/store/postgres.go:453-458 | the INSERT never meets a primary-key conflict |
| MetaStore.ReserveKeepsOk | internal/store/postgres.go:409-473 | a reservation, successful or not, keeps the store's invariant |
| MetaStore.CreateKeepsOk | internal/store/postgres.go:150-159 | creating a list of positive size keeps it |
| MetaStore.StampsKeepOk | internal/store/postgres.go:250-341 | so does any change of states and stamps only |
| MetaStore.FreezeStamps | internal/store/postgres.go:250-256 | freezing touches no cursor, size, key, expiry, row or counter and never revives a list |
| MetaStore.ArchiveStamps | internal/store/postgres.go:294-303 | the same of archiving |
| MetaStore.PurgeStamps | internal/store/postgres.go:335-341 | the same of marking purged |
| MetaStore.DeleteKeepsOk | internal/store/postgres.go:383-400 | deletion keeps the invariant of every other list |
| MetaStore.DeleteCount | internal/store/postgres.go:383-400 | deletion removes exactly the list's own allocation rows |
| MetaStore.Store.CreateList | internal/store/postgres.go:150-159 | inserts an ACTIVE row with cursor 0 and the time of its creation, or fails on a taken ID and changes nothing |
| MetaStore.Store.Select | internal/store/postgres.go:182-232 | a query's rows: exactly those that satisfy the condition, each once |
| MetaStore.Store.FreezeList | internal/store/postgres.go:250-256 | ACTIVE becomes FROZEN, any other state is left alone |
| MetaStore.Store.ArchiveList | internal/store/postgres.go:294-303 | FROZEN becomes ARCHIVED with its stamp, any other state is left alone |
| MetaStore.Store.MarkListPurged | internal/store/postgres.go:335-341 | sets the flag and its stamp |
| MetaStore.Store.DeleteList | internal/store/postgres.go:383-400 | removes the allocations and the list in one transaction, not the usage counters |
| MetaStore.Store.ReserveCursorAndRecord | internal/store/postgres.go:409-473 | the transaction statement by statement; every failure leaves all three tables unchanged |
| Lifecycle.DeletedOnlyAfterRetention | internal/gc/sweeper.go:48-94 | in every run a list row disappears only when every credential ever allocated in it expired at least Grace + Retention + DBRetention earlier |
| Lifecycle.NothingDeleted | internal/gc/sweeper.go:78-80 | with DBRetention <= 0 no list is ever deleted |
| Lifecycle.ListsMoveForward | internal/store/postgres.go:250-400 | between any two moments a list's stage only moves forward, and once past ACTIVE its cursor and largest expiry never move |
| Lifecycle.TransitionsExact | internal/store/postgres.go:150-473 | in every step of every run a list leaves ACTIVE only by being frozen or by its last index being handed out, is archived and purged with the time of that statement, moves its cursor one reservation at a time, and appears ACTIVE and empty |
| Lifecycle.AdmitExact | internal/ingestion/handlers.go:60-69 | a request is refused exactly for an expiry past the maximum; otherwise it gets the one it asked for, or the maximum |
| Lifecycle.ReservedAsAsked | internal/ingestion/handlers.go:60-102 | in every run each reservation goes back to an admission of its issuer and shard and expires exactly when that asked for, or exactly MaxExpiry after it if it did not ask |
| Lifecycle.UsageConserved | internal/store/postgres.go:383-473 | usage counters sum to live rows plus deleted rows, and each is its issuer's reservations on that shard |
| Lifecycle.RowsInEveryRun | internal/store/postgres.go:409-473 | in every run rows are exactly the allocator's image of [0, cursor), cursor <= size, ACTIVE implies room, a full list is used up |
| Lifecycle.NoConflictInAnyRun | internal/store/postgres.go:453-458 | in no run does a reservation meet a primary-key conflict |
| Lifecycle.MaxExpInEveryRun | internal/store/postgres.go:446-451 | `max_exp` is the largest recorded expiry, null exactly without rows, and within MaxExpiry of the last reservation |
| Lifecycle.FrozenBecomesEligible | internal/store/postgres.go:266-286 | a list that left ACTIVE at t is on the archiving agenda of every pass begun from t + MaxExpiry + Grace on, whatever its issuers asked for |
| Lifecycle.SweepBegan | internal/gc/sweeper.go:48-50 | the time a pass works with is the clock at its beginning |
| Lifecycle.FrozenAgenda | internal/store/postgres.go:266-286 | the archiving agenda is exactly the FROZEN rows without an expiry later than now - Grace |
| Lifecycle.ArchivedAgenda | internal/store/postgres.go:309-327 | the purge agenda is exactly the ARCHIVED rows not purged and archived by now - Retention |
| Lifecycle.PurgedAgenda | internal/store/postgres.go:352-376 | the deletion agenda is exactly the rows purged by now - DBRetention |
| Lifecycle.FrozenGetsArchived | internal/gc/sweeper.go:51-61 | in every run with any number of sweepers, such a list is ARCHIVED or gone once the pass has worked off its archiving agenda |
| Lifecycle.ArchivedGetsPurged | internal/gc/sweeper.go:63-76 | a list archived at a and not purged, found by a pass begun from a + Retention on, is purged or gone once that agenda is worked off |
| Lifecycle.PurgedGetsDeleted | internal/gc/sweeper.go:81-91 | a list purged at q, found by a pass begun from q + DBRetention on, is gone once that agenda is worked off |
| Lifecycle.FrozenHasLeft | internal/store/postgres.go:250-256 | every list past ACTIVE has such a moment t, not in the future |
| Lifecycle.StuckForever | internal/store/postgres.go:409-473 | in every run, once a list stands at a cursor that does not converge, no reservation in it ever succeeds again and its cursor never moves |
| Sweeper.OnePhasePerPass | internal/gc/sweeper.go:48-94 | with positive periods one pass moves no list through two phases |
| Sweeper.SweptRow | internal/gc/sweeper.go:48-94 | row by row, which lists a pass archives, purges and deletes, and that only deleted lists lose allocations |
| Sweeper.ArchivePhase | internal/gc/sweeper.go:51-61 | archives exactly the FROZEN lists without an expiry after the cutoff |
| Sweeper.PurgePhase | internal/gc/sweeper.go:63-76 | finds exactly the ARCHIVED lists not purged and archived by the cutoff, marks them purged and drops exactly their Redis keys |
| Sweeper.DeletePhase | internal/gc/sweeper.go:81-91 | deletes exactly the lists purged by the cutoff |
| Sweeper.Sweep | internal/gc/sweeper.go:48-94 | the three phases in order, each query seeing the effects of the phase before it; afterwards no list is left that was due for any of them, and the Redis keys of every list archived long enough ago are gone |
| Sweeper.NothingLeftDue | internal/gc/sweeper.go:48-94 | after a pass every remaining row is within its grace, retention or database retention, by its own stamps |
| Sweeper.DroppedExact | internal/gc/sweeper.go:63-76 | which lists lose their Redis keys in a pass, in terms of their rows before it |
| Publishing.StepKeepsInv | internal/publisher/publisher.go:145-200 | every step, purges included, keeps: a token of the current epoch labelled v holds the byte write of every increment since the last purge numbered v or lower |
| Publishing.DecodeIsLastWrite | internal/store/redis.go:101-130 | bytes decode, at each entry, to its last write or VALID |
| Publishing.FreshAfterAck | internal/publisher/publisher.go:145-200 | in every interleaving without a purge, a publish call begun after a write was acknowledged returns a token that shows it or a later write to that index, on a hit and on a rebuild |
| Publishing.FreshSincePurge | internal/store/redis.go:151-156 | in every interleaving with purges the same holds for writes since the last purge, for every call that rebuilds or whose hit entry was built since that purge |
| Publishing.FreshOnceIdle | internal/publisher/publisher.go:145-200 | the same on hits and rebuilds alike for every call of a process that some moment since the last purge found without a cached token and without a running call |
| Publishing.ReturnedAsAsked | internal/publisher/publisher.go:145-200 | in every interleaving, purges included, a returned token has the lifetime asked for and as its label the live version of one moment of the call; on a hit it was in the process's cache at a later moment, otherwise its bytes were the live ones at a later moment |
| Publishing.Explained | internal/publisher/publisher.go:145-200 | the same of a call at any stage: its steps happened in order, and a rebuild only after a look at the cache that did not match |
| Publishing.HitIsLive | internal/publisher/publisher.go:156-162 | on a hit with no write in flight the cached bytes are the live bytes |
| Publishing.NotModifiedIsFresh | internal/verifier/handlers.go:88-92 | a 304 (section 13.1.2 of RFC 9110) means the client's copy, from any process, shows every write acknowledged before the request |
| Publishing.CacheCanRegress | internal/publisher/publisher.go:194-197 | on every list a slower builder can overwrite a newer cache entry |
| Publishing.LowersExact | internal/publisher/publisher.go:145-200 | in every run without a purge a store lowers its process's label if and only if another store into that cache came after the call's version read and the last such one carries a larger label |
| Publishing.LabelsGrow | internal/publisher/publisher.go:194-197 | in every run without a purge and without overlapping calls of one process, cached labels only grow |
| Publishing.PurgeBreaksFreshness | internal/store/redis.go:151-156 | on every list a purge can make a later call return a token without an acknowledged write |
| Publisher.Publisher.Get | internal/publisher/publisher.go:134-139 | the cached token, if any |
| Publisher.Publisher.PublishIfStale | internal/publisher/publisher.go:145-200 | cached token while version and lifetime match, else a token of the live bytes, cached; always of the live version and the lifetime asked for; failures and other lists leave the cache alone |
| Publisher.UninterruptedCall | internal/publisher/publisher.go:145-200 | a call nothing interrupts takes the interleaved machine exactly where the method takes the object |
| Debounce.RunKeepsInv | internal/publisher/debounce.go:41-65 | in every run at most one timer per key, pending set exactly then, consecutive stamps at least the floor apart |
| Debounce.NoTriggerLost | internal/publisher/debounce.go:41-65 | after a trigger its key has a fire begun later, spawned, or behind the pending timer |
| Debounce.TimersDueExactly | internal/publisher/debounce.go:57-58 | in every run an outstanding timer is due exactly its floor after the key's last stamp |
| Debounce.TriggerExact | internal/publisher/debounce.go:41-65 | every trigger of every run does nothing while a timer is outstanding, fires at once if the last stamp is at least the floor ago, and otherwise sets a timer due exactly the floor after it |
| Debounce.FiresInTime | internal/publisher/debounce.go:41-65 | if timers are served at most L late, a trigger at T has its fire spawned by T plus the floor plus L, or by the due time plus L of the timer already outstanding |
| Debounce.RateLimited | internal/publisher/debounce.go:41-65 | with a fixed floor f a window of length W holds at most W / f + 1 stamps of a key, the moments at which its fires are spawned |
| Debounce.KeysIndependent | internal/publisher/debounce.go:41-65 | erasing other keys' events, but for their time, changes nothing about a key |
| Debounce.LeadingDebouncer.Trigger | internal/publisher/debounce.go:41-56 | the object moves as the machine does and asks for exactly the fire or timer that the machine adds; a timer is due the floor after the last fire |
| Debounce.LeadingDebouncer.OnTimer | internal/publisher/debounce.go:58-64 | the callback moves the object as the machine's timer step does |
| DirtyPublish.RunsOfBoth | internal/publisher/publisher.go:109-124 | every run of writers, debouncer and publishers together is a run of the publishers beside a run of the debouncer, in which a mark is a trigger with its own floor and a fire the beginning of a publish call |
| DirtyPublish.MarksRateLimited | internal/publisher/publisher.go:109-124 | so marks with one floor f leave at most W / f + 1 stamps in a window of length W |
| DirtyPublish.NoDirtyMarkLost | internal/publisher/publisher.go:109-124 | at every moment after an acknowledged write is marked dirty a fire is still to begin, spawned or behind the timer, or one has begun since the mark whose publish call knows the write |
| DirtyPublish.QuietMeansPublished | internal/ingestion/handlers.go:192-200 | whenever nothing is under way, each such write was published by a fire begun after its mark, whose call returned a token that shows it or a later write to its index |
| Decoy.StepKeepsInv | internal/decoy/decoy.go:103-185 | every step keeps what allocators, owners and noisers know of the tables |
| Decoy.DecoyWriteExact | internal/decoy/decoy.go:167-174 | a decoy write keeps the promise if and only if no reset of its index landed since the check, or it writes what is there anyway |
| Decoy.SafeWithoutRace | internal/decoy/decoy.go:103-185 | in every run without such a race each reset index shows its last real write |
| Decoy.AcknowledgedShowsLastWrite | internal/ingestion/handlers.go:94-118 | with two bits or more, each acknowledged index then shows exactly its owner's last write or VALID |
| Decoy.ShowsWhatOwnerAsked | internal/ingestion/handlers.go:146-203 | that last write is the index's reset, or a value that the issuer of its row asked for in a request that found the list not archived, and no real write to the index came after it |
| Decoy.NoiserHasRead | internal/decoy/decoy.go:103-139 | in every run a noiser works from the cursor and state that the list's row had, and the statuses that the bitmap showed, at its two reads |
| Decoy.PickExact | internal/decoy/decoy.go:141-155 | a pass may choose every position from the cursor it read up to the size whose index converges and whose status it saw can flip, and to what |
| Decoy.FrozenNeverTouched | internal/decoy/decoy.go:103-185 | for a list read as FROZEN or ARCHIVED no interleaving lets a decoy touch an allocated index |
| Decoy.RaceCorrupts | internal/decoy/decoy.go:167-174 | on every ACTIVE list whose first cursor converges some run without any owner's write leaves an acknowledged index showing INVALID |
| Noiser.AllocatedUntouched | internal/decoy/decoy.go:160-174 | a pass run alone leaves every allocated entry as it was |
| Noiser.InvalidIsFinal | internal/decoy/decoy.go:127-185 | with distinct samples an entry that is INVALID at any point of a pass is INVALID at its end |
| Noiser.RedrawExact | internal/decoy/decoy.go:127-150 | a draw undoes an INVALID decoy if and only if it samples it again, the snapshot showed VALID and the coin says SUSPENDED |
| Noiser.OneDraw | internal/decoy/decoy.go:186-212 | one draw moves an entry without a row from 0 to 1 or 2 and from 2 to 0 by the coin, and nothing else |
| Noiser.RepeatUnsettles | internal/decoy/decoy.go:127-150 | a pass that turns a fresh decoy from INVALID to SUSPENDED |
| Noiser.SweepList | internal/decoy/decoy.go:103-185 | the list shows the noised statuses and the version moved once per flip, other lists' strings and versions untouched; it is marked dirty exactly when the pass went through and wrote something |
| Noiser.FlipStaysUnmarked | internal/decoy/decoy.go:141-185 | a fresh list and two sampled positions on which every pass writes one decoy, meets an index that does not converge and so leaves the flip unmarked |
| Pool.ChooseByPowerOfTwo | internal/pool/pool.go:36-52 | of two distinct candidates the one with the larger size minus cursor wins, the first on a tie; none only from none |
| Pool.Rotate | internal/pool/pool.go:101-112 | the in-place filter keeps exactly the lists under the maximum age, in order, and freezes the others |
| Pool.CreateList | internal/pool/pool.go:126-145 | a named, recorded and initialised list, or an error that changes nothing |
| Pool.TopUp | internal/pool/pool.go:114-120 | creates lists up to the width, or stops at the first failure with those made so far |
| Pool.EnsureHealthy | internal/pool/pool.go:93-124 | rotation then top-up, initialising the bitmaps of exactly the new lists; certain to succeed when the shard's name has no dot and the drawn names are unused |
| Pool.MaintainedPool | internal/pool/pool.go:93-124 | afterwards an ACTIVE list of the shard is FROZEN exactly if its age has reached a positive maximum, no other row changed, max(width, survivors) are ACTIVE, and the new ones are empty, each with its own key |
| Pool.UpkeepConsistent | internal/pool/pool.go:93-145 | whatever the manager did, even if it stopped early, the store's invariant holds |
| Pool.UpkeepRows | internal/pool/pool.go:93-145 | and it recorded no allocation, removed no list, changed no row except by freezing an aged ACTIVE list of its shard, and added only new lists of the drawn names and keys |
| Pool.PickForAllocation | internal/pool/pool.go:151-166 | the list that the two draws choose among the shard's ACTIVE lists, in a consistent store the one of two distinct lists with more indices that no allocation row takes, with nothing changed if there is one; otherwise the pool is filled first, within its own shard and with the new lists' bitmaps initialised |
| Ingestion.FirstAttempt | internal/ingestion/handlers.go:74-102 | in a consistent store an attempt on an ACTIVE list never sees a full list and succeeds if and only if its index converges |
| Ingestion.ReserveAndReset | internal/ingestion/handlers.go:87-118 | the reservation, then the new index reads VALID and its neighbours are as they were |
| Ingestion.ReadyConverges | internal/ingestion/handlers.go:74-102 | if the next cursor of each ACTIVE list converges, or cursor 0 under each key a new list may get when there is none, so does that of whichever list is picked |
| Ingestion.HandleAllocate | internal/ingestion/handlers.go:47-132 | 400 exactly for an expiry past now + MaxExpiry, with nothing changed; on 201 the expiry asked for, or now + MaxExpiry, and the allocator's index for the list's cursor under the list's key; one allocation, one unit of usage, one advanced row, one reset entry and one version step exactly on 201, every other row, string and version as it was but for the pool's upkeep; the list of a 201 is the choice of that attempt's two draws; in a healthy store that is the one with more free indices, and the first attempt answers, by convergence of the picked list's next index alone, and with 201 whenever every list it may pick converges |
| Ingestion.HandleSetStatus | internal/ingestion/handlers.go:146-203 | which requests are 400, 403, 404, 410 and 204; the one entry a 204 changes and to which number; nothing changes otherwise |
| Ingestion.ConsistentInside | internal/store/postgres.go:409-473 | in a consistent store every allocation row lies inside its list, as the status handler relies on |
| Sharding.RunKeepsInv | internal/as/shard.go:62-92 | in every run no read-back fails and rows never disappear |
| Sharding.ReturnsCurrentRow | internal/as/shard.go:62-116 | a call returns the value its issuer's row had at one moment between the event that began it and its return, whatever is reassigned meanwhile |
| Sharding.AllAgree | internal/as/shard.go:62-92 | without a reassignment all calls for an issuer return the same shard, even from processes with different shard lists |
| Sharding.ReassignmentHolds | internal/as/shard.go:102-116 | a call begun after a reassignment returns the new shard unless another follows |
| Sharding.HashDecides | internal/as/shard.go:75-92 | when processes share a shard list the answer is the shard at the issuer's hash modulo their number, whichever call wins the race |
| Sharding.ShardAssigner.AssignOrLookup | internal/as/shard.go:62-92 | a known issuer keeps its shard, a new one gets the shard at its hash modulo their number, for good |
| Sharding.ShardAssigner.Reassign | internal/as/shard.go:102-116 | one row changes, the previous shard is returned |
| ListIds.ParseShardExact | internal/listid/listid.go:38-61 | an ID parses to a shard if and only if that shard is non-empty and makes that ID with some non-empty suffix, that is, the ID is shard, dot, suffix |
| ListIds.RoundTrip | internal/listid/listid.go:38-61 | an ID made for a shard parses back to it exactly when the shard's name is not empty |
| Routing.TrimExact | internal/ingress/router.go:141-147 | what trimming leaves of a path is exactly its part between the slashes at both ends |
| Routing.StatusPathExact | internal/ingress/router.go:141-147 | which paths name which list, both ways |
| Routing.StatusPathRoundTrip | internal/ingress/router.go:141-147 | a list's status path gives the list back if and only if its ID has no slash |
| Routing.PathShardExact | internal/ingress/router.go:110-117 | a path built from a fresh ID leads to its creating shard exactly when the name is non-empty and has no slash |
| Routing.ServeHTTP | internal/ingress/router.go:74-124 | 401 without a valid token, otherwise the routing decision |
| Routing.NewRouter | internal/ingress/router.go:42-72 | one proxy per backend, or an error exactly when some URL does not parse |
| Routing.ListFollowsItsShard | internal/ingress/router.go:110-117 | for every tenant a configured router sends a list's request to its shard, which admits it if and only if that is the tenant |
| Routing.PathShardIs | internal/ingress/router.go:110-117 | which paths carry which shard, in terms of the text of the path, both ways |
| Routing.RouteExact | internal/ingress/router.go:110-124 | for every path and tenant, a request goes to another shard than the token's exactly when the path names a list of that shard and the shard is configured |
| Routing.AdmittedExact | internal/ingestion/auth.go:14-27 | for every path and tenant, a request is proxied and admitted if and only if the tenant is configured and the path names no list of another configured shard |
| Routing.RoutedInEveryRun | internal/ingestion/auth.go:14-27 | in every run of the assignment protocol an issuer's old list is still routed to its shard, and admitted if and only if the issuer's later token is for the same shard, hence always without a reassignment |

## Left out

- HMAC, signatures, JWT, COSE, CBOR, zlib and base64: the round function is arbitrary, a token is a wrapper around version, lifetime, width and bytes.
- Configuration, metrics, signing keys, client assertions, trust, the token endpoint, HTTP proxying, the Rust crates and the tools: environment, single-pass checks or wiring. The router's and the backend's token validation is an input.
- The verifier's list handler, except its 304 decision: 404, 410, format negotiation and headers are single branches.
- Connection errors and timeouts: a crash is a writer that stops between its byte write and its increment, or a call that makes no further step; a transaction is all or nothing.
- Probability claims (fill balance, unpredictability, decoy rate): random draws are inputs, so theorems hold for every draw.
- The polling loops `Run` of publisher, pool, noiser and sweeper: each iteration is one modelled call.
- Purges inside the decoy theorems, in HitIsLive, NotModifiedIsFresh and DirtyPublish: they are about runs between a list's creation and its purge.
- MetaStore.Store.Select: does not state the order of a query's rows, because no caller's result depends on it beyond the random choice.
- The sweepers' Redis in Lifecycle: Lifecycle is about the tables alone. Sweeper.Sweep, which purges bitmaps too, assumes that the sweeper's Redis is the lists' own, that is one shard per sweeper.
- A list ID drawn twice: in Lifecycle a list ID, once used, is not used again, even after the list is deleted, because suffixes are 128 random bits.
- Overflow of the version counter and of timestamps: both are unbounded. The 64-bit arithmetic of sizes, offsets and byte counts is modelled.
- Pool.EnsureHealthy: reads the clock once for all lists, because the source's repeated reads within a pass only move later; random suffixes come as an input, and success is promised for suffixes that are not in use.
- Ingestion.HandleAllocate: one request run alone, so retries happen only in a store that is not consistent; reservations that interleave are in Lifecycle.
- Noiser.SweepList: draws its indices before its first write, because an index depends only on the list's row; the number of draws is an input.
- Noiser.InvalidIsFinal: needs distinct samples within the pass; Noiser.RedrawExact covers repeated ones.
- Publishing.HitIsLive: is about a cache read at which the version just read is still the live one, because otherwise a write has been acknowledged in between.
- DirtyPublish.QuietMeansPublished: fires publish successfully; the list lookup at the start of a fire is part of the beginning of its publish call.
