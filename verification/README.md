# A verified model of the LSM engine

This project models the storage engine under `internal/` as one stack and proves what it keeps:

- **Bytes**: base-128 varints with zigzag (`Varint`), the CRC-32 of section 8 of RFC 1952 (`Crc32`), the
  entry fields shared by log and table (`Records`), write-ahead log frames (`WalFormat`), the sorted table
  file (`TableFormat`), and lookup in it (`TableLookup`, `SparseIndex`, `Bloom`, `Hashing`, `Words`). What a
  writer produces is decoded exactly, also when it is cut short or padded with zeros, and is refused when a byte
  under a checksum has changed. `KnownBytes` works one filter, one table file and two names out byte by byte.
- **Objects**: the classes `Wal.WAL`, `Bloom.Filter`, `SparseIndex.Index`, `Memtable.MemTable`,
  `Sstable.Writer`, `Sstable.EntryIter`, `MergeHeap.Heap`, `Chunks.Output` and `Lsm.LSM` hold the fields the
  program holds and change them in place; each method is proved against a function of the old state.
- **Merge**: `Versions` says what a set of versions means and what merging keeps of it; `Compaction`,
  `MergeHeap`, `Chunks` and `DoCompact` prove the heap-driven loop and its output splitting against that.
- **State machine**: `LsmModel` gives each operation as a function on a store (memtable, log, levels, sizes,
  file numbers, manifest, files), a flush with the four ways it can end. `LsmVersions`, `LsmTables`, `LsmRoom`,
  `LsmRecovery` and `LsmSteps` prove what every operation keeps; `LsmRuns`, `LsmRestarts`, `LsmModest`,
  `LsmLevelZero`, `LsmSettle` and `LsmReads` state the results over whole runs from an empty directory; `LsmGet`,
  `LsmShape` and `LsmBottom` are about reading, key ranges and the bottom level.
- **Limits**: where the engine does less than it says, `LsmLimits`, `LsmRelapse`, `LsmEight`, `Phantom` and
  `TableLimits` give the input and the exact condition. `LsmScenes` follows the runs they need: batches that
  fill the memtable, and background passes over nine level-0 tables.

`View(s, k)` is the newest version of `k` over memtable and all tables, a deletion counting as absent. The
central theorems say that after any run `View` is the plain map of the run's history, for every number of levels
up to seven and for no greater one (`LsmRuns.HistoryIsVisible`, `LsmEight.FaithfulUpToSeven`), also across kills
and restarts (`LsmRestarts.HistorySurvivesRestarts`). The plain map takes every write. It goes back to what the
levels hold when a flush fails, and to that under what the log gives back when a restart finds a log that may miss
part of the memtable; in all other runs it is the map of all writes (`LsmRuns.NothingIsTakenBack`). Both cases have
their exact condition: a batch keeps the history if and only if its flush fits its mapping
(`LsmRuns.PutKeepsHistory`), a restart if and only if the log holds the memtable or there is none
(`LsmRestarts.RestartKeepsHistory`), or, in both, when nothing that was lost shows.

## Where the code differs from what is said of it

The model follows the code. These are theorems, not repairs. The runs named here start from an empty
directory, use batches, deletions and background passes only, and none of their flushes fails and all of their
merges fit (`LsmScenes.Reaches`), so that they are runs the class `Lsm.LSM` takes.

- `Get` scans level 0 oldest first: two batches that each fill the memtable and write one key make it return
  the first value (`LsmLimits.TwoPutsReadStale`). When no lookup strays (below), `Get` stops at the newest version
  if and only if the first table with the key, in the highest level with the key, has that level's newest version
  (`LsmGet.GetIsNewest`, and over runs `LsmReads.HistoryIsRead`); when level 0 has the key, if and only if no
  second level-0 table has it (`LsmGet.LevelZeroGetIsExact`). A search of level 0 newest first would need no
  condition on level 0 (`LsmGet.NewestFirstShowsView`).
- `MaxKey` is the last sampled key. It is the greatest key if and only if the last entry was sampled
  (`TableLookup.ReportedKeys`). `compactL0ToL1` can therefore miss an overlap: level 1 then has the key
  twice, older version first, and a pass turns what `Get` returns from the newer value to the older one
  (`LsmRelapse.PassBringsBackOlder`). Level 1 stays free of shared keys if and only if no level-1 table
  that stays shares a key with a level-0 table that is merged (`LsmShape.CompactL0KeysOnce`).
- The merge starts with an empty last key, so every version of the empty key it reads is dropped. A compaction
  keeps its value if and only if what is not merged shows it (`LsmBottom.CompactEmptyKey`); a pass can lose it
  (`LsmRelapse.PassLosesEmptyKey`). All other results hold for every non-empty key.
- The bottom level is level 6 whatever the number of levels. A merge keeps the visible value of a key if and
  only if it does not drop a deletion above an older value that stays (`Versions.MergeKeepsVisible`,
  `LsmBottom.CompactView`, with cascades `LsmBottom.CompactLevelView`). With up to seven levels that never
  happens; with eight or more a deleted value comes back after a run of flushes and passes that respects the
  program's own size limits and in which every flush and merge fits (`LsmEight.DeletedKeyResurfaces`, at the
  default flush threshold `LsmEight.EightRun`). A reader sees the history after every run if and only if there are
  at most seven levels (`LsmEight.FaithfulUpToSeven`).
- `recoverWAL` resets the log while what it found is only in memory: a second restart right behind keeps
  the memtable if and only if it was empty (`LsmLimits.SecondRestartForgets`).
- A process killed before its first write leaves a log of zeros that the next one appends to. Such a log is
  recovered if and only if the number of zeros is a multiple of five (`LsmRecovery.RecoveredBehindZeros`),
  and 64 MiB less the version byte is not one (`LsmLimits.UncleanLogLosesBatches`).
- A lookup of a key above a table's last one scans on into the index block. `TableLookup.Trailing` is what the
  bytes there parse as, whatever key is asked for; a lookup is linear search if and only if the key is not
  above the last one, or the filter rejects it, or none of those pieces answers it
  (`TableLookup.GetIsSearch`, `LsmGet.ProbeIsSearch`). `Get` is the linear search of memtable and levels if and
  only if the first table that has the key or strays for it has the key, or no table does either
  (`LsmGet.GetIsLinear`, which also counts a table that strays to the very version wanted). One batch of one pair
  with a certain key makes `Get` return a value for a key that was never written, the filter included
  (`Phantom.StrayIsFound`, `LsmLimits.StrayIsRead`).
- `Close` copies the blocks behind the data without growing the mapping. It leaves a file that opens if and
  only if all of them fit (`Sstable.ClosedOpens`); if up to the 24 bytes of the footer are cut it leaves one
  that does not open, and beyond that it panics. Both happen: for every key within the bounds there is a value
  for each excess (`TableLimits.ValueForExcess`, `TableLimits.ExcessDecides`,
  `TableLimits.NoRoomForLongKey`). `flushMemtable` has emptied memory and log before it opens the file, so
  such a put fails and leaves nothing of what was written (`LsmLimits.FlushCanFail`). With keys of at most
  1024 bytes compaction outputs, and memtables up to 48 KiB above the default threshold, fit
  (`TableLimits.OutputFits`, `LsmTables.SmallMemtableFits`).
- Open looks for the legacy magic number four bytes before the end of the file, where a 20-byte legacy footer has
  the upper half of its second offset, so it refuses every such file of a size that occurs
  (`TableFormat.LegacyIsRefused`).
- A log without a version byte is replayed as well, unless its first batch has one entry: its count is taken for
  the version (`WalFormat.UnversionedReplays`), and the put is lost (`WalFormat.UnversionedIsLost`).
- Level-0 files are sorted by name. Of two numbers the smaller one's name comes first if and only if it does
  not exceed the leading digits of the greater one (`Paths.NameOrderExact`), as with equally many digits
  (`Paths.NameOrder`); the clock gives 19 digits from 2001 on.

## Assumptions of the run theorems

The process is up, the clock exceeds every timestamp handed out, file numbers have 19 digits and fit 63 bits, and
there are at least two levels; what a reader sees is stated for up to seven. A run is legal (`LsmRuns.Legal`) when
its merges fit their files (`LsmRoom`), cascades included, and no flush leaves a cut file that happens to spell the
legacy format; keys, values, batch sizes and the ends of flushes are free. Results about files and restarts
(`LsmRestarts.Durable`) also take lengths and timestamps that fit 64 bits, and allow any restart, a process that
panicked being restarted as killed. Merges of tables whose entries are within the writer's bounds always fit
(`LsmRoom.StockedPass`), so `LsmModest.ModestHistorySurvives` needs only bounds on what the caller passes: keys of
at most 1024 bytes, entries whose estimate is at most 4 MiB, and small enough batches. The class `Lsm.LSM` takes
every operation of a durable run (`Lsm.DurableIsTaken`). Steps are atomic because one lock covers each of them.

## Model

| member | source | states |
|---|---|---|
| LsmRuns.HistoryIsVisible | internal/lsm/lsm.go:264-539 | After any run of batches, deletes, flushes, both compactions and background passes from an empty directory, the newest version of every non-empty key over memtable and tables is what the plain map of the same writes holds, where a flush that fails takes the map back to what the levels held |
| LsmRuns.NothingIsTakenBack | internal/lsm/lsm.go:264-389 | When no flush of the run fails and each restart finds a log that holds the memtable, or no memtable, that map is the one all writes build |
| LsmRuns.PutKeepsHistory | internal/lsm/lsm.go:264-377 | A batch that fills the memtable and does not panic shows a reader the history with its writes if and only if its flush fits the mapping, or memory held nothing the levels do not show |
| LsmRestarts.HistorySurvivesRestarts | internal/lsm/lsm.go:68-389 | The same across any kills, closes and reopenings, after failed and panicked flushes too, and at every step sizes, file contents, manifest and file names are exact but for the files of failed flushes, which the next restart removes |
| LsmRestarts.RestartKeepsHistory | internal/lsm/lsm.go:68-253 | A restart shows a reader the history if and only if the log holds the memtable or there is none, or what the log gives back shows the same over the levels |
| LsmModest.ModestHistorySurvives | internal/lsm/lsm.go:68-389 | From bounds on what the caller passes (bounded entries, and threshold, batch and the deletions since the last batch or flush together at most 48 KiB above 4 MiB) the same with no failed flush and no other file, and the map is that of all writes when each restart finds a log that holds the memtable, or no memtable |
| LsmRuns.HistoryKeepsAge | internal/lsm/lsm.go:391-539 | In every reachable store, whatever its number of levels, each version in the memtable is newer than any of its key in a table, level 0 lists newer tables later, an upper level is newer than a lower one, and no two versions of a key tie |
| LsmRuns.RunRefines | internal/lsm/lsm.go:264-539 | The version invariant and the agreement with the plain map, of the store and of its levels alone, hold after every legal run from any store that has them, however its flushes end |
| LsmRestarts.RunSurvives | internal/lsm/lsm.go:68-539 | Along every durable run the invariants hold, the files are exact, and the log replays to the memtable, or holds only zeros and frames of nothing beside an empty one, or, once a restart left part of the memtable out of it, to part of the memtable |
| LsmRestarts.RestartSurvives | internal/lsm/lsm.go:68-119 | Any restart gives back the same levels and part of the memtable, all of it while the log holds it or there is none, removes the files no level lists and keeps all invariants |
| LsmReads.HistoryIsRead | internal/lsm/lsm.go:541-575 | After any durable run Get stops at the newest version of a key, if and only if the first table that has the key or strays for it has it and the first table with the key in the highest level with the key has the newest of that level, or it strays to that very version; without straying it then returns the plain map's value of a non-empty key |
| LsmReads.HeldOnceIsRead | internal/lsm/lsm.go:541-575 | So it does for every non-empty key that levels 0 and 1 each hold at most once and for which the first table to reply has the key |
| LsmReads.HistoryKeepsLevelsDisjoint | internal/lsm/lsm.go:479-539 | In every store reachable by a legal run, whatever was written, however its flushes ended and however many levels it has, the tables of each level from 2 on have pairwise disjoint key ranges |
| LsmReads.RestartsKeepLevelsDisjoint | internal/lsm/lsm.go:68-539 | The same for every durable run with restarts |
| LsmReads.OperationKeepsDeep | internal/lsm/lsm.go:264-539 | No single operation makes two tables below level 1 overlap, whatever the store |
| LsmSettle.HistorySettles | internal/lsm/lsm.go:695-716 | In every store reachable by a legal run, whatever its number of levels, the level sizes are the sums over their tables, and one more background pass brings every level from 1 to the last but one within its limit |
| LsmSettle.RestartsSettle | internal/lsm/lsm.go:68-716 | The same for every durable run with restarts |
| LsmSettle.PassSettles | internal/lsm/lsm.go:701-713 | From any store with exact sizes, of any number of levels and in whatever order level 0 is, a pass leaves every level from 1 to the last but one within its limit and the sizes exact, however far compactLevel cascades |
| LsmSettle.CompactLevelEmpties | internal/lsm/lsm.go:479-539 | compactLevel leaves its level with size 0, the levels above untouched, and the accounting exact through the cascade |
| LsmSettle.CompactLevelSettles | internal/lsm/lsm.go:479-539 | It leaves no level above its limit that it fills, neither the next one nor any it cascades into, but for the last |
| LsmSettle.PassRests | internal/lsm/lsm.go:701-713 | A pass leaves the store as it is if and only if level 0 has at most eight tables and every level from 1 to the last but one is within its limit |
| LsmLevelZero.CompactL0Takes | internal/lsm/lsm.go:391-451 | compactL0ToL1 takes four tables out of level 0 when it has more than eight, and otherwise half of them, rounded down, but at least one; those that stay are the newest, in their order |
| LsmLevelZero.PassTakes | internal/lsm/lsm.go:695-716 | A background pass takes exactly four tables out of a level 0 of more than eight, the oldest, and none otherwise |
| LsmLevelZero.FlushTakes | internal/lsm/lsm.go:369-386 | A flush that is done makes level 0 one table longer, the new one last; when that would be seventeen, the four oldest leave and thirteen stay |
| LsmLevelZero.HistoryKeepsLevelZeroShort | internal/lsm/lsm.go:264-477 | In every store reachable by a legal run, whatever was written and however its flushes ended, level 0 has at most sixteen tables |
| LsmLevelZero.HistoryFillsTables | internal/lsm/lsm.go:264-328 | In every store reached by batches, deletions and compactions the entries of each level-0 table are estimated at the flush threshold or more: nothing is flushed early |
| LsmLevelZero.RestartsKeepLevelZero | internal/lsm/lsm.go:68-477 | Both hold after every durable run with restarts |
| LsmSettle.RunAccounts | internal/lsm/lsm.go:350-537 | Along every legal run the size kept for each level equals the sum of its tables' data sizes |
| LsmVersions.CompactKeepsAge | internal/lsm/lsm.go:391-539 | The age order (memtable over levels, upper over lower level, later over earlier level-0 table) survives taking only the oldest level-0 tables and moving whole levels |
| LsmVersions.BottomIsOldest | internal/compaction/compaction.go:55-112 | When level 6 is the last level everything that stays is newer than what a merge into it takes, so dropping its tombstones exposes nothing |
| LsmVersions.CompactKeepsView | internal/lsm/lsm.go:391-539 | A compaction whose bottom merge takes from the last level keeps the visible value of every non-empty key; of the empty key only what was not merged stays visible |
| LsmVersions.CompactKeepsVersions | internal/lsm/lsm.go:391-539 | Any compaction by a plan of the engine, with any number of levels, keeps the age order, the absence of ties and the clock |
| LsmVersions.FlushMoves | internal/lsm/lsm.go:330-389 | Moving the memtable into a new last level-0 table keeps exactly the same versions and the age order |
| LsmVersions.WriteOne | internal/lsm/lsm.go:264-320 | A write with a timestamp above the clock changes the visible value of its key to the written one and of no other key |
| LsmSteps.WroteOk | internal/lsm/lsm.go:264-320 | A batch of consecutive timestamps from the clock on changes what is visible exactly as it changes a plain map |
| LsmSteps.CompactOk | internal/lsm/lsm.go:413-539 | One compaction by either plan keeps all invariants and agrees with the same plain map |
| LsmSteps.CompactLevelOk | internal/lsm/lsm.go:479-539 | compactLevel with its cascade keeps all invariants, memtable and log, and agrees with the same plain map |
| LsmSteps.LoopPassOk | internal/lsm/lsm.go:695-716 | A background pass only reorganises: same visible values, memtable and log, all invariants kept |
| LsmSteps.FlushOk | internal/lsm/lsm.go:330-389 | A flush that is done empties memtable and log and keeps all visible values |
| LsmSteps.FlushEndsOtherwise | internal/lsm/lsm.go:335-373 | A flush that fails leaves the levels and their sizes, empties memtable and log and leaves exactly the versions the levels hold; one that panics leaves memtable, levels and versions |
| LsmTables.CompactStored | internal/lsm/lsm.go:438-474 | A compaction keeps tables writable, names distinct, sizes exact, every table's file present with its bytes and no other table file, and the manifest equal to the levels |
| LsmTables.FlushStored | internal/lsm/lsm.go:339-377 | A flush that fits its mapping keeps the same facts |
| LsmTables.DoneIffFits | internal/lsm/lsm.go:342-373 | A flush of entries whose lengths and timestamps fit 64 bits is done if and only if its table fits the mapping, and then the file opens as the table |
| LsmTables.LostStored | internal/lsm/lsm.go:342-373 | A failed flush keeps the facts but for one more file, which no level lists |
| LsmRoom.MergeOpens | internal/compaction/compaction.go:83-145 | A merge whose counts fit an int leaves only files that open if and only if all its outputs fit their mappings |
| LsmRoom.StockedPass | internal/lsm/lsm.go:695-716 | When all tables hold entries within the bounds, every merge of a pass, cascades included, fits its files, and the tables it leaves hold entries within the bounds |
| LsmTables.PlanL0Ok | internal/lsm/lsm.go:397-432 | compactL0ToL1 takes the oldest tables of level 0, exactly four out of more than eight and else half but at least one, keeps the rest, and splits level 1 without losing or repeating a table |
| LsmTables.SmallMemtableFits | internal/lsm/lsm.go:322-357 | A memtable of bounded entries up to 48 KiB above the default threshold can be flushed without outgrowing the mapping |
| LsmRecovery.AppendIsRecoverable | internal/lsm/lsm.go:291-316 | If the log replays to the memtable, it still does after a batch is appended to one and applied to the other |
| LsmRecovery.RecoveredIsMemtable | internal/lsm/lsm.go:235-253 | Recovery of a log that holds the memtable gives it back, from the file Close leaves and from the zero-padded one a kill leaves |
| LsmRecovery.LoadsLevels | internal/lsm/lsm.go:190-208 | Opening the files the manifest lists gives back every level, table by table and entry by entry |
| LsmRecovery.DamagedIsLeftOut | internal/lsm/lsm.go:190-208 | A table in whose data block one byte has changed is not among those the next opening loads |
| LsmRecovery.ReopenRestores | internal/lsm/lsm.go:68-119 | Stopping and opening gives the same memtable, levels and files with exact sizes, and keeps the invariants, when the log holds the memtable or there is none |
| LsmRecovery.HollowReopens | internal/lsm/lsm.go:235-253 | A log of frames of nothing and zeros survives any restart, killed or closed, as such a log, and gives an empty memtable |
| LsmRecovery.TailedReopens | internal/lsm/lsm.go:235-253 | From a log of zeros and of the last batches that went into the memtable a restart recovers part of the memtable, and leaves a fresh log, zeros, or zeros that misalign everything behind them |
| LsmGet.GetIsLinear | internal/lsm/lsm.go:541-575 | Get is the linear search of memtable and levels in its order if and only if the first table that has the key or strays for it has the key, or no table does either, or that table strays to the very version the search finds; otherwise it returns what that table strays to |
| LsmGet.SearchIsNewest | internal/lsm/lsm.go:541-575 | The linear search stops at the newest version of the key, if there is any, if and only if the first table with the key in the highest level with the key has the newest version of that level |
| LsmGet.GetIsNewest | internal/lsm/lsm.go:541-575 | So does Get if its first table to reply has the key; if that table strays, Get stops at the newest version if and only if it strays to that very version |
| LsmGet.GetShowsView | internal/lsm/lsm.go:541-575 | Get returns the newest version of every key that at most one table of each level holds and for which the first table to reply has the key |
| LsmGet.LevelZeroGetIsExact | internal/lsm/lsm.go:552-572 | For a key in level 0 and not in the memtable, Get stops at its newest version if and only if no second level-0 table has the key; or, if it strays, if and only if it strays to that very version |
| LsmGet.ProbeIsSearch | internal/lsm/lsm.go:558-571 | Filter and table lookup together answer like a linear search of the table's entries if and only if the key is not above the last one, or the filter rejects it, or no piece of the bytes behind the data block answers it; otherwise the answer is that piece's |
| LsmShape.CompactLevelDisjoint | internal/lsm/lsm.go:479-527 | compactLevel leaves the next level with pairwise disjoint key ranges, whatever it was before |
| LsmShape.CompactL0Disjoint | internal/lsm/lsm.go:413-470 | compactL0ToL1 keeps level 1 disjoint when the reported ranges of the tables it looks at are exact |
| LsmShape.CompactL0KeysOnce | internal/lsm/lsm.go:424-470 | After compactL0ToL1 no key is in two level-1 tables if and only if no level-1 table that stayed shares a key with a merged level-0 table |
| LsmShape.CompactL0Spares | internal/lsm/lsm.go:413-432 | Where the reported ranges are exact, a level-1 table stays out of the merge if and only if its keys lie all below or all above those of every table taken from level 0 |
| LsmShape.OverlapKeepsOrder | internal/lsm/lsm.go:424-432 | The level-1 tables that stay, and those that are merged, keep the order of the level |
| LsmShape.RangeIsExact | internal/sstable/sstable.go:557-571 | The reported range of a table is exact if and only if the number of entries is one above a multiple of 128 |
| LsmShape.HullCovers | internal/lsm/lsm.go:413-422 | The hull of exact ranges covers every key of the taken tables |
| LsmLimits.TwoPutsReadStale | internal/lsm/lsm.go:552-572 | For every key and two values whose flushes fit their mappings: two batches that each fill the memtable leave the second value newest and Get returning the first |
| LsmLimits.StrayIsRead | internal/lsm/lsm.go:541-575 | One batch of one pair with a certain key, whatever its value as long as the flush fits its mapping, is flushed, and Get returns a value for a key that was never written |
| LsmLimits.FlushCanFail | internal/lsm/lsm.go:330-377 | At every flush threshold up to 2240 bytes below 8 MiB, the default of 4 MiB among them, for every bounded key and every excess up to 25 bytes there is a value whose put into an empty store flushes a table that much larger than its mapping: it is done without excess, fails or reads as the legacy format up to 24, certainly fails from 5 on, and panics at 25; a put that did not panic nor end well leaves no version of the key |
| LsmLimits.FailedFlushForgets | internal/lsm/lsm.go:362-373 | After a flush whose file does not open only the versions the levels held are left |
| LsmLimits.FailedFlushLeavesFile | internal/lsm/lsm.go:339-373 | It leaves one file more: the table's bytes as far as the mapping went and zeros, which do not open; the other files stay, and its number is not given again |
| LsmRelapse.PassBringsBackOlder | internal/lsm/lsm.go:413-470 | A run of batches and passes, every flush and merge of which fits, in which the second pass misses an overlap: Get returns the newer value before it and the older one after it, while the newest version stays |
| LsmRelapse.PassLosesEmptyKey | internal/compaction/compaction.go:75-107 | A run of nine batches, every flush of which fits, after which the empty key has a value, and no value after the next pass |
| LsmEight.DeletedKeyResurfaces | internal/lsm/lsm.go:479-539 | For every number of levels from eight on a run of batches, one deletion and two passes, in which every flush is done and every merge fits and whose batches exceed the size limits that make compactLevel go on, after which a deleted key shows its value |
| LsmEight.EightRun | internal/lsm/lsm.go:479-539 | Such a run at the default threshold: 2 to the 20 entries with values of 1.25 MiB, the deletion of the first, and 2 to the 17 such entries under other keys |
| LsmEight.FaithfulUpToSeven | internal/compaction/compaction.go:55-112 | A reader sees the plain map at every non-empty key after every legal run, failed flushes included, if and only if the store has at most seven levels |
| LsmBottom.CompactView | internal/compaction/compaction.go:50-149 | With any number of levels a compaction keeps the visible value of a non-empty key if and only if it does not drop a deletion, the newest version, above an older value that stays |
| LsmBottom.CompactLevelView | internal/lsm/lsm.go:479-539 | compactLevel with its cascade keeps it if and only if no step of the cascade does that |
| LsmBottom.CompactEmptyKey | internal/compaction/compaction.go:75-107 | A compaction keeps what is visible of the empty key if and only if what is not merged shows it already |
| LsmLimits.SecondRestartForgets | internal/lsm/lsm.go:235-253 | The first restart gives the memtable back, the second one right behind keeps it if and only if it was empty |
| LsmRecovery.RecoveredBehindZeros | internal/wal/wal.go:47-104 | A log with zeros before its first batch is recovered in full if and only if their number is a multiple of five, otherwise not at all |
| LsmLimits.UncleanLogLosesBatches | internal/wal/wal.go:81-104 | All batches written behind the log of a process killed before its first write are lost at the next recovery |
| LsmLimits.IdleStop | internal/lsm/lsm.go:235-253 | An empty store that was killed before its first write opens with a log of zeros, one that was closed with a new log |
| Lsm.LogAndPut | internal/lsm/lsm.go:281-314 | The frame PutBatch builds inline is byte for byte the frame of the batch's entries, and the memtable is updated with the same entries |
| Lsm.PutAll | internal/lsm/lsm.go:274-278 | Without a log the memtable is updated with the batch's entries |
| Lsm.ApplyLog | internal/lsm/lsm.go:240-246 | The recovered entries are applied in order, deletions without a value |
| Lsm.LoadFiles | internal/lsm/lsm.go:195-205 | Of any names and files, the tables whose files are there and open, in order, and the set of all names |
| Lsm.WriteTable | internal/lsm/lsm.go:342-355 | The file of a flushed table is what Close leaves for its entries, or Close panics |
| Lsm.LSM.Create | internal/lsm/lsm.go:68-119 | Opening an empty directory gives the initial store |
| Lsm.LSM.Open | internal/lsm/lsm.go:68-119 | Opening the files a stopped store left gives exactly the state machine's reopened store, unless the log makes Replay panic |
| Lsm.LSM.RecoverWAL | internal/lsm/lsm.go:235-253 | The memtable becomes the replayed entries, and the log is fresh if there were any |
| Lsm.LSM.LoadTables | internal/lsm/lsm.go:190-208 | From any manifest each level becomes the tables whose files open and every file it does not name is removed; from the files of a stored state the levels are its tables |
| Lsm.LSM.RemoveOrphans | internal/lsm/lsm.go:175-188 | Exactly the files with known names stay |
| Lsm.LSM.UpdateLevelStats | internal/lsm/lsm.go:594-601 | The sizes become the sums of the tables' data sizes |
| Lsm.LSM.WriteManifest | internal/lsm/lsm.go:125-131 | The manifest lists the names of all tables level by level |
| Lsm.LSM.Put | internal/lsm/lsm.go:255-257 | Put is the state machine's batch of one, and ends as that batch ends |
| Lsm.DurableIsTaken | internal/lsm/lsm.go:255-539 | Every operation of a durable run other than a restart meets what the object's method for it requires |
| Lsm.LSM.PutBatch | internal/lsm/lsm.go:264-328 | The batch is done, fails or panics as its flush does, and in each case the store is exactly the state machine's store, flush and forced compaction included, and the invariants hold at the later clock |
| Lsm.LSM.Delete | internal/lsm/lsm.go:577-592 | The store becomes the state machine's store after the deletion, invariants kept; it never flushes |
| Lsm.LSM.FlushMemtable | internal/lsm/lsm.go:330-389 | For a memtable of any size the store is the state machine's flushed store: done, and compacted when level 0 outgrew twice its limit; or failed with memtable and log emptied and the file left; or a panic in Close before either; the invariants hold after each |
| Lsm.LSM.MoveToLevelZero | internal/lsm/lsm.go:335-377 | The memtable's entries become a new last level-0 table with its file, size, number and manifest entry, memtable and log fresh, if the file opens; the two failures are as in FlushMemtable |
| Lsm.LSM.CompactL0ToL1 | internal/lsm/lsm.go:391-477 | The store becomes the state machine's store after merging the oldest level-0 tables, as many as LsmLevelZero.CompactL0Takes says, into level 1 |
| Lsm.LSM.CompactLevel | internal/lsm/lsm.go:479-539 | The store becomes the state machine's store after moving the level down, cascades included |
| Lsm.LSM.Compact | internal/lsm/lsm.go:438-474 | Merging, removing the inputs, opening the outputs, the accounting and the manifest are exactly the state machine's compaction |
| Lsm.LSM.LoopPass | internal/lsm/lsm.go:701-713 | One pass of the background loop is the state machine's pass |
| Lsm.LSM.Get | internal/lsm/lsm.go:541-575 | The nested loops return the first hit of memtable, then levels in order, a deletion ending the search as absent |
| Lsm.LSM.Close | internal/lsm/lsm.go:641-656 | The log file that is left holds what was written and no padding |
| LsmFiles.SortByPath | internal/lsm/lsm.go:397-401 | The copy is the list the state machine sorts, with no file behind one whose path is greater |
| LsmFiles.KeyRange | internal/lsm/lsm.go:413-422 | The loop finds the smallest MinKey and the greatest MaxKey |
| LsmFiles.SplitByOverlap | internal/lsm/lsm.go:424-432 | The loop splits level 1 into overlapping and other tables, order kept |
| LsmFiles.FindIn | internal/lsm/lsm.go:558-571 | The loop over one level returns the first hit in slice order, filter skips included |
| LsmFiles.Merge | internal/lsm/lsm.go:434-438 | The files DoCompact writes are those of the tables made of the surviving versions of all inputs, or there are none if one cannot be closed |
| LsmModel.ByPathMembers | internal/lsm/lsm.go:397-401 | Sorting by path keeps every table exactly once |
| LsmModel.ByPathSorts | internal/lsm/lsm.go:397-401 | Sorting by path leaves no table behind one whose path is greater |
| Versions.MergeKeepsVisible | internal/compaction/compaction.go:50-149 | Replacing versions by their survivors keeps the visible value of a non-empty key if and only if it does not drop, at the bottom, a deletion that is the newest version above an older value that stays |
| Versions.MergeDropsEmptyKey | internal/compaction/compaction.go:75-107 | After a merge the empty key shows only what was not merged |
| Compaction.MergedIsSurvivors | internal/compaction/compaction.go:97-139 | Without equal timestamps of one key there is one merge result: the sorted surviving versions |
| Compaction.SkipSameKey | internal/compaction/compaction.go:105-107 | Skipping an entry whose key equals the last one keeps the merge of what was taken, the empty key included |
| Compaction.TakeNewKey | internal/compaction/compaction.go:105-138 | Writing or dropping the first entry of a new key keeps the merge of what was taken |
| DoCompact.Start | internal/compaction/compaction.go:57-66 | The heap holds the first entry of every non-empty input and nothing is lost |
| DoCompact.Take | internal/compaction/compaction.go:97-103 | Popping and refilling takes an entry no other is ahead of, keeps all the others pending, and lowers the count of heaped and unread entries |
| DoCompact.MergeAll | internal/compaction/compaction.go:97-139 | The loop ends with a merge of everything the inputs hold, written into chunks, or stops where a chunk cannot be closed |
| DoCompact.Keep | internal/compaction/compaction.go:105-138 | An entry of the last key and a deletion at the bottom are dropped, any other goes into the output |
| DoCompact.DoCompact | internal/compaction/compaction.go:50-149 | For any sorted inputs, ties and sizes of any kind included, the outputs are the chunks of one strictly sorted run that has the newest version of exactly the non-empty keys, tombstones dropped from level 6 on, no chunk being closed before the next entry would pass the target; there are no outputs exactly when closing one of them panics |
| Chunks.ChunksJoin | internal/compaction/compaction.go:114-145 | The chunks joined are the run, and none is empty |
| Chunks.ChunksPacked | internal/compaction/compaction.go:114-138 | The chunks are packed: joined they are the run, none is empty, none of more than one entry is estimated above 4 MiB, and each together with the first entry of the next one is |
| Chunks.PackedOnce | internal/compaction/compaction.go:114-138 | A run can be packed in one way only, so these are the chunks |
| Chunks.ChunksFit | internal/compaction/compaction.go:72-138 | No chunk of bounded entries outgrows the target size or its file's first mapping |
| Chunks.Output.Emit | internal/compaction/compaction.go:114-138 | An entry of any size is appended to the open file while the estimate with it stays within 4 MiB, else that file is closed and a new one holds the entry alone; it panics exactly when closing does |
| Chunks.Output.FlushChunk | internal/compaction/compaction.go:83-95 | The open file is closed and the next number is used for the next one, or closing it panics |
| MergeHeap.Heap.Init | internal/compaction/compaction.go:66 | Any items become a heap of the same items |
| MergeHeap.Heap.Push | internal/compaction/compaction.go:41 | The heap gains exactly the pushed item and stays a heap |
| MergeHeap.Heap.Pop | internal/compaction/compaction.go:33-48 | The popped item is one no other is ahead of, by key and then by newer timestamp, and the rest stays a heap |
| MergeHeap.NotAheadTransitive | internal/compaction/compaction.go:34-39 | The heap's order is a weak order: not being ahead is transitive |
| Paths.NameOrder | internal/lsm/lsm.go:399-401 | Level-0 file names sort by number while the numbers have equally many digits |
| Paths.NameOrderExact | internal/lsm/lsm.go:399-401 | Of any two numbers the smaller one's name sorts first if and only if it does not exceed the leading digits of the greater one |
| KnownBytes.KnownNames | internal/lsm/lsm.go:339 | A flushed table's name has the plain number, a compacted one's eight digits: "0-12.sst" and "1-00000012.sst" |
| Sstable.Writer.Create | internal/sstable/sstable.go:46-78 | A new writer holds no entries, an empty index with a positive step and an empty filter |
| Sstable.Writer.Append | internal/sstable/sstable.go:96-134 | The mapping, the running checksum, the filter and the sampled index are those of the entries appended so far, growth included |
| Sstable.Writer.Grow | internal/sstable/sstable.go:80-94 | The mapping doubles beyond the target and keeps its bytes |
| Sstable.DoublesBeyond | internal/sstable/sstable.go:80-94 | Growing ends at the first doubling that exceeds the target, and at no other |
| Sstable.MappingIs | internal/sstable/sstable.go:46-134 | After any entries were appended the mapping is 8 MiB doubled some number of times and, once doubled, at most twice the data |
| Sstable.Writer.Close | internal/sstable/sstable.go:136-163 | For any entries: the file is data, index, filter and footer as far as they fit the mapping, filled up with zeros when only the footer is cut, and Close panics when more is |
| Sstable.ClosedOpens | internal/sstable/sstable.go:136-257 | Close leaves a file that opens if and only if all blocks fit the mapping |
| Sstable.CutFooterDoesNotOpen | internal/sstable/sstable.go:191-257 | A file whose footer was cut is not accepted, whatever else it holds |
| Sstable.WriteIndexBlock | internal/sstable/sstable.go:169-180 | The index block is the step, the count and the samples |
| Sstable.ScanFor | internal/sstable/sstable.go:385-443 | The lookup loop is the functional lookup, panics on malformed lengths included |
| Sstable.EntryIter.Next | internal/sstable/sstable.go:521-531 | On a written table Next gives the remaining entries one by one and stops at the end of the data block |
| Sstable.AllEntries | internal/sstable/sstable.go:449-466 | The loop reads all records of the data block up to the first that does not parse |
| Sstable.ParseIndexEntries | internal/sstable/sstable.go:355-369 | The loop reads the samples up to the first that does not parse |
| Sstable.FileRoundTrip | internal/sstable/sstable.go:96-257 | Opening a written file, with or without the checksum test, gives back its index and filter, and reading the data block gives exactly the appended entries |
| Sstable.DamageIsFound | internal/sstable/sstable.go:191-313 | A written file with one changed byte in its data block is refused by Open as a checksum mismatch; OpenNoVerify takes it |
| KnownBytes.KnownTable | internal/sstable/sstable.go:96-189 | The whole file of a table with one entry, byte by byte but for its filter: record and its checksum, step, count, key and offset, the two offsets, the checksum of the data and the magic number |
| TableFormat.DataRoundTrip | internal/sstable/sstable.go:449-510 | Reading a data block gives back the entries it was written from |
| TableFormat.DataCutShort | internal/sstable/sstable.go:449-515 | Of a data block cut short anywhere exactly the whole records are read, and nothing of the one that was cut |
| TableFormat.RecordRoundTrip | internal/sstable/sstable.go:468-510 | A record behind which anything follows is read as the entry it was written from |
| TableFormat.IndexRoundTrip | internal/sstable/sstable.go:169-371 | The parsed index block is the written index |
| TableFormat.OpenAssembled | internal/sstable/sstable.go:191-313 | Open accepts every assembled file and finds its three blocks |
| TableFormat.OpenExact | internal/sstable/sstable.go:191-257 | Of all files, Open accepts exactly those that end in the footer of two offsets inside them and of the checksum of the bytes before the first, with an index that parses between the two |
| TableFormat.LegacyIsRefused | internal/sstable/sstable.go:215-227 | A file that ends in two offsets and the legacy magic number, the 20 bytes openV1 subtracts, is refused, since Open looks for that number four bytes too early; it is taken for legacy if and only if the upper half of the second offset spells the number |
| TableFormat.SamplesSound | internal/sparseindex/sparseindex.go:22-28 | Every sample is a key of the table with the offset of its record, and the samples are sorted |
| TableLookup.GetFinds | internal/sstable/sstable.go:385-443 | On a written table filter, sparse index and scan find every present key and miss every absent key up to the last one; for keys above it they return what the bytes behind the data block scan as |
| TableLookup.GetIsSearch | internal/sstable/sstable.go:385-443 | A lookup in a written table is linear search if and only if the key is not above the last one, or the filter rejects it, or no piece that the bytes behind the data block parse as answers it |
| TableLookup.ScanMisses | internal/sstable/sstable.go:393-440 | A scan of any bytes misses if and only if the first piece they parse as that is not a whole record below the key neither has the key nor panics |
| TableLookup.ReportedKeys | internal/sstable/sstable.go:557-571 | MinKey is the smallest key; MaxKey is the greatest if and only if the last entry was sampled, and never above it |
| TableLimits.OutputFits | internal/sstable/sstable.go:136-163 | A compaction output of bounded entries fits the initial 8 MiB with all its blocks |
| TableLimits.OutputFilter | internal/compaction/compaction.go:72-81 | The filter of a compaction output, sized for 100000 keys, has 2 to the 20 bits and eight hashes |
| TableLimits.FlushOutputFits | internal/lsm/lsm.go:342-355 | So does a flushed table of bounded entries up to 48 KiB above 4 MiB, with the filter sized for its entry count |
| TableLimits.BigRunFits | internal/sstable/sstable.go:80-163 | A flushed table of bounded entries whose data block exceeds one size of the mapping and, with 17 bytes an entry and 1200 more, stays within the next, fits |
| TableLimits.NoRoomForLongKey | internal/sstable/sstable.go:136-163 | A key longer than half the mapping leaves no room for its copy in the index block, and Close panics |
| TableLimits.ValueForExcess | internal/sstable/sstable.go:96-163 | For every key within the bounds and every excess up to 25 there is a value whose one-entry table is that many bytes larger than its mapping |
| TableLimits.ExcessDecides | internal/sstable/sstable.go:136-163 | Such a table opens if and only if the excess is 0, and Close panics if and only if it is at least 25 |
| Phantom.StrayIsFound | internal/sstable/sstable.go:385-443 | In a flushed table of one entry with a certain key, whatever its value, a key nobody wrote is found behind the data block, the filter included |
| Phantom.StrayIsAdmitted | internal/bloom/bloom.go:50-88 | The filter of that table, at the size a flush gives it, lets the unwritten key through |
| SparseIndex.SearchSplits | internal/sparseindex/sparseindex.go:35-37 | The binary search ends at the first key that is not below the wanted one |
| SparseIndex.LookupStartsBelow | internal/sparseindex/sparseindex.go:30-49 | Lookup gives the offset of the last sample at or below the key, every later sample being above it, or 0 if there is none |
| SparseIndex.Index.Find | internal/sparseindex/sparseindex.go:30-49 | The method is the functional lookup |
| Bloom.NoFalseNegatives | internal/bloom/bloom.go:50-77 | A key among those added is never reported absent, whatever was added later |
| Bloom.FilterExact | internal/bloom/bloom.go:16-77 | A new filter that was given any keys reports a key present if and only if each of its positions is one of an added key's |
| KnownBytes.KnownPositions | internal/bloom/bloom.go:50-77 | The first positions of "a" among 256 bits are 140, 38 and 192 |
| KnownBytes.KnownFilter | internal/bloom/bloom.go:50-61 | Adding "a" with three hashes to an empty filter of 256 bits sets bits 38, 140 and 192 |
| KnownBytes.KnownFilterBytes | internal/bloom/bloom.go:91-99 | A filter of 128 bits and three hashes as bytes: both numbers, then the words with the lowest byte first |
| Bloom.FilterRoundTrip | internal/bloom/bloom.go:91-125 | Deserialize gives back the serialized filter bit for bit |
| Bloom.EmptyIsWellFormed | internal/bloom/bloom.go:16-40 | A new filter has as many words as its bit count needs, however the product of its sizes wraps |
| Bloom.BitCountIs | internal/bloom/bloom.go:24-28 | The bits are a power of two, at least 64, not below the bits asked for and, but for 64, less than twice as many; bits asked for are counted in 64 bits, and more than 2 to the 63 give 64 |
| Bloom.NewFilterSize | internal/bloom/bloom.go:16-34 | For any two arguments the bits are those of the two defaults applied, and the hash count is the least number, at least 1, not below ln 2 times bits over keys |
| Bloom.Filter.Add | internal/bloom/bloom.go:50-61 | Exactly the key's bits are set, each inside the word array |
| Bloom.Filter.Contains | internal/bloom/bloom.go:63-77 | The loop returns whether all of the key's bits are set |
| Bloom.Filter.Serialize | internal/bloom/bloom.go:91-99 | The buffer is bit count, hash count and words |
| Bloom.ReadWords | internal/bloom/bloom.go:114-122 | The loop reads as many words as the bytes hold and leaves the others zero |
| Bloom.Deserialize | internal/bloom/bloom.go:101-125 | The result is nil exactly when a header number does not parse, else the filter the bytes spell |
| Words.NextPowerOf2 | internal/bloom/bloom.go:140-152 | The result is the least power of two not below the argument, 1 for 0, and 0 above 2 to the 63 |
| Words.MaskedInRange | internal/bloom/bloom.go:57-60 | Masking with the bit count less one stays inside the word array |
| Words.PowerForBound | internal/bloom/bloom.go:140-152 | Rounding up at most doubles |
| Words.PowerForNumber | internal/bloom/bloom.go:140-152 | Of every 64-bit number v: the result is a power of two from v on and below twice v, 1 for 0, and 0 above 2 to the 63 |
| Memtable.MemTable.Put | internal/memtable/entry.go:25-41 | The map gets the new version, and the size stays the total estimate of what the map holds |
| Memtable.MemTable.Delete | internal/memtable/entry.go:43-56 | The map gets a tombstone without a value, and the size stays the total estimate |
| Memtable.MemTable.Entries | internal/memtable/entry.go:63-78 | Exactly the map's versions in strict key order, from the cache unless a key was added since |
| Memtable.SortStrings | internal/memtable/entry.go:69 | Distinct keys come out sorted, none lost and none added |
| Wal.WAL.New | internal/wal/wal.go:47-104 | The log starts as the file's bytes, or the version byte for an empty file, mapped at the file's size or 64 MiB |
| Wal.FreshReopens | internal/wal/wal.go:47-104 | A log that was closed before anything was written opens as it was, and a missing one as a new one |
| Wal.WAL.AppendRaw | internal/wal/wal.go:165-189 | The bytes go behind what was written and the mapping doubles until they fit |
| Wal.AppendedFits | internal/wal/wal.go:165-189 | An append leaves the mapping alone if the bytes fit, and else doubles it as often as they need and no more |
| Wal.WAL.AppendBatch | internal/wal/wal.go:110-113 | The log grows by the frame of the entries |
| Wal.WAL.Reset | internal/wal/wal.go:316-356 | The log is the version byte in a mapping of 64 MiB |
| Wal.WAL.Close | internal/wal/wal.go:358-383 | The file is cut to what was written |
| Wal.WAL.Replay | internal/wal/wal.go:224-314 | The nested loops return the functional replay: all batches up to the first that is short, malformed or has the wrong checksum |
| Wal.SerializeEntries | internal/wal/wal.go:385-417 | The buffer is the frame of the entries and stays within the capacity it was made with |
| Wal.UvarintSize | internal/wal/wal.go:419-429 | The loop counts the bytes of the encoding |
| Wal.VarintSize | internal/wal/wal.go:431-437 | Shift and complement on 64-bit words give the size of the zigzag encoding of every signed 64-bit number |
| WalFormat.FrameReplays | internal/wal/wal.go:234-311 | A frame replays as its entries in front of whatever follows it |
| WalFormat.CrashPrefix | internal/wal/wal.go:224-314 | Replay of any byte prefix of a log gives exactly the entries of the frames wholly inside it, with no assumption on checksums |
| WalFormat.PaddingIsInert | internal/wal/wal.go:234-311 | Any number of zero bytes behind a log changes nothing |
| WalFormat.AppendBehindZeros | internal/wal/wal.go:234-311 | Batches behind zero bytes are replayed if and only if the number of zeros is a multiple of five |
| WalFormat.ChecksumDecides | internal/wal/wal.go:234-311 | A whole batch behind any checksum is replayed if and only if the checksum is that of its body; otherwise the replay ends before it |
| WalFormat.DamageEndsReplay | internal/wal/wal.go:234-311 | A log in which one byte of a key or value has changed replays to exactly the batches before that one |
| WalFormat.KnownLog | internal/wal/wal.go:385-417 | The log of one put, byte by byte, and that it replays to that put |
| WalFormat.UnversionedReplays | internal/wal/wal.go:228-231 | A log without its version byte replays in full when its first batch does not have exactly one entry |
| WalFormat.UnversionedIsLost | internal/wal/wal.go:228-231 | The put of that known log is lost without the version byte |
| WalFormat.HugeLengthPanics | internal/wal/wal.go:251-258 | A key length of 2 to the 63 or more, whatever the checksum, makes Replay panic |
| Records.FieldsRoundTrip | internal/wal/wal.go:251-297 | The fields of an entry are read back whatever follows them |
| Records.FieldsCutShort | internal/wal/wal.go:251-297 | Any proper prefix of them is read as incomplete |
| Varint.UvarintRoundTrip | internal/wal/wal.go:403-410 | Every number below 2 to the 64 is read back from its base-128 bytes, at most ten of them |
| Varint.UvarintExact | internal/wal/wal.go:236-239 | Any bytes read as the number v of n bytes if and only if n is at most ten, exactly the last of the n is below 128, their low seven bits spell v, and v is below 2 to the 64 |
| Varint.VarintRoundTrip | internal/wal/wal.go:409-410 | Every signed 64-bit number is read back from its zigzag bytes |
| Varint.UvarintCutShort | internal/wal/wal.go:236-239 | A proper prefix of the bytes does not parse |
| Crc32.UpdateAppend | internal/sstable/sstable.go:123 | The running checksum updated with more bytes is the checksum of all of them, so Open accepts what Append summed |
| Crc32.OneByteTells | internal/sstable/sstable.go:235 | Strings that differ in exactly one byte have different checksums |
| Crc32.Residue | internal/sstable/sstable.go:112-123 | Any data followed by its checksum in four bytes has the checksum 0x2144DF1C, the residue of the polynomial of section 8 of RFC 1952 |
| Crc32.KnownChecksum | internal/sstable/sstable.go:112 | The checksum of the fields of "b" under "a" at timestamp 1 is 0x1F153652 |

## Left out

- Memory mapping, truncation, syncing, renaming and descriptors: a file is its bytes, a mapping an array; only the doubling arithmetic is kept.
- io_uring, the sync modes and the asynchronous flusher: an append counts as durable when it returns.
- Goroutines, locks and channels: each operation is one step; the background loop is one pass per step.
- Errors of input and output, and crashes in the middle of an operation: restarts happen between operations; after a panic in Close the partial file is not modelled.
- Corrupted bytes: results are for written, cut short or zero-padded bytes and, under a checksum, for one changed byte (in a log a byte of a key or value, so that the lengths stay); a panic of a slice expression on a malformed length is modelled, one of an allocation that is too large is not.
- The legacy table format: recognised and reported, not read.
- Open's defaults for the flush threshold and the number of levels: both are parameters.
- The JSON text of the manifest and the directory listing used without one: the manifest is a list of names per level.
- Traffic counters, Stats, WriteAmp, TotalDataSize, HasOverlappingLevels, FilesPerLevel and CleanupSSTables: no later step depends on them.
- The false-positive rate of the filter; its number of hash functions is computed over the reals instead of floating point.
- LevelSize takes integer powers of ten in place of the floating-point power, and unbounded products: the program's 64-bit product overflows from level 13 on.
- Go's library functions: sort.Slice, sort.Strings and container/heap are written out as the loops they stand for; the order in which a map is listed is arbitrary.
- MergeHeap.Heap.Pop: a heap item carries the number of its input where the program keeps the iterator itself.
- LsmRuns.HistoryIsVisible: the empty key is excepted, because merging drops its versions; runs with a merge that does not fit its files are not legal, because the inputs are then gone from the levels and the outputs that do not open, or the process is.
- LsmRestarts.HistorySurvivesRestarts: the same.
- LsmRuns.PutKeepsHistory: leaves out a batch whose flush panics, which takes the process down; the restart behind it is LsmRestarts.RestartKeepsHistory.
- LsmModel.Flush: a cut file that happens to spell the legacy format is not followed further, because that format is not modelled; runs with one are not legal.
- LsmShape.CompactL0Disjoint: requires exact reported ranges, because MaxKey can lie below the last key; the unconditional statement is LsmShape.CompactL0KeysOnce.
- LsmTables.FlushStored: requires a flush that fits its mapping; a failed one is LsmTables.LostStored.
- Lsm.LSM.Open: requires the files of a store that met the invariants, as every reachable store does, and as many levels as the manifest lists.
- Lsm.LSM.PutBatch: requires lengths and timestamps that fit 64 bits, and that the merge behind the flush, if there is one, fits its files; the flush itself may fail or panic.
- Lsm.LSM.Put: requires the same.
- Stores of one level: compactL0ToL1 takes level 1 for granted.
