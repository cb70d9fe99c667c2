# Monkey benchmark driver, modelled in Dafny

This project models the driver of the Monkey benchmark, `benchmarks/monkey_bench.cc`. The benchmark is written
for a LevelDB fork that adds leveled merging and per-level ("Monkey") Bloom filters. The driver does the following:

- It reads three flags from the command line: the graph number, an argument, and a Monkey switch.
- It configures the engine's options. It gives every level a capacity and every level its own number of filter
  bits per key.
- It opens the database and runs one of two scenarios:
  - **VaryNumEntries** writes ordinals 2^15 .. 2^19 − 1. At every power of two it stops for a checkpoint: a
    statistics report and a round of lookups.
  - **VaryEntrySize** writes 2^20 entries of `FLAGS_arg` bytes each.

Keys are a one-character prefix followed by the ordinal printed with `"%015d"`. Values are windows of a fixed pool
of compressible bytes, handed out round-robin.

The modules follow the pieces of the driver:

| file | module | what it holds |
|---|---|---|
| `wrappers.dfy` | `Wrappers` | `Option` and `Result` |
| `arith.dfy` | `Arith` | products keep order; Euclidean division is unique |
| `decimal.dfy` | `Decimal` | digit strings as printf's `%d` writes them and scanf's `%d` reads them |
| `bytewise.dfy` | `Bytewise` | the engine's default key order: byte-wise lexicographic, a proper prefix first |
| `payload_pool.dfy` | `PayloadPool` | `RandomGenerator`: the pool and its cursor |
| `key_buffer.dfy` | `KeyBuffer` | `KeyBuffer`: the key encoder |
| `level_planner.dfy` | `LevelPlanner` | the options, `SetupLeveling`, `SetupMonkey` and `monkey_filter_bits` |
| `flags.dfy` | `Flags` | the flag loop of `main` |
| `benchmark.dfy` | `Benchmark` | `Run`, the lookup keys of `doRead0`, and the two write loops |

The engine itself is outside the model. Opening the database is a verdict passed in (`openOk`). `Put` is an
oracle `put(key, value)` that accepts or refuses a write. Each write loop returns the sequence of writes it
issued, and its contract states:

- the key and the value of every write;
- that it stopped at the first refused write;
- for VaryNumEntries, where the checkpoints fell.

Four behaviours of the code are worth stating plainly, because a reader might expect otherwise:

- **The pool cursor.** The cursor restarts at 0 whenever a request would run past the end of the pool. It is
  not the running total of bytes served modulo the pool size: `WrapIsReset` shows an input where the two differ.
  `SlotRoundRobin` gives the actual rule: for a fixed request length L, the k-th window starts at
  (k mod ⌊|pool| / L⌋) · L.
- **Level 1's capacity.** Level 1 gets `max_file_size * size_ratio`, and level i gets
  `max_file_size * size_ratio^i`, computed in `size_t`.
- **`size_ratio`.** No ratio is rejected. The model accepts every ratio, and `LevelingIncreases` needs a ratio
  above 1 to prove that capacities grow.
- **The Monkey filter bits.** They come only from the fixed table `monkey_filter_bits`.

## Model

| member | source | states |
|---|---|---|
| PayloadPool.New | benchmarks/monkey_bench.cc:66-79 | a new generator serves from the given pool of at least 1 MiB, with its cursor at 0 |
| PayloadPool.Generate | benchmarks/monkey_bench.cc:81-88 | the request gets exactly len bytes of the pool, ending at the new cursor; the cursor advances by len, or becomes len when the request would have run past the end; the pool never changes; the source's assertion (a request that restarts must be shorter than the pool) is the precondition |
| PayloadPool.ConsecutiveWindows | benchmarks/monkey_bench.cc:81-88 | requests served without a restart hand out adjacent stretches of the pool |
| PayloadPool.WrapIsReset | benchmarks/monkey_bench.cc:82-86 | a request that would cross the end restarts at offset 0, so the cursor is not the running total modulo the pool size |
| PayloadPool.SlotInPool | benchmarks/monkey_bench.cc:82-87 | every window handed out lies inside the pool |
| PayloadPool.RepeatCursor | benchmarks/monkey_bench.cc:82-86 | after k requests of len bytes from offset 0, the cursor is at the end of the (k-1)-th window |
| PayloadPool.SlotRoundRobin | benchmarks/monkey_bench.cc:82-87 | with a fixed request length L, the k-th window starts at (k mod ⌊size / L⌋) · L: the pool is used round-robin, L bytes at a time |
| PayloadPool.KthWindow | benchmarks/monkey_bench.cc:81-88 | the k-th request of a fixed length returns the k-th round-robin window of the pool |
| KeyBuffer.New | benchmarks/monkey_bench.cc:94-98 | a new key buffer has 1024 bytes and the prefix character at the front |
| KeyBuffer.KeyBuffer.Slice | benchmarks/monkey_bench.cc:107 | slice() is the 16 characters `prefix_ + 15` from the front of the buffer, starting with the prefix; after Set(k) it is the key of k (Set's contract) |
| KeyBuffer.FormatWidth | benchmarks/monkey_bench.cc:102-105 | "%015d" of every `int` is exactly 15 characters: the zero-padded last 15 digits, or a '-' and 14 zero-padded digits of the magnitude |
| KeyBuffer.Key | benchmarks/monkey_bench.cc:102-107 | every key is 16 characters long and starts with its prefix |
| KeyBuffer.KeyDigits | benchmarks/monkey_bench.cc:102-107 | a key is its prefix followed by the zero-padded digits of the ordinal, with a '-' in front for a negative ordinal |
| KeyBuffer.Set | benchmarks/monkey_bench.cc:102-107 | after Set(k), slice() is the key of k under the buffer's prefix; the prefix is kept and the bytes beyond the terminating NUL are untouched |
| KeyBuffer.LastSetWins | benchmarks/monkey_bench.cc:102-107 | only the last Set before slice() matters |
| KeyBuffer.OrdinalOfKey | benchmarks/monkey_bench.cc:102-107 | decoding a key gives back its ordinal, for every `int` |
| KeyBuffer.KeyInjective | benchmarks/monkey_bench.cc:102-107 | two keys are equal only when their prefixes and their ordinals are equal |
| KeyBuffer.KeyOrder | benchmarks/monkey_bench.cc:102-107 | for non-negative ordinals, keys sort in the engine's byte-wise order exactly as their ordinals do (both directions) |
| KeyBuffer.LookupKeysAfterWriteKeys | benchmarks/monkey_bench.cc:138 | every 'b' lookup key sorts after, and so differs from, every 'a' write key |
| LevelPlanner.WrapIsMod | benchmarks/monkey_bench.cc:223-226 | a size_t value is the integer modulo 2^64 |
| LevelPlanner.LevelSizes | benchmarks/monkey_bench.cc:223-227 | the loop hands out a geometric sequence, in size_t: the i-th size is the start times ratio^i, modulo 2^64 |
| LevelPlanner.SetupLeveling | benchmarks/monkey_bench.cc:221-228 | leveled merging is switched on; every level i from 1 gets max_file_size * size_ratio^i modulo 2^64; level 0 and every other option are unchanged |
| LevelPlanner.LevelingExact | benchmarks/monkey_bench.cc:223-227 | when no capacity exceeds size_t, level i gets exactly max_file_size * size_ratio^i |
| LevelPlanner.LevelingIsGeometric | benchmarks/monkey_bench.cc:224-227 | each level from 1 on holds size_ratio times the level before it, as size_t multiplies, and exactly that many times when nothing overflows |
| LevelPlanner.LevelingIncreases | benchmarks/monkey_bench.cc:223-227 | with a ratio above 1, non-empty files and no overflow, deeper levels get strictly larger capacities |
| LevelPlanner.LevelingExample | benchmarks/monkey_bench.cc:221-228 | seven levels, 2 MiB files and ratio 10 give 20 MiB, 200 MiB, ... up to about 2 TB for levels 1 to 6 |
| LevelPlanner.LevelingWraps | benchmarks/monkey_bench.cc:223-226 | 4 GiB files with a ratio of 2^32 overflow size_t and give level 1 a capacity of 0 |
| LevelPlanner.MonkeyTableShape | benchmarks/monkey_bench.cc:42-48 | the table has 20 entries, all at least 1; the first twelve strictly decrease from 40 to 9; the entry for level 12 jumps back to 19 |
| LevelPlanner.SetupMonkey | benchmarks/monkey_bench.cc:230-234 | level i gets a Bloom filter of monkey_filter_bits[i] bits per key, so every level has at least one bit and the first twelve levels have strictly fewer bits the deeper they are; nothing else changes |
| Flags.ScanInt | benchmarks/monkey_bench.cc:284-287 | scanf's "%d%c" returns 1 exactly on an optional sign followed by at least one digit and nothing more; a '-' gives a number at most 0, anything else a number at least 0 |
| Flags.ScanFlag | benchmarks/monkey_bench.cc:284-287 | `sscanf(arg, "<prefix>%d%c") == 1` holds only for arguments that start with the prefix and have more after it, and the number is what scanf reads after the prefix |
| Flags.ScanFlagAfterPrefix | benchmarks/monkey_bench.cc:284-287 | for any text after a flag's prefix, the flag's number is whatever scanf reads from that text |
| Flags.Classify | benchmarks/monkey_bench.cc:284-292 | the if/else chain: "-g=<int>" wins; "-a=<int>" counts only when "-g=" does not match; "-m..." only when neither number shape matches; an argument is refused exactly when none of the three matches |
| Flags.ScanShowInt | benchmarks/monkey_bench.cc:284-287 | scanning a "%d" rendering gives back the integer, for every integer |
| Flags.ClassifyNumberFlags | benchmarks/monkey_bench.cc:284-287 | "-g=n" sets the graph number and "-a=n" sets the argument, for every integer n |
| Flags.ClassifyMonkey | benchmarks/monkey_bench.cc:288-289 | every argument that starts with "-m" switches the Monkey filters on |
| Flags.ClassifyRefuses | benchmarks/monkey_bench.cc:284-292 | a number followed by more text, a bare "-a=", and an unknown flag are refused |
| Flags.LaterGraphWins | benchmarks/monkey_bench.cc:280-285 | a later "-g=" overrides every earlier one |
| Flags.ParseArgs | benchmarks/monkey_bench.cc:280-294 | parsing succeeds exactly when no argument is refused; on failure the error names the first refused argument; the graph number and the argument come from their last occurrence, defaulting to 1; Monkey is on exactly when some argument starts with "-m" |
| Benchmark.Configure | benchmarks/monkey_bench.cc:236-246 | the options are: create if missing; leveled capacities; Monkey filters on every level whether or not the switch is on; the switch as given; a 1-bit default filter; no compression |
| Benchmark.Dispatch | benchmarks/monkey_bench.cc:254-271 | graph 0 runs VaryNumEntries, graphs 1 to 3 run VaryEntrySize, and any other graph number is an error naming it (all three directions are iffs) |
| Benchmark.Run | benchmarks/monkey_bench.cc:236-272 | a failed open ends the run before the graph number is looked at; otherwise the run succeeds exactly for graphs 0 to 3, with the configured options |
| Benchmark.LookupKeys | benchmarks/monkey_bench.cc:134-157 | doRead0 makes three rounds of 16384 lookups, one per random draw, each of the 'b' key of the draw; none of them is a key any write loop stores |
| Benchmark.KeyOfWrite | benchmarks/monkey_bench.cc:169-172 | in a run of sequential writes, the k-th write stores the 'a' key of ordinal first + k |
| Benchmark.AppendWrite | benchmarks/monkey_bench.cc:169-176 | one more write keeps the shape of the loop: keys in order, payload windows in order, and failure exactly when the last write is refused |
| Benchmark.NextWrite | benchmarks/monkey_bench.cc:171-176 | one pass of either loop appends exactly one write, the key of the next ordinal with the next round-robin payload window, and the loop has failed exactly when the engine refused it |
| Benchmark.NumEntriesStep | benchmarks/monkey_bench.cc:169-185 | one pass of the VaryNumEntries loop: a refused write leaves the checkpoints untouched, an accepted one keeps "the checkpoints are exactly the powers of two written so far" one ordinal further |
| Benchmark.CheckpointStep | benchmarks/monkey_bench.cc:178-185 | after an accepted write of ordinal i, the checkpoints so far are exactly the powers of two from 2^15 up to i, and the threshold is the next power of two |
| Benchmark.Checkpoint | benchmarks/monkey_bench.cc:178-185 | ordinal i is a checkpoint exactly when it has reached the threshold, which then doubles |
| Benchmark.CheckpointsOfRun | benchmarks/monkey_bench.cc:169-186 | wherever the loop stops (a refusal, or 2^19), the checkpoints are 2^15, 2^16, ... in order, exactly the powers of two from 2^15 up to the stop, and all four of them when the loop ran to 2^19 |
| Benchmark.CheckpointsAtEnd | benchmarks/monkey_bench.cc:165-186 | a run that writes up to 2^19 checkpoints at 2^15, 2^16, 2^17 and 2^18 |
| Benchmark.VaryNumEntries | benchmarks/monkey_bench.cc:159-187 | the loop writes ordinals 2^15 upward, each with the next payload window, and stops at the first refused write or before 2^19; the checkpoints are 2^15, 2^16, ..., exactly the accepted ordinals that are powers of two |
| Benchmark.VaryEntrySize | benchmarks/monkey_bench.cc:189-214 | the loop writes ordinals 0 upward, each with the next window of FLAGS_arg − 16 bytes, and stops at the first refused write or after 2^20 writes; afterwards the single lookup round doRead0(0) follows, refused write or not |
| Benchmark.DefaultRunUnderflows | benchmarks/monkey_bench.cc:18-21 | with no arguments, Run goes to VaryEntrySize with an entry size of −15, which reaches Generate as the size_t 2^64 − 15; for every pool of realistic size, that first request fails the assertion on line 84 |
| Benchmark.CheckedEntrySize | benchmarks/monkey_bench.cc:196 | the entry size is accepted exactly when FLAGS_arg is at least 16 and FLAGS_arg − 16 bytes can be served from every cursor of a pool of that size (the condition Generate asserts); it is then FLAGS_arg less the 16 key bytes; any other argument is an error naming it |
| Benchmark.EntrySizeUnservable | benchmarks/monkey_bench.cc:82-84 | a payload at least as long as the pool fails Generate's assertion for a generator whose cursor sits at the end of the pool |
| Benchmark.CheckedVaryEntrySize | benchmarks/monkey_bench.cc:189-214 | a run refuses exactly the arguments that give no servable entry size, before it writes anything; every other argument runs the VaryEntrySize loop with its full contract |
| Benchmark.DefaultArgRefused | benchmarks/monkey_bench.cc:21 | under the entry-size check, the default argument 1 is refused |

## Left out

- The engine is not modelled: opening, `Put`, `Get`, `GetProperty("leveldb.stats")`, `DestroyDB` and the
  destructor's cleanup. Opening is a boolean and `Put` an oracle. `Get` results, statistics reports and
  deletions are not observable in the model.
- Timing and output are not modelled: `NowMicros`, the histogram, its average and standard deviation, and every
  message printed to stdout or stderr. `std::exit(1)` becomes a `Failure` result.
- The contents of the pool are a parameter. The constructor fills it with `test::CompressibleString` pieces from a
  seeded `Random` until it holds at least 1 MiB (1048600 bytes, in 100-byte pieces). Only that lower bound is
  kept. The compressibility and `FLAGS_compression_ratio` are floating point and belong to a generator that is
  not part of this model.
- `Random rand(time(NULL))` and its draws in `doRead0` are a parameter: the sequence of draws, each a
  non-negative `int`. The generators seeded with the time in VaryNumEntries and VaryEntrySize are never used
  there.
- The bytes `snprintf` leaves alone in `KeyBuffer` are a parameter of `KeyBuffer.New`, because C leaves them
  uninitialised.
- PayloadPool.Generate: keeps the assertion on line 84 as a precondition: a request that restarts the cursor must
  be shorter than the pool. That assertion is not evaluated in a build with `NDEBUG`. Quite likely that is the only
  build the file has: the `KeyBuffer` constructor's own assertion (line 96) names `prefix`, which nothing in this
  file declares (the member is `prefix_`), so it compiles only with assertions off, unless one of the included
  headers declares `prefix`. In that build, a request exactly as long as the pool is well defined: after the restart
  it gets the whole pool. That one well-defined case is the case the precondition excludes. The cursor `pos_` is a
  C `int` but is modelled as unbounded, because it never exceeds the pool size.
- Benchmark.VaryEntrySize: requires `FLAGS_arg >= 16` and a payload shorter than the pool. A payload exactly as
  long as the pool is well defined in the code but is excluded, as for `Generate` above. Below 16, `entry_size` is
  negative and `Generate` receives it as a `size_t` close to 2^64. The slice it then returns lies outside the
  pool, which has no defined behaviour. `CheckedVaryEntrySize` refuses these arguments instead (see Findings).
- Flags.ScanInt: models scanf's `"%d%c"` only on text without leading white space and without overflow. It
  accepts an optional sign, at least one digit and nothing more. scanf would also skip leading spaces, and its
  behaviour on numbers beyond `int` is undefined. Arguments containing a NUL byte are not modelled.
- LevelPlanner.SetupMonkey: requires at most 20 levels, the length of `monkey_filter_bits`. The source reads past
  the table for more levels. `NUM_LEVELS` is the length of the options' per-level sequences, not a constant.
- Benchmark.Run: returns the options and the chosen scenario rather than running it. The two scenarios are
  modelled by `VaryNumEntries` and `VaryEntrySize`.
- Benchmark.VaryNumEntries: a checkpoint's report and its lookup round are not separate steps. The checkpoint is
  the ordinal at which they happen, and `LookupKeys` models the keys that round looks up.
- `RunBenchmark`, `FLAGS_db` and the test directory are not modelled: they do nothing or only name a path.

## Findings

| source | as written | input that shows it | evidently intended | confidence | as-written member | corrected member |
|---|---|---|---|---|---|---|
| benchmarks/monkey_bench.cc:196 | `entry_size = FLAGS_arg - 16` with no lower bound, while `FLAGS_arg` defaults to 1 and the graph number to 1 (lines 18-21) | no arguments at all: Run picks VaryEntrySize, `entry_size` is −15 and `Generate` receives 2^64 − 15 | an argument below 16 (or one giving a payload the pool cannot serve) is refused before writing, as an unknown graph number is | medium, not executed | Benchmark.DefaultRunUnderflows | Benchmark.CheckedVaryEntrySize |
