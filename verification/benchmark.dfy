/** The benchmark driver: how `Run` configures the engine and picks a
    scenario, the keys `doRead0` looks up, and the write loops of
    `VaryNumEntries` (with its doubling checkpoints) and `VaryEntrySize`.
    The engine itself is outside the model: opening is a verdict handed in,
    and `Put` is an oracle that accepts or refuses each write. */
module Benchmark {
  import opened Wrappers
  import opened Bytewise
  import KeyBuffer
  import opened PayloadPool
  import opened LevelPlanner
  import opened Flags

  /** default_filter_bits: the filter every level falls back on. */
  const DefaultFilterBits: int := 1

  /** The two measurements the graphs are made of: graph 0 grows the number
      of entries, graphs 1 to 3 vary the entry size. */
  datatype Scenario = NumEntries | EntrySize

  /** Why a run stops before it writes: the database did not open, the graph
      number is unknown, or (with the entry-size check) FLAGS_arg gives no
      usable entry size. */
  datatype RunError = OpenError | InvalidGraph(graphNum: int) | InvalidEntrySize(arg: int)

  /** The options Run opens the database with: create it if missing, the
      leveled capacities, the Monkey switch from the command line, the Monkey
      filters installed on every level whether the switch is on or not, a
      one-bit filter as the fallback, and no compression. */
  function Configure(o: Options, cfg: Config): (r: Options)
    requires o.Valid() && o.NumLevels() <= |MonkeyFilterBits|
    ensures r.Valid() && r.NumLevels() == o.NumLevels()
    ensures r.createIfMissing && r.useLeveledMerge && r.monkey == cfg.useMonkey
    ensures r.maxFileSize == o.maxFileSize && r.sizeRatio == o.sizeRatio
    ensures r.leveledFileSizes[0] == o.leveledFileSizes[0]
    ensures forall i :: 1 <= i < r.NumLevels() ==> r.leveledFileSizes[i] == Wrap(Capacity(o, i))
    ensures forall i :: 0 <= i < r.NumLevels() ==>
      r.monkeyFilterPolicies[i] == Some(BloomFilter(MonkeyFilterBits[i]))
    ensures r.filterPolicy == Some(BloomFilter(DefaultFilterBits))
    ensures r.compression == NoCompression
  {
    var created := o.(createIfMissing := true);
    assert forall i :: Capacity(created, i) == Capacity(o, i);
    var leveled := SetupLeveling(created);
    var withMonkey := SetupMonkey(leveled.(monkey := cfg.useMonkey));
    withMonkey.(filterPolicy := Some(BloomFilter(DefaultFilterBits)), compression := NoCompression)
  }

  /** Run's switch on the graph number. */
  function Dispatch(graphNum: int): (r: Result<Scenario, RunError>)
    ensures r == Success(NumEntries) <==> graphNum == 0
    ensures r == Success(EntrySize) <==> 1 <= graphNum <= 3
    ensures r.Failure? <==> (graphNum < 0 || 3 < graphNum)
    ensures r.Failure? ==> r.error == InvalidGraph(graphNum)
  {
    if graphNum == 0 then Success(NumEntries)
    else if 1 <= graphNum <= 3 then Success(EntrySize)
    else Failure(InvalidGraph(graphNum))
  }

  /** Run(): configure the options, open the database (`openOk` is the
      engine's verdict), then choose the scenario. A failed open stops the
      run before the graph number is looked at. */
  function Run(o: Options, cfg: Config, openOk: bool): (r: Result<(Options, Scenario), RunError>)
    requires o.Valid() && o.NumLevels() <= |MonkeyFilterBits|
    ensures !openOk ==> r == Failure(OpenError)
    ensures openOk ==> (r.Success? <==> 0 <= cfg.graphNum <= 3)
    ensures openOk && r.Failure? ==> r.error == InvalidGraph(cfg.graphNum)
    ensures r.Success? ==> r.value.0 == Configure(o, cfg)
    ensures r.Success? ==> (r.value.1 == NumEntries <==> cfg.graphNum == 0)
  {
    var options := Configure(o, cfg);
    if !openOk then Failure(OpenError)
    else
      match Dispatch(cfg.graphNum)
      case Success(scenario) => Success((options, scenario))
      case Failure(e) => Failure(e)
  }

  /** num_entries_lookup, and the number of timed rounds doRead0 makes. */
  const NumEntriesLookup: nat := 16 * 1024
  const ReadRounds: nat := 3

  /** The keys doRead0 looks up, in order: three rounds of num_entries_lookup
      lookups, each of the 'b' key of the next random draw. Random::Next only
      yields non-negative `int`s. None of these keys is ever written: each
      sorts after every 'a' key the write loops store. */
  function LookupKeys(draws: seq<int>, uninit: string): (keys: seq<string>)
    requires |draws| == ReadRounds * NumEntriesLookup
    requires forall i :: 0 <= i < |draws| ==> 0 <= draws[i] <= KeyBuffer.Int32Max
    requires |uninit| == KeyBuffer.BufferSize
    ensures |keys| == |draws|
    ensures forall i :: 0 <= i < |keys| ==> keys[i] == KeyBuffer.Key('b', draws[i])
    ensures forall i, j :: 0 <= i < |keys| && KeyBuffer.IsInt32(j) ==>
      Less(KeyBuffer.Key('a', j), keys[i]) && KeyBuffer.Key('a', j) != keys[i]
  {
    var key1 := KeyBuffer.New('b', uninit);
    seq(|draws|, i requires 0 <= i < |draws| => KeyBuffer.Set(key1, draws[i]).Slice())
  }

  /** One Put: the key and the value handed to the engine. */
  datatype Write = Write(key: string, value: seq<byte>)

  /** The k-th write stores the 'a' key of ordinal first + k (stated write by
      write, from the last back to the first). */
  predicate KeysFrom(writes: seq<Write>, first: int)
    decreases |writes|
  {
    || |writes| == 0
    || (&& KeysFrom(writes[..|writes| - 1], first)
        && KeyBuffer.IsInt32(first + |writes| - 1)
        && writes[|writes| - 1].key == KeyBuffer.Key('a', first + |writes| - 1))
  }

  /** KeysFrom, write by write: the k-th key is the one of ordinal first + k. */
  lemma {:induction false} KeyOfWrite(writes: seq<Write>, first: int, k: int)
    requires KeysFrom(writes, first) && 0 <= k < |writes|
    ensures KeyBuffer.IsInt32(first + k) && writes[k].key == KeyBuffer.Key('a', first + k)
  {
    if k < |writes| - 1 {
      var prefix := writes[..|writes| - 1];
      KeyOfWrite(prefix, first, k);
      assert prefix[k] == writes[k];
    }
  }

  /** The k-th write stores the k-th payload window of len bytes. */
  predicate PayloadsFrom(writes: seq<Write>, pool: seq<byte>, len: nat) {
    len < |pool| && forall k :: 0 <= k < |writes| ==> writes[k].value == RoundRobinWindow(pool, len, k)
  }

  /** Every write but the last was accepted; failed tells whether the last was refused. */
  predicate StopsAtFirstRefusal(writes: seq<Write>, put: (string, seq<byte>) -> bool, failed: bool) {
    && (forall k :: 0 <= k < |writes| - 1 ==> put(writes[k].key, writes[k].value))
    && (failed <==> 0 < |writes| && !put(writes[|writes| - 1].key, writes[|writes| - 1].value))
  }

  /** The shape of every write loop: the k-th write stores the 'a' key of
      ordinal first + k and the k-th payload window of len bytes; every write
      but the last was accepted; the loop failed exactly when the last was refused. */
  predicate SequentialWrites(writes: seq<Write>, first: int, pool: seq<byte>, len: nat,
                             put: (string, seq<byte>) -> bool, failed: bool)
  {
    KeysFrom(writes, first) && PayloadsFrom(writes, pool, len) && StopsAtFirstRefusal(writes, put, failed)
  }

  lemma AppendKey(writes: seq<Write>, first: int, w: Write)
    requires KeysFrom(writes, first)
    requires KeyBuffer.IsInt32(first + |writes|) && w.key == KeyBuffer.Key('a', first + |writes|)
    ensures KeysFrom(writes + [w], first)
  {
    assert (writes + [w])[..|writes|] == writes;
  }

  lemma AppendPayload(writes: seq<Write>, pool: seq<byte>, len: nat, w: Write)
    requires PayloadsFrom(writes, pool, len)
    requires w.value == RoundRobinWindow(pool, len, |writes|)
    ensures PayloadsFrom(writes + [w], pool, len)
  {
    var ws := writes + [w];
    forall k | 0 <= k < |ws|
      ensures ws[k].value == RoundRobinWindow(pool, len, k)
    {
      if k < |writes| {
        assert ws[k] == writes[k];
      }
    }
  }

  lemma AppendOutcome(writes: seq<Write>, put: (string, seq<byte>) -> bool, w: Write)
    requires StopsAtFirstRefusal(writes, put, false)
    ensures StopsAtFirstRefusal(writes + [w], put, !put(w.key, w.value))
  {
    var ws := writes + [w];
    forall k | 0 <= k < |ws| - 1
      ensures put(ws[k].key, ws[k].value)
    {
      assert ws[k] == writes[k];
    }
  }

  /** One more write keeps the shape: the loop has failed exactly when that
      write was refused. */
  lemma AppendWrite(writes: seq<Write>, first: int, pool: seq<byte>, len: nat,
                    put: (string, seq<byte>) -> bool, w: Write)
    requires SequentialWrites(writes, first, pool, len, put, false)
    requires KeyBuffer.IsInt32(first + |writes|) && w.key == KeyBuffer.Key('a', first + |writes|)
    requires w.value == RoundRobinWindow(pool, len, |writes|)
    ensures SequentialWrites(writes + [w], first, pool, len, put, !put(w.key, w.value))
  {
    AppendKey(writes, first, w);
    AppendPayload(writes, pool, len, w);
    AppendOutcome(writes, put, w);
  }

  /** entry_size: 1 KiB per entry, less the 16-byte key. */
  const EntrySizeBytes: nat := 1024 - 16
  /** num_entries_start and num_entries_end of VaryNumEntries: 2^15 and 2^19. */
  const NumEntriesStart: nat := 32768
  const NumEntriesEnd: nat := 524288

  /** n is a power of two. */
  predicate IsPowerOfTwo(n: nat) {
    n == 1 || (1 < n && n % 2 == 0 && IsPowerOfTwo(n / 2))
  }

  lemma {:induction false} PowerOfTwoIs(k: nat)
    ensures IsPowerOfTwo(Pow(2, k))
  {
    if k > 0 {
      PowerOfTwoIs(k - 1);
      PowPositive(2, k - 1);
      assert Pow(2, k) / 2 == Pow(2, k - 1);
    }
  }

  /** No power of two lies strictly between two consecutive ones. */
  lemma {:induction false} NoPowerOfTwoBetween(k: nat, n: nat)
    ensures Pow(2, k) < n < Pow(2, k + 1) ==> !IsPowerOfTwo(n)
  {
    if k > 0 && Pow(2, k) < n < Pow(2, k + 1) && n % 2 == 0 {
      NoPowerOfTwoBetween(k - 1, n / 2);
    }
  }

  /** The checkpoint thresholds VaryNumEntries passes through. */
  lemma Thresholds()
    ensures Pow(2, 15) == NumEntriesStart
    ensures Pow(2, 16) == 65536 && Pow(2, 17) == 131072 && Pow(2, 18) == 262144
    ensures Pow(2, 19) == NumEntriesEnd
  {
    assert Pow(2, 5) == 32;
    assert Pow(2, 10) == 1024;
  }

  /** The checkpoint state of VaryNumEntries before it writes ordinal i:
      the threshold is the least power of two at or above i (and at least
      2^15), and the checkpoints so far are exactly the powers of two below i. */
  predicate Checkpointed(checkpoints: seq<int>, threshold: int, i: int) {
    && NumEntriesStart <= i
    && |checkpoints| <= 4
    && threshold == Pow(2, 15 + |checkpoints|) && i <= threshold
    && (0 < |checkpoints| ==> Pow(2, 14 + |checkpoints|) < i)
    && (forall j :: 0 <= j < |checkpoints| ==> checkpoints[j] == Pow(2, 15 + j) && checkpoints[j] < i)
    && (forall m :: NumEntriesStart <= m < i ==> (m in checkpoints <==> IsPowerOfTwo(m)))
  }

  /** The checkpoints of a run whose accepted ordinals are those below
      `upto`: 2^15, 2^16, ... in order, all accepted, and among the accepted
      ordinals exactly the powers of two. */
  predicate ReportsPowersOfTwo(checkpoints: seq<int>, upto: int) {
    && (forall j :: 0 <= j < |checkpoints| ==> checkpoints[j] == Pow(2, 15 + j) && checkpoints[j] < upto)
    && (forall m :: NumEntriesStart <= m < upto ==> (m in checkpoints <==> IsPowerOfTwo(m)))
  }

  /** The checkpoint state read as the report of the ordinals below i. */
  lemma CheckpointsReported(checkpoints: seq<int>, threshold: int, i: int)
    requires Checkpointed(checkpoints, threshold, i)
    ensures ReportsPowersOfTwo(checkpoints, i)
  {
  }

  /** Before the first write, no checkpoint has fired and the threshold is 2^15. */
  lemma CheckpointsAtStart()
    ensures Checkpointed([], NumEntriesStart, NumEntriesStart)
  {
    Thresholds();
  }

  /** Ordinal i fires a checkpoint when it has reached the threshold, which
      then doubles; either way the state is right for ordinal i + 1. */
  lemma CheckpointStep(checkpoints: seq<int>, threshold: int, i: int)
    requires Checkpointed(checkpoints, threshold, i) && i < NumEntriesEnd
    ensures i >= threshold ==> Checkpointed(checkpoints + [i], threshold * 2, i + 1)
    ensures i < threshold ==> Checkpointed(checkpoints, threshold, i + 1)
  {
    Thresholds();
    var c := |checkpoints|;
    if i >= threshold {
      PowerOfTwoIs(15 + c);
      assert c < 4;
      var cs := checkpoints + [i];
      forall m | NumEntriesStart <= m < i + 1
        ensures m in cs <==> IsPowerOfTwo(m)
      {
        if m < i {
          assert m in cs <==> m in checkpoints;
        }
      }
    } else {
      NoPowerOfTwoBetween(14 + c, i);
    }
  }

  /** Having passed every ordinal up to 2^19, the checkpoints were 2^15 .. 2^18. */
  lemma CheckpointsAtEnd(checkpoints: seq<int>, threshold: int)
    requires Checkpointed(checkpoints, threshold, NumEntriesEnd)
    ensures checkpoints == [32768, 65536, 131072, 262144]
  {
    Thresholds();
  }

  /** Where a run of VaryNumEntries stops (at a refusal, or at 2^19), its
      checkpoints are the powers of two among the ordinals it got accepted. */
  lemma CheckpointsOfRun(checkpoints: seq<int>, threshold: int, i: int, failed: bool)
    requires Checkpointed(checkpoints, threshold, i) && (failed || i == NumEntriesEnd)
    ensures ReportsPowersOfTwo(checkpoints, i)
    ensures !failed ==> checkpoints == [32768, 65536, 131072, 262144]
  {
    CheckpointsReported(checkpoints, threshold, i);
    if !failed {
      CheckpointsAtEnd(checkpoints, threshold);
    }
  }

  /** The checkpoint test after an accepted write of ordinal i: at or above
      the threshold, record a checkpoint and double the threshold. */
  method Checkpoint(checkpoints: seq<int>, threshold: int, i: int)
    returns (checkpoints': seq<int>, threshold': int)
    requires Checkpointed(checkpoints, threshold, i) && i < NumEntriesEnd
    ensures Checkpointed(checkpoints', threshold', i + 1)
    ensures checkpoints' == if i >= threshold then checkpoints + [i] else checkpoints
  {
    CheckpointStep(checkpoints, threshold, i);
    checkpoints', threshold' := checkpoints, threshold;
    if i >= threshold {
      checkpoints', threshold' := checkpoints + [i], threshold * 2;
    }
  }

  /** One pass of either write loop: Set the key buffer to the next ordinal,
      draw the next payload window and hand both to the engine; the k-th pass
      writes ordinal first + k with the k-th window, and the loop has failed
      exactly when the engine refused that write. */
  method NextWrite(pool: seq<byte>, len: nat, put: (string, seq<byte>) -> bool, first: int,
                   gen: RandomGenerator, key0: KeyBuffer.KeyBuffer, writes: seq<Write>)
    returns (gen': RandomGenerator, key0': KeyBuffer.KeyBuffer, writes': seq<Write>, failed: bool)
    requires |pool| >= MinPoolSize && len < |pool|
    requires gen == Repeat(New(pool), len, |writes|)
    requires key0.Valid() && key0.buffer[0] == 'a' && KeyBuffer.IsInt32(first + |writes|)
    requires SequentialWrites(writes, first, pool, len, put, false)
    ensures writes' == writes + [Write(KeyBuffer.Key('a', first + |writes|), RoundRobinWindow(pool, len, |writes|))]
    ensures gen' == Repeat(New(pool), len, |writes'|)
    ensures key0'.Valid() && key0'.buffer[0] == 'a'
    ensures SequentialWrites(writes', first, pool, len, put, failed)
  {
    key0' := KeyBuffer.Set(key0, first + |writes|);
    KthWindow(New(pool), len, |writes|);
    var served := Generate(gen, len);
    gen' := served.gen;
    var w := Write(key0'.Slice(), served.bytes);
    AppendWrite(writes, first, pool, len, put, w);
    writes' := writes + [w];
    failed := !put(w.key, w.value);
  }

  /** One pass of VaryNumEntries' loop for ordinal i: write it and, if the
      engine accepts it, take the checkpoint test. A refusal leaves the
      checkpoints as they were. */
  method NumEntriesStep(pool: seq<byte>, put: (string, seq<byte>) -> bool,
                        gen: RandomGenerator, key0: KeyBuffer.KeyBuffer,
                        writes: seq<Write>, checkpoints: seq<int>, threshold: int, i: int)
    returns (gen': RandomGenerator, key0': KeyBuffer.KeyBuffer,
             writes': seq<Write>, checkpoints': seq<int>, threshold': int, failed: bool)
    requires |pool| >= MinPoolSize && i < NumEntriesEnd && |writes| == i - NumEntriesStart
    requires key0.Valid() && key0.buffer[0] == 'a'
    requires gen == Repeat(New(pool), EntrySizeBytes, |writes|)
    requires SequentialWrites(writes, NumEntriesStart, pool, EntrySizeBytes, put, false)
    requires Checkpointed(checkpoints, threshold, i)
    ensures |writes'| == |writes| + 1
    ensures key0'.Valid() && key0'.buffer[0] == 'a'
    ensures gen' == Repeat(New(pool), EntrySizeBytes, |writes'|)
    ensures SequentialWrites(writes', NumEntriesStart, pool, EntrySizeBytes, put, failed)
    ensures failed ==> checkpoints' == checkpoints && threshold' == threshold
    ensures !failed ==> Checkpointed(checkpoints', threshold', i + 1)
  {
    gen', key0', writes', failed := NextWrite(pool, EntrySizeBytes, put, NumEntriesStart, gen, key0, writes);
    checkpoints', threshold' := checkpoints, threshold;
    if !failed {
      checkpoints', threshold' := Checkpoint(checkpoints, threshold, i);
    }
  }

  /** VaryNumEntries: write the ordinals 2^15 .. 2^19 - 1 in increasing
      order, each with the next payload window, stopping at the first write
      the engine refuses. After each accepted write whose ordinal has reached
      the threshold, report and read (a checkpoint), then double the threshold.
      The checkpoints are exactly the accepted ordinals that are powers of two. */
  method VaryNumEntries(pool: seq<byte>, uninit: string, put: (string, seq<byte>) -> bool)
    returns (writes: seq<Write>, checkpoints: seq<int>, failed: bool)
    requires |pool| >= MinPoolSize && |uninit| == KeyBuffer.BufferSize
    ensures 0 < |writes| <= NumEntriesEnd - NumEntriesStart
    ensures SequentialWrites(writes, NumEntriesStart, pool, EntrySizeBytes, put, failed)
    ensures !failed ==> |writes| == NumEntriesEnd - NumEntriesStart
    ensures ReportsPowersOfTwo(checkpoints, NumEntriesStart + |writes| - (if failed then 1 else 0))
    ensures !failed ==> checkpoints == [32768, 65536, 131072, 262144]
  {
    var gen := New(pool);
    var key0 := KeyBuffer.New('a', uninit);
    var threshold := NumEntriesStart;
    writes, checkpoints, failed := [], [], false;
    var i := NumEntriesStart;
    CheckpointsAtStart();
    while i < NumEntriesEnd
      invariant NumEntriesStart <= i <= NumEntriesEnd
      invariant |writes| == i - NumEntriesStart
      invariant key0.Valid() && key0.buffer[0] == 'a'
      invariant gen == Repeat(New(pool), EntrySizeBytes, |writes|)
      invariant SequentialWrites(writes, NumEntriesStart, pool, EntrySizeBytes, put, false)
      invariant Checkpointed(checkpoints, threshold, i)
    {
      gen, key0, writes, checkpoints, threshold, failed :=
        NumEntriesStep(pool, put, gen, key0, writes, checkpoints, threshold, i);
      if failed {
        break;
      }
      i := i + 1;
    }
    CheckpointsOfRun(checkpoints, threshold, i, failed);
  }

  /** num_entries_writes of VaryEntrySize: 2^20. */
  const NumEntriesWrites: nat := 1024 * 1024

  /** VaryEntrySize: entries of FLAGS_arg bytes, 16 of them key; write the
      ordinals 0 .. 2^20 - 1 in order, each with the next payload window of
      FLAGS_arg - 16 bytes, stopping at the first write the engine refuses.
      After the loop, whether or not a write was refused, it reports the
      statistics and makes one lookup round, doRead0(0): `checkpoints` holds
      the argument of every lookup round. */
  method VaryEntrySize(arg: int, pool: seq<byte>, uninit: string, put: (string, seq<byte>) -> bool)
    returns (writes: seq<Write>, checkpoints: seq<int>, failed: bool)
    requires |pool| >= MinPoolSize && |uninit| == KeyBuffer.BufferSize
    requires 16 <= arg && arg - 16 < |pool|
    ensures 0 < |writes| <= NumEntriesWrites
    ensures SequentialWrites(writes, 0, pool, arg - 16, put, failed)
    ensures !failed ==> |writes| == NumEntriesWrites
    ensures checkpoints == [0]
  {
    var entrySize: nat := arg - 16;
    var gen := New(pool);
    var key0 := KeyBuffer.New('a', uninit);
    writes, failed := [], false;
    var i := 0;
    while i < NumEntriesWrites
      invariant 0 <= i <= NumEntriesWrites
      invariant |writes| == i
      invariant key0.Valid() && key0.buffer[0] == 'a'
      invariant gen == Repeat(New(pool), entrySize, i)
      invariant SequentialWrites(writes, 0, pool, entrySize, put, false)
    {
      gen, key0, writes, failed := NextWrite(pool, entrySize, put, 0, gen, key0, writes);
      if failed {
        break;
      }
      i := i + 1;
    }
    checkpoints := [0];
  }

  /** The entry size as VaryEntrySize computes it, `FLAGS_arg - 16`, with no
      lower bound. */
  function EntrySizeAsWritten(arg: int): int {
    arg - 16
  }

  /** With no arguments on the command line the flags keep their defaults,
      graph 1 and argument 1, and Run goes on to VaryEntrySize. There the entry
      size is -15, which Generate receives as the size_t 2^64 - 15: far more
      than any pool, so the very first request cannot be served. */
  lemma DefaultRunUnderflows(o: Options)
    requires o.Valid() && o.NumLevels() <= |MonkeyFilterBits|
    ensures Run(o, Defaults, true) == Success((Configure(o, Defaults), EntrySize))
    ensures EntrySizeAsWritten(Defaults.arg) == -15
    ensures Wrap(EntrySizeAsWritten(Defaults.arg)) == SizeLimit - 15
    ensures forall pool: seq<byte> :: MinPoolSize <= |pool| < SizeLimit - 15 ==>
      !CanServe(New(pool), Wrap(EntrySizeAsWritten(Defaults.arg)))
  {
  }

  /** The entry size VaryEntrySize can use: FLAGS_arg less the 16 key bytes,
      refused unless that is a size the pool can serve round-robin. */
  function CheckedEntrySize(arg: int, poolSize: nat): (r: Result<nat, RunError>)
    requires 1 <= poolSize
    ensures r.Success? <==> 16 <= arg && forall g: RandomGenerator ::
      g.Valid() && |g.data| == poolSize ==> CanServe(g, arg - 16)
    ensures r.Success? ==> r.value + 16 == arg
    ensures r.Failure? ==> r.error == InvalidEntrySize(arg)
  {
    if 16 <= arg && arg - 16 < poolSize then Success(arg - 16)
    else
      EntrySizeUnservable(arg, poolSize);
      Failure(InvalidEntrySize(arg))
  }

  /** A payload at least as long as the pool cannot be served from every
      cursor: not from one at the very end of the pool. */
  lemma EntrySizeUnservable(arg: int, poolSize: nat)
    requires 1 <= poolSize
    ensures 16 <= arg && poolSize <= arg - 16 ==>
      exists g: RandomGenerator :: g.Valid() && |g.data| == poolSize && !CanServe(g, arg - 16)
  {
    if 16 <= arg && poolSize <= arg - 16 {
      var g := RandomGenerator(seq(poolSize, _ => 0), poolSize);
      assert g.Valid() && |g.data| == poolSize && !CanServe(g, arg - 16);
    }
  }

  /** VaryEntrySize behind the entry-size check: an argument that gives no
      servable size is refused before anything is written, the way Run
      refuses an unknown graph number; any other runs the loop. */
  method CheckedVaryEntrySize(arg: int, pool: seq<byte>, uninit: string, put: (string, seq<byte>) -> bool)
    returns (r: Result<(seq<Write>, seq<int>, bool), RunError>)
    requires |pool| >= MinPoolSize && |uninit| == KeyBuffer.BufferSize
    ensures r.Failure? <==> arg < 16 || |pool| <= arg - 16
    ensures r.Failure? ==> r.error == InvalidEntrySize(arg)
    ensures r.Success? ==> 0 < |r.value.0| <= NumEntriesWrites && r.value.1 == [0]
    ensures r.Success? ==> SequentialWrites(r.value.0, 0, pool, arg - 16, put, r.value.2)
  {
    match CheckedEntrySize(arg, |pool|)
    case Failure(e) =>
      r := Failure(e);
    case Success(_) =>
      var writes, checkpoints, failed := VaryEntrySize(arg, pool, uninit, put);
      r := Success((writes, checkpoints, failed));
  }

  /** With the check in place, the default argument 1 is refused rather than
      turned into a negative size. */
  lemma DefaultArgRefused(poolSize: nat)
    requires 1 <= poolSize
    ensures CheckedEntrySize(Defaults.arg, poolSize) == Failure(InvalidEntrySize(1))
  {
  }
}
