/** The two-level kernel cache: a memory map over one file per entry, written to a temporary name,
    synced and renamed (crates/atomr-accel-cuda/src/nvrtc_cache.rs). */
module NvrtcCache {
  import opened Wrappers
  import opened Bytes
  import opened Text

  datatype Key = Key(sourceHash: u64, arch: u32, optionsHash: u64)

  datatype Kernel = Kernel(ptx: seq<byte>, cubin: Option<seq<byte>>, version: string)

  /** `CARGO_PKG_VERSION`. */
  const VERSION := "0.10.0"

  /** The serializer, of which only the round trip matters. */
  datatype Codec = Codec(enc: Kernel -> seq<byte>, dec: seq<byte> -> Option<Kernel>)

  ghost predicate RoundTrips(c: Codec) {
    forall v :: c.dec(c.enc(v)) == Some(v)
  }

  // ----- file names -----

  function Stem(k: Key): string {
    Hex(k.sourceHash, 16) + ("-" + (Decimal(k.arch) + ("-" + Hex(k.optionsHash, 16))))
  }

  function EntryPath(k: Key): string {
    Stem(k) + ".bin"
  }

  /** `with_extension("bin.tmp")`. */
  function TmpPath(k: Key): string {
    Stem(k) + ".bin.tmp"
  }

  lemma Sixteen()
    ensures Pow16(16) == 0x1_0000_0000_0000_0000
  {
    assert Pow16(4) == 0x1_0000;
    assert Pow16(8) == 0x1_0000_0000;
    assert Pow16(12) == 0x1_0000_0000_0000;
  }

  lemma StemInjective(a: Key, b: Key)
    requires Stem(a) == Stem(b)
    ensures a == b
  {
    Sixteen();
    HexLength(a.sourceHash, 16);
    HexLength(b.sourceHash, 16);
    var (ra, rb) := ("-" + Hex(a.optionsHash, 16), "-" + Hex(b.optionsHash, 16));
    var (ta, tb) := ("-" + (Decimal(a.arch) + ra), "-" + (Decimal(b.arch) + rb));
    assert Stem(a)[..16] == Hex(a.sourceHash, 16) && Stem(b)[..16] == Hex(b.sourceHash, 16);
    assert Stem(a)[16..] == ta && Stem(b)[16..] == tb;
    HexInjective(a.sourceHash, b.sourceHash, 16);
    assert ta[1..] == Decimal(a.arch) + ra && tb[1..] == Decimal(b.arch) + rb;
    DecimalInjective(a.arch, b.arch, ra, rb);
    assert ra[1..] == Hex(a.optionsHash, 16) && rb[1..] == Hex(b.optionsHash, 16);
    HexInjective(a.optionsHash, b.optionsHash, 16);
  }

  lemma CutEnd(a: string, b: string, ending: string)
    requires a + ending == b + ending
    ensures a == b
  {
    assert |a| == |b|;
    assert (a + ending)[..|a|] == a && (b + ending)[..|b|] == b;
  }

  /** Different keys have different entry files and different temporary files, and no temporary file
      is ever an entry file. */
  lemma PathsInjective(a: Key, b: Key)
    ensures EntryPath(a) == EntryPath(b) <==> a == b
    ensures TmpPath(a) == TmpPath(b) <==> a == b
    ensures TmpPath(a) != EntryPath(b)
  {
    if EntryPath(a) == EntryPath(b) {
      CutEnd(Stem(a), Stem(b), ".bin");
      StemInjective(a, b);
    }
    if TmpPath(a) == TmpPath(b) {
      CutEnd(Stem(a), Stem(b), ".bin.tmp");
      StemInjective(a, b);
    }
    assert TmpPath(a)[|TmpPath(a)| - 1] == 'p' && EntryPath(b)[|EntryPath(b)| - 1] == 'n';
  }

  /** One file name spelt out. */
  lemma KnownPath()
    ensures EntryPath(Key(0x1f, 90, 0xab)) ==
            ("000000000000001f" + ("-" + ("90" + ("-" + "00000000000000ab")))) + ".bin"
  {
    assert Decimal(9) == "9" && Decimal(90) == "90";
    HexZeros(14);
    assert Hex(0x1f, 16) == (Hex(0, 14) + [Digit(1)]) + [Digit(15)];
    assert Hex(0xab, 16) == (Hex(0, 14) + [Digit(10)]) + [Digit(11)];
    assert Hex(0x1f, 16) == "000000000000001f";
    assert Hex(0xab, 16) == "00000000000000ab";
  }

  lemma {:induction false} HexZeros(n: nat)
    ensures Hex(0, n) == seq(n, _ => '0')
  {
    if n > 0 {
      HexZeros(n - 1);
    }
  }

  // ----- the disk -----

  /** `synced`: the content has reached stable storage. */
  datatype File = File(content: seq<byte>, synced: bool)

  type Disk = map<string, File>

  /** What a cold lookup sees. */
  function Visible(c: Codec, d: Disk, k: Key): Option<Kernel> {
    if EntryPath(k) !in d then None
    else match c.dec(d[EntryPath(k)].content)
      case None => None
      case Some(v) => if v.version == VERSION then Some(v) else None
  }

  /** Every entry file is on stable storage. */
  ghost predicate Settled(d: Disk) {
    forall k :: EntryPath(k) in d ==> d[EntryPath(k)].synced
  }

  /** A crash keeps synced files; unsynced ones vanish or hold anything. No file appears. */
  ghost predicate Crash(d: Disk, d': Disk) {
    && d'.Keys <= d.Keys
    && (forall p :: p in d && d[p].synced ==> p in d' && d'[p].content == d[p].content)
    && (forall p :: p in d' ==> d'[p].synced)
  }

  /** The disk between any two steps of an insert of `bytes`, completed or not: untouched, a temporary file with
      some prefix written (synced only once complete), the temporary file gone again, or renamed into place. */
  ghost predicate Passes(d0: Disk, k: Key, bytes: seq<byte>, d: Disk) {
    || d == d0
    || (exists n, synced :: 0 <= n <= |bytes| && (synced ==> n == |bytes|) && d == d0[TmpPath(k) := File(bytes[..n], synced)])
    || d == d0 - {TmpPath(k)}
    || d == Renamed(d0, k, bytes)
  }

  function Renamed(d0: Disk, k: Key, bytes: seq<byte>): Disk {
    (d0 - {TmpPath(k)})[EntryPath(k) := File(bytes, true)]
  }

  /** What the entry of a key holds once `v` has been renamed into place. */
  function Stored(v: Kernel): Option<Kernel> {
    if v.version == VERSION then Some(v) else None
  }

  /** No step before the rename shows anywhere, and the rename shows only under its own key. */
  lemma PassesVisible(c: Codec, d0: Disk, k: Key, v: Kernel, d: Disk, k': Key)
    requires RoundTrips(c) && Passes(d0, k, c.enc(v), d)
    ensures d != Renamed(d0, k, c.enc(v)) ==> Visible(c, d, k') == Visible(c, d0, k')
    ensures Visible(c, Renamed(d0, k, c.enc(v)), k') == if k' == k then Stored(v) else Visible(c, d0, k')
    ensures EntryPath(k') in d ==> d[EntryPath(k')].synced || (EntryPath(k') in d0 && d[EntryPath(k')] == d0[EntryPath(k')])
  {
    PathsInjective(k, k');
  }

  lemma CrashKeepsVisible(c: Codec, d: Disk, d': Disk, k: Key)
    requires Settled(d) && Crash(d, d')
    ensures Visible(c, d', k) == Visible(c, d, k) && Settled(d')
  {}

  /** A crash that interrupts an insert of `bytes` at disk `d`. As the directory is not synced, it may also undo
      a rename just made. */
  ghost predicate CrashDuring(d0: Disk, k: Key, bytes: seq<byte>, d: Disk, d': Disk) {
    && Passes(d0, k, bytes, d)
    && (Crash(d, d') || (d == Renamed(d0, k, bytes) && Crash(BeforeRename(d0, k, bytes), d')))
  }

  function BeforeRename(d0: Disk, k: Key, bytes: seq<byte>): Disk {
    d0[TmpPath(k) := File(bytes, true)]
  }

  /** Crash atomicity: after a crash between any two steps of an insert, the entry holds its complete old value
      or, if the rename was reached, its complete new one; every other entry is untouched, and the store is
      settled again. */
  lemma CrashAtomic(c: Codec, d0: Disk, k: Key, v: Kernel, d: Disk, d': Disk)
    requires RoundTrips(c) && Settled(d0) && CrashDuring(d0, k, c.enc(v), d, d')
    ensures Settled(d')
    ensures forall k' :: k' != k ==> Visible(c, d', k') == Visible(c, d0, k')
    ensures Visible(c, d', k) == Visible(c, d0, k) ||
            (d == Renamed(d0, k, c.enc(v)) && Visible(c, d', k) == Stored(v))
  {
    var bytes := c.enc(v);
    if Crash(d, d') {
      CrashAt(c, d0, k, v, d, d');
    } else {
      var e := BeforeRename(d0, k, bytes);
      assert bytes[..|bytes|] == bytes;
      assert Passes(d0, k, bytes, e);
      CrashAt(c, d0, k, v, e, d');
    }
  }

  /** The case that every rename made before the crash lasts. */
  lemma CrashAt(c: Codec, d0: Disk, k: Key, v: Kernel, d: Disk, d': Disk)
    requires RoundTrips(c) && Settled(d0) && Passes(d0, k, c.enc(v), d) && Crash(d, d')
    ensures Settled(d')
    ensures forall k' :: k' != k ==> Visible(c, d', k') == Visible(c, d0, k')
    ensures Visible(c, d', k) == (if d == Renamed(d0, k, c.enc(v)) then Stored(v) else Visible(c, d0, k))
  {
    forall k' ensures EntryPath(k') in d ==> d[EntryPath(k')].synced {
      PassesVisible(c, d0, k, v, d, k');
    }
    forall k' ensures Visible(c, d', k') == Visible(c, d, k') {
      CrashKeepsVisible(c, d, d', k');
    }
    forall k' ensures Visible(c, d, k') ==
                      if d == Renamed(d0, k, c.enc(v)) && k' == k then Stored(v) else Visible(c, d0, k') {
      PassesVisible(c, d0, k, v, d, k');
    }
  }

  /** The sync before the rename is what makes this work: without it a crash can lose both values. */
  lemma RenameWithoutSyncIsNotAtomic(c: Codec, d0: Disk, k: Key, v: Kernel, junk: seq<byte>) returns (d': Disk)
    requires c.dec(junk) == None && Settled(d0) && Visible(c, d0, k).Some? && v.version == VERSION
    requires forall p :: p in d0 ==> d0[p].synced
    ensures Crash((d0 - {TmpPath(k)})[EntryPath(k) := File(c.enc(v), false)], d')
    ensures Visible(c, d', k) == None
  {
    PathsInjective(k, k);
    d' := (d0 - {TmpPath(k)})[EntryPath(k) := File(junk, true)];
  }

  // ----- the two levels together -----

  datatype State = State(memory: map<Key, Kernel>, disk: Disk)

  /** Memory only repeats what the disk shows. */
  ghost predicate Coherent(c: Codec, s: State) {
    forall k :: k in s.memory ==> Visible(c, s.disk, k) == Some(s.memory[k])
  }

  ghost predicate Inv(c: Codec, s: State) {
    Settled(s.disk) && Coherent(c, s)
  }

  /** The answer a lookup gives. */
  function Shown(c: Codec, s: State, k: Key): Option<Kernel> {
    if k in s.memory then Some(s.memory[k]) else Visible(c, s.disk, k)
  }

  /** Which system call of an insert fails, if any. */
  datatype Fault = NoFault | CreateFails | WriteFails(written: nat) | SyncFails | RenameFails

  function Get(c: Codec, s: State, k: Key): (State, Option<Kernel>) {
    var r := Shown(c, s, k);
    (if k !in s.memory && r.Some? then s.(memory := s.memory[k := r.value]) else s, r)
  }

  /** How many bytes reach the temporary file before a write fails, if one does. */
  function Written(bytes: seq<byte>, f: Fault): nat {
    if f.WriteFails? && f.written <= |bytes| then f.written else |bytes|
  }

  /** The disk after an insert; a failed rename removes the temporary file. */
  function DiskAfter(d: Disk, k: Key, bytes: seq<byte>, f: Fault): Disk {
    match f
    case NoFault => Renamed(d, k, bytes)
    case CreateFails => d
    case WriteFails(_) => d[TmpPath(k) := File(bytes[..Written(bytes, f)], false)]
    case SyncFails => d[TmpPath(k) := File(bytes, false)]
    case RenameFails => d - {TmpPath(k)}
  }

  /** The flag is true for `Ok`. */
  function Insert(c: Codec, s: State, k: Key, v: Kernel, f: Fault): (State, bool) {
    var disk := DiskAfter(s.disk, k, c.enc(v), f);
    if f.NoFault? then (State(s.memory[k := v], disk), true) else (State(s.memory, disk), false)
  }

  function Clear(s: State): State {
    State(map[], s.disk)
  }

  /** A lookup, with its promotion into memory, changes no answer and reports what the disk holds. */
  lemma GetChangesNothing(c: Codec, s: State, k: Key)
    requires Inv(c, s)
    ensures Inv(c, Get(c, s, k).0) && Get(c, s, k).0.disk == s.disk
    ensures Get(c, s, k).1 == Visible(c, s.disk, k)
    ensures forall k' :: Shown(c, Get(c, s, k).0, k') == Shown(c, s, k')
  {}

  /** Dropping the memory level changes no answer. */
  lemma ClearChangesNothing(c: Codec, s: State)
    requires Inv(c, s)
    ensures Inv(c, Clear(s)) && forall k :: Shown(c, Clear(s), k) == Shown(c, s, k)
  {}

  /** What was found or inserted once is answered from memory, whatever becomes of the disk; without memory and
      without the file nothing is found. */
  lemma MemoryServes(c: Codec, s: State, k: Key, v: Kernel, gone: Disk)
    ensures Get(c, s, k).1.Some? ==> Get(c, Get(c, s, k).0.(disk := gone), k).1 == Get(c, s, k).1
    ensures Get(c, Insert(c, s, k, v, NoFault).0.(disk := gone), k).1 == Some(v)
    ensures EntryPath(k) !in gone ==> Get(c, Clear(s).(disk := gone), k).1 == None
  {}

  lemma DiskAfterPasses(d: Disk, k: Key, bytes: seq<byte>, f: Fault)
    ensures Passes(d, k, bytes, DiskAfter(d, k, bytes, f))
    ensures Settled(d) ==> Settled(DiskAfter(d, k, bytes, f))
  {
    assert bytes[..|bytes|] == bytes;
    forall k' ensures TmpPath(k) != EntryPath(k') {
      PathsInjective(k, k');
    }
  }

  lemma NotRenamed(c: Codec, d: Disk, k: Key, v: Kernel, f: Fault, k': Key)
    requires RoundTrips(c)
    ensures Visible(c, DiskAfter(d, k, c.enc(v), f), k') ==
            if f.NoFault? && k' == k then Stored(v) else Visible(c, d, k')
  {
    PathsInjective(k, k');
  }

  /** A successful insert of a kernel stamped with the current version sets exactly its own entry;
      a failed one changes no answer. */
  lemma InsertSetsOneEntry(c: Codec, s: State, k: Key, v: Kernel, f: Fault)
    requires RoundTrips(c) && Inv(c, s) && v.version == VERSION
    ensures var (s', ok) := Insert(c, s, k, v, f);
            && Inv(c, s') && (ok <==> f == NoFault)
            && forall k' :: Shown(c, s', k') == if ok && k' == k then Some(v) else Shown(c, s, k')
  {
    DiskAfterPasses(s.disk, k, c.enc(v), f);
    forall k' ensures Visible(c, DiskAfter(s.disk, k, c.enc(v), f), k') ==
                      if f.NoFault? && k' == k then Stored(v) else Visible(c, s.disk, k') {
      NotRenamed(c, s.disk, k, v, f, k');
    }
  }

  /** The stamp is needed: inserting a kernel with another version leaves memory and disk telling different
      stories, and the answer to a lookup then depends on whether the memory level was dropped. */
  lemma InsertCoherentIffCurrent(c: Codec, s: State, k: Key, v: Kernel)
    requires RoundTrips(c) && Inv(c, s)
    ensures var s' := Insert(c, s, k, v, NoFault).0;
            && (Coherent(c, s') <==> v.version == VERSION)
            && Shown(c, s', k) == Some(v)
            && Shown(c, Clear(s'), k) == Stored(v)
  {
    forall k' ensures Visible(c, Renamed(s.disk, k, c.enc(v)), k') ==
                      if k' == k then Stored(v) else Visible(c, s.disk, k') {
      NotRenamed(c, s.disk, k, v, NoFault, k');
    }
    assert k in Insert(c, s, k, v, NoFault).0.memory;
  }

  // ----- whole runs -----

  datatype Op =
    | GetOp(key: Key)
    | InsertOp(key: Key, value: Kernel, fault: Fault)
    | ClearOp
    | CrashOp(key: Key, value: Kernel, at: Disk, left: Disk)

  /** One event of the real store. A crash stops an insert at disk `at`, leaves disk `left` and an empty memory. */
  ghost predicate Next(c: Codec, s: State, op: Op, s': State, reply: Option<Kernel>) {
    match op
    case GetOp(k) => (s', reply) == Get(c, s, k)
    case InsertOp(k, v, f) => v.version == VERSION && s' == Insert(c, s, k, v, f).0 && reply == None
    case ClearOp => s' == Clear(s) && reply == None
    case CrashOp(k, v, at, left) =>
      v.version == VERSION && CrashDuring(s.disk, k, c.enc(v), at, left) && s' == State(map[], left) && reply == None
  }

  function Lookup(m: map<Key, Kernel>, k: Key): Option<Kernel> {
    if k in m then Some(m[k]) else None
  }

  /** The same event on a plain map: an insert that a crash cuts off has happened completely or not at all. */
  ghost predicate MapNext(m: map<Key, Kernel>, op: Op, m': map<Key, Kernel>, reply: Option<Kernel>) {
    match op
    case GetOp(k) => m' == m && reply == Lookup(m, k)
    case InsertOp(k, v, f) => m' == (if f == NoFault then m[k := v] else m) && reply == None
    case ClearOp => m' == m && reply == None
    case CrashOp(k, v, _, _) => (m' == m || m' == m[k := v]) && reply == None
  }

  ghost predicate Represents(c: Codec, s: State, m: map<Key, Kernel>) {
    Inv(c, s) && forall k :: Shown(c, s, k) == Lookup(m, k)
  }

  lemma StepRefines(c: Codec, s: State, op: Op, s': State, reply: Option<Kernel>, m: map<Key, Kernel>)
    returns (m': map<Key, Kernel>)
    requires RoundTrips(c) && Represents(c, s, m) && Next(c, s, op, s', reply)
    ensures MapNext(m, op, m', reply) && Represents(c, s', m')
  {
    match op
    case GetOp(k) =>
      m' := m;
      GetChangesNothing(c, s, k);
    case InsertOp(k, v, f) =>
      m' := if f == NoFault then m[k := v] else m;
      InsertSetsOneEntry(c, s, k, v, f);
    case ClearOp =>
      m' := m;
      ClearChangesNothing(c, s);
    case CrashOp(k, v, at, left) =>
      m' := CrashRefines(c, s, k, v, at, left, m);
  }

  lemma CrashRefines(c: Codec, s: State, k: Key, v: Kernel, at: Disk, left: Disk, m: map<Key, Kernel>)
    returns (m': map<Key, Kernel>)
    requires RoundTrips(c) && Represents(c, s, m) && v.version == VERSION
    requires CrashDuring(s.disk, k, c.enc(v), at, left)
    ensures (m' == m || m' == m[k := v]) && Represents(c, State(map[], left), m')
  {
    CrashAtomic(c, s.disk, k, v, at, left);
    m' := if Visible(c, left, k) == Visible(c, s.disk, k) then m else m[k := v];
    forall k' ensures Shown(c, State(map[], left), k') == Lookup(m', k') {
      assert Visible(c, s.disk, k') == Shown(c, s, k') == Lookup(m, k');
    }
  }

  /** What opening a directory shows, as a map: the entries under the given paths. */
  lemma {:induction false} Opened(c: Codec, d: Disk, paths: set<string>) returns (m: map<Key, Kernel>)
    ensures forall k :: Lookup(m, k) == if EntryPath(k) in paths then Visible(c, d, k) else None
    decreases |paths|
  {
    if paths == {} {
      m := map[];
    } else {
      var p :| p in paths;
      m := Opened(c, d, paths - {p});
      if k :| EntryPath(k) == p && Visible(c, d, k).Some? {
        m := m[k := Visible(c, d, k).value];
        forall k' ensures EntryPath(k') == p <==> k' == k {
          PathsInjective(k, k');
        }
      }
    }
  }

  /** A run starts with nothing in memory, on whatever files the directory holds. */
  ghost predicate IsRun(c: Codec, states: seq<State>, ops: seq<Op>, replies: seq<Option<Kernel>>) {
    && |states| == |ops| + 1 && |replies| == |ops|
    && states[0].memory == map[] && Settled(states[0].disk)
    && forall i :: 0 <= i < |ops| ==> Next(c, states[i], ops[i], states[i + 1], replies[i])
  }

  /** Every run of the two-level store on any directory, with failing system calls, dropped memory and crashes in
      the middle of inserts, gives the replies of a run of the plain map that the directory shows at the start. */
  lemma {:induction false} StoreRefinesMap(c: Codec, states: seq<State>, ops: seq<Op>, replies: seq<Option<Kernel>>)
    returns (maps: seq<map<Key, Kernel>>)
    requires RoundTrips(c) && IsRun(c, states, ops, replies)
    ensures |maps| == |ops| + 1 && Represents(c, states[0], maps[0])
    ensures forall i :: 0 <= i < |ops| ==> MapNext(maps[i], ops[i], maps[i + 1], replies[i])
    ensures Represents(c, states[|ops|], maps[|ops|])
    decreases |ops|
  {
    if ops == [] {
      var m0 := Opened(c, states[0].disk, states[0].disk.Keys);
      maps := [m0];
    } else {
      var n := |ops| - 1;
      var before := StoreRefinesMap(c, states[..n + 1], ops[..n], replies[..n]);
      assert Next(c, states[n], ops[n], states[n + 1], replies[n]);
      var m' := StepRefines(c, states[n], ops[n], states[n + 1], replies[n], before[n]);
      maps := before + [m'];
      forall i | 0 <= i < |ops| ensures MapNext(maps[i], ops[i], maps[i + 1], replies[i]) {
        if i < n {
          assert MapNext(before[i], ops[..n][i], before[i + 1], replies[..n][i]);
        }
      }
    }
  }

  // ----- lookups that other threads interrupt -----

  /** The store with the lookups that have read an entry from disk and not yet put it into memory. */
  datatype Busy = Busy(store: State, reading: map<nat, (Key, Kernel)>)

  /** `Read` and `Promote` are the two halves of a lookup that misses in memory, on a thread of its own. */
  datatype BusyOp = Whole(op: Op) | Read(id: nat, key: Key) | Promote(id: nat)

  ghost predicate BusyNext(c: Codec, b: Busy, op: BusyOp, b': Busy, reply: Option<Kernel>) {
    match op
    case Whole(o) =>
      Next(c, b.store, o, b'.store, reply) && b'.reading == if o.CrashOp? then map[] else b.reading
    case Read(id, k) =>
      && id !in b.reading && k !in b.store.memory && reply == Visible(c, b.store.disk, k)
      && b' == b.(reading := if reply.Some? then b.reading[id := (k, reply.value)] else b.reading)
    case Promote(id) =>
      && id in b.reading && reply == None
      && b' == Busy(Promoted(b.store, b.reading[id].0, b.reading[id].1), b.reading - {id})
  }

  function Promoted(s: State, k: Key, v: Kernel): State {
    s.(memory := s.memory[k := v])
  }

  /** No insert of another kernel under a key that a lookup is in the middle of reading. */
  ghost predicate Undisturbed(b: Busy, op: BusyOp) {
    op.Whole? && op.op.InsertOp? && op.op.fault.NoFault? ==>
      forall id :: id in b.reading && b.reading[id].0 == op.op.key ==> b.reading[id].1 == op.op.value
  }

  /** Lookups in progress hold what the disk still shows. */
  ghost predicate BusyRepresents(c: Codec, b: Busy, m: map<Key, Kernel>) {
    && Represents(c, b.store, m)
    && forall id :: id in b.reading ==> Visible(c, b.store.disk, b.reading[id].0) == Some(b.reading[id].1)
  }

  /** On the map an interrupted lookup happens when it reads, and its promotion is nothing at all. */
  ghost predicate BusyMapNext(m: map<Key, Kernel>, op: BusyOp, m': map<Key, Kernel>, reply: Option<Kernel>) {
    match op
    case Whole(o) => MapNext(m, o, m', reply)
    case Read(_, k) => m' == m && reply == Lookup(m, k)
    case Promote(_) => m' == m && reply == None
  }

  lemma DiskUntouchedElsewhere(c: Codec, s: State, op: Op, s': State, reply: Option<Kernel>, k: Key)
    requires RoundTrips(c) && Inv(c, s) && Next(c, s, op, s', reply) && !op.CrashOp?
    ensures Visible(c, s'.disk, k) ==
            if op.InsertOp? && op.fault.NoFault? && op.key == k then Some(op.value) else Visible(c, s.disk, k)
  {
    match op
    case InsertOp(k', v, f) => NotRenamed(c, s.disk, k', v, f, k);
    case _ =>
  }

  lemma BusyStepRefines(c: Codec, b: Busy, op: BusyOp, b': Busy, reply: Option<Kernel>, m: map<Key, Kernel>)
    returns (m': map<Key, Kernel>)
    requires RoundTrips(c) && BusyRepresents(c, b, m) && BusyNext(c, b, op, b', reply) && Undisturbed(b, op)
    ensures BusyMapNext(m, op, m', reply) && BusyRepresents(c, b', m')
  {
    m' := m;
    match op
    case Whole(o) =>
      m' := StepRefines(c, b.store, o, b'.store, reply, m);
      forall id | id in b'.reading
        ensures Visible(c, b'.store.disk, b'.reading[id].0) == Some(b'.reading[id].1)
      {
        DiskUntouchedElsewhere(c, b.store, o, b'.store, reply, b.reading[id].0);
      }
    case Read(id, k) =>
      assert Shown(c, b.store, k) == Lookup(m, k);
    case Promote(id) =>
      PromotionIff(c, b.store, b.reading[id].0, b.reading[id].1);
  }

  /** A promotion that comes late changes no answer and keeps the two levels in step exactly if the disk still shows
      what the lookup read. */
  lemma PromotionIff(c: Codec, s: State, k: Key, read: Kernel)
    requires Inv(c, s)
    ensures Inv(c, Promoted(s, k, read)) <==> Visible(c, s.disk, k) == Some(read)
    ensures (forall k' :: Shown(c, Promoted(s, k, read), k') == Shown(c, s, k')) <==> Visible(c, s.disk, k) == Some(read)
  {
    var s' := Promoted(s, k, read);
    assert s'.memory[k] == read && Shown(c, s', k) == Some(read);
    assert Shown(c, s, k) == Visible(c, s.disk, k);
  }

  /** Otherwise it undoes an insert, but only in memory: an insert of `v` that finishes between the two halves of a
      lookup that read another kernel is forgotten until the memory level is dropped. */
  lemma LatePromotionForgets(c: Codec, s: State, k: Key, read: Kernel, v: Kernel)
    requires RoundTrips(c) && Inv(c, s) && Visible(c, s.disk, k) == Some(read) && v.version == VERSION
    ensures var late := Promoted(Insert(c, s, k, v, NoFault).0, k, read);
            && (Inv(c, late) <==> v == read)
            && Shown(c, late, k) == Some(read) && Shown(c, Clear(late), k) == Some(v)
  {
    InsertSetsOneEntry(c, s, k, v, NoFault);
    NotRenamed(c, s.disk, k, v, NoFault, k);
    PromotionIff(c, Insert(c, s, k, v, NoFault).0, k, read);
    assert k in Promoted(Insert(c, s, k, v, NoFault).0, k, read).memory;
  }

  ghost predicate IsBusyRun(c: Codec, bs: seq<Busy>, ops: seq<BusyOp>, replies: seq<Option<Kernel>>) {
    && |bs| == |ops| + 1 && |replies| == |ops|
    && bs[0].store.memory == map[] && bs[0].reading == map[] && Settled(bs[0].store.disk)
    && forall i :: 0 <= i < |ops| ==> BusyNext(c, bs[i], ops[i], bs[i + 1], replies[i])
  }

  /** Lookups on other threads may be interrupted anywhere between their two halves: as long as no other kernel is
      inserted under a key just being read, the replies are still those of a run of a plain map. */
  lemma {:induction false} BusyStoreRefinesMap(c: Codec, bs: seq<Busy>, ops: seq<BusyOp>, replies: seq<Option<Kernel>>)
    returns (maps: seq<map<Key, Kernel>>)
    requires RoundTrips(c) && IsBusyRun(c, bs, ops, replies)
    requires forall i :: 0 <= i < |ops| ==> Undisturbed(bs[i], ops[i])
    ensures |maps| == |ops| + 1 && BusyRepresents(c, bs[0], maps[0])
    ensures forall i :: 0 <= i < |ops| ==> BusyMapNext(maps[i], ops[i], maps[i + 1], replies[i])
    ensures BusyRepresents(c, bs[|ops|], maps[|ops|])
    decreases |ops|
  {
    if ops == [] {
      var m0 := Opened(c, bs[0].store.disk, bs[0].store.disk.Keys);
      maps := [m0];
    } else {
      var n := |ops| - 1;
      var before := BusyStoreRefinesMap(c, bs[..n + 1], ops[..n], replies[..n]);
      assert BusyNext(c, bs[n], ops[n], bs[n + 1], replies[n]);
      var m' := BusyStepRefines(c, bs[n], ops[n], bs[n + 1], replies[n], before[n]);
      maps := before + [m'];
      forall i | 0 <= i < |ops| ensures BusyMapNext(maps[i], ops[i], maps[i + 1], replies[i]) {
        if i < n {
          assert BusyMapNext(before[i], ops[..n][i], before[i + 1], replies[..n][i]);
        }
      }
    }
  }

  // ----- the object -----

  /** `passed` has every disk on which a temporary file holds some of the first `n` bytes. */
  ghost predicate Covers(d0: Disk, k: Key, bytes: seq<byte>, n: nat, passed: seq<Disk>)
    requires n <= |bytes|
  {
    forall m :: 0 <= m <= n ==> d0[TmpPath(k) := File(bytes[..m], false)] in passed
  }

  class NvrtcCache {
    const codec: Codec
    var memory: map<Key, Kernel>
    /** The cache directory. */
    var disk: Disk

    function Model(): State reads this {
      State(memory, disk)
    }

    constructor (codec: Codec, disk: Disk)
      ensures Model() == State(map[], disk) && this.codec == codec
    {
      this.codec := codec;
      memory := map[];
      this.disk := disk;
    }

    method DoGet(key: Key) returns (r: Option<Kernel>)
      modifies this
      ensures (Model(), r) == Get(codec, old(Model()), key)
    {
      if key in memory {
        return Some(memory[key]);
      }
      var path := EntryPath(key);
      if path !in disk {
        return None;
      }
      var entry := codec.dec(disk[path].content);
      if entry.None? || entry.value.version != VERSION {
        return None;
      }
      memory := memory[key := entry.value];
      r := entry;
    }

    /** `write_all` on a freshly created file, stopping after `limit` bytes. */
    method WriteAll(key: Key, bytes: seq<byte>, limit: nat) returns (ghost passed: seq<Disk>)
      requires limit <= |bytes|
      modifies this`disk
      ensures disk == old(disk)[TmpPath(key) := File(bytes[..limit], false)]
      ensures forall d :: d in passed ==> Passes(old(disk), key, bytes, d)
      ensures old(disk) in passed && Covers(old(disk), key, bytes, limit, passed)
    {
      ghost var before := disk;
      var tmp := TmpPath(key);
      disk := disk[tmp := File([], false)];
      assert bytes[..0] == [];
      passed := [before, disk];
      var n := 0;
      while n < limit
        invariant 0 <= n <= limit
        invariant disk == before[tmp := File(bytes[..n], false)]
        invariant forall d :: d in passed ==> Passes(before, key, bytes, d)
        invariant before in passed && Covers(before, key, bytes, n, passed)
      {
        n := n + 1;
        disk := disk[tmp := File(bytes[..n], false)];
        passed := passed + [disk];
      }
    }

    /** `passed` collects the disk after every step, so that a crash may be placed at any of them. */
    method DoInsert(key: Key, value: Kernel, fault: Fault) returns (ok: bool, ghost passed: seq<Disk>)
      modifies this
      ensures (Model(), ok) == Insert(codec, old(Model()), key, value, fault)
      ensures forall d :: d in passed ==> Passes(old(disk), key, codec.enc(value), d)
      ensures old(disk) in passed && disk in passed
      ensures !fault.CreateFails? ==>
                Covers(old(disk), key, codec.enc(value), Written(codec.enc(value), fault), passed)
      ensures fault.NoFault? || fault.RenameFails? ==> BeforeRename(old(disk), key, codec.enc(value)) in passed
    {
      var bytes := codec.enc(value);
      ghost var before := disk;
      ok := false;
      if fault.CreateFails? {
        return false, [disk];
      }
      passed := WriteAll(key, bytes, Written(bytes, fault));
      if fault.WriteFails? {
        return;
      }
      assert bytes[..|bytes|] == bytes;
      if fault.SyncFails? {
        return;
      }
      disk := disk[TmpPath(key) := File(bytes, true)];
      assert disk == BeforeRename(before, key, bytes);
      assert disk == before[TmpPath(key) := File(bytes[..|bytes|], true)];
      passed := passed + [disk];
      ok := Rename(before, key, bytes, fault.RenameFails?);
      passed := passed + [disk];
      if ok {
        memory := memory[key := value];
      }
    }

    /** The final rename; if it fails, the temporary file is removed. */
    method Rename(ghost before: Disk, key: Key, bytes: seq<byte>, fails: bool) returns (ok: bool)
      requires disk == BeforeRename(before, key, bytes)
      modifies this`disk
      ensures ok == !fails
      ensures disk == if ok then Renamed(before, key, bytes) else before - {TmpPath(key)}
    {
      PathsInjective(key, key);
      var tmp := TmpPath(key);
      if fails {
        disk := disk - {tmp};
        return false;
      }
      disk := (disk - {tmp})[EntryPath(key) := disk[tmp]];
      ok := true;
    }

    method ClearInMemory()
      modifies this
      ensures Model() == Clear(old(Model()))
    {
      memory := map[];
    }
  }
}
