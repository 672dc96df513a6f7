/** The writer that commits samples one by one, with every store it ever leaves on disk. */
module DatasetWriter {
  import opened Wire
  import opened DatasetStore

  datatype Frame = Frame(source: Source, size: nat)

  /** A validated bundle: one frame per source of the session, and the encoded metadata's size. */
  datatype Bundle = Bundle(frames: seq<Frame>, metadataSize: nat)

  predicate Proper(b: Bundle) {
    && b.frames != [] && 0 < b.metadataSize
    && forall i, j :: 0 <= i < j < |b.frames| ==> b.frames[i].source != b.frames[j].source
  }

  datatype CommitError = MetadataTooLarge | QuotaReached | ReserveReached | StorageFailed

  /** Where the file system refuses, if anywhere in a commit. */
  datatype Fault =
    | NoFault | AtMkdir | AtFrame(i: nat) | AtMetadata | AtRename | AtSync | AtManifest

  /** A queued bundle with the circumstances it meets: free bytes, a fault, and whether a
      failed commit's temporary directory can be removed. */
  datatype Job = Job(bundle: Bundle, free: int, fault: Fault, sweeps: bool)

  const EMPTY := Dir(map[], Missing)

  function FrameSum(frames: seq<Frame>): nat {
    if frames == [] then 0 else FrameSum(frames[..|frames| - 1]) + frames[|frames| - 1].size
  }

  function Files(frames: seq<Frame>): map<Source, nat> {
    if frames == [] then map[]
    else Files(frames[..|frames| - 1])[frames[|frames| - 1].source := frames[|frames| - 1].size]
  }

  function MetadataFor(b: Bundle, session: nat, index: int): Metadata {
    Metadata(session, index, Files(b.frames).Keys, b.metadataSize)
  }

  function SampleOf(b: Bundle, session: nat, index: int): Dir {
    Dir(Files(b.frames), Whole(MetadataFor(b, session, index)))
  }

  function FilesBytes(files: map<Source, nat>): nat {
    FrameBytes(files, Go2Front) + FrameBytes(files, RealsenseColor)
  }

  lemma {:induction false} FilesAreTheFrames(frames: seq<Frame>, n: nat)
    requires n <= |frames|
    requires forall i, j :: 0 <= i < j < |frames| ==> frames[i].source != frames[j].source
    ensures forall c :: c in Files(frames[..n]) <==> exists i :: 0 <= i < n && frames[i].source == c
    ensures FilesBytes(Files(frames[..n])) == FrameSum(frames[..n])
  {
    if n > 0 {
      FilesAreTheFrames(frames, n - 1);
      assert frames[..n][..n - 1] == frames[..n - 1];
      assert frames[n - 1].source !in Files(frames[..n - 1]);
    }
  }

  lemma SumGrows(samples: map<int, Dir>, after: map<int, Dir>, k: nat)
    requires forall i :: 1 <= i <= k ==> (i in samples <==> i in after) && (i in samples ==> after[i] == samples[i])
    ensures SumTo(after, k) == SumTo(samples, k)
  {}

  /** With `part` bytes of frame `i` written, the files stay within the bundle's size. */
  lemma Partway(frames: seq<Frame>, i: nat, part: nat)
    requires i < |frames| && part <= frames[i].size
    requires forall m, n :: 0 <= m < n < |frames| ==> frames[m].source != frames[n].source
    ensures FilesBytes(Files(frames[..i])[frames[i].source := part]) <= FrameSum(frames)
  {
    FilesAreTheFrames(frames, i);
    assert frames[i].source !in Files(frames[..i]);
    FrameSumBounds(frames, i + 1);
    assert frames[..i + 1][..i] == frames[..i];
  }

  lemma {:induction false} FrameSumBounds(frames: seq<Frame>, n: nat)
    requires n <= |frames|
    ensures FrameSum(frames[..n]) <= FrameSum(frames)
    decreases |frames| - n
  {
    if n < |frames| {
      FrameSumBounds(frames, n + 1);
      assert frames[..n + 1][..n] == frames[..n];
    } else {
      assert frames[..n] == frames;
    }
  }

  function Size(b: Bundle): nat {
    b.metadataSize + FrameSum(b.frames)
  }

  lemma SampleSize(b: Bundle, session: nat, index: int)
    requires Proper(b)
    ensures DirBytes(SampleOf(b, session, index)) == Size(b)
  {
    assert b.frames[..|b.frames|] == b.frames;
    FilesAreTheFrames(b.frames, |b.frames|);
  }

  lemma SampleIsComplete(b: Bundle, session: nat, index: int)
    requires Proper(b) && b.metadataSize <= MAX_MANIFEST_BYTES
    ensures Complete(SampleOf(b, session, index), session, index)
  {
    assert b.frames[..|b.frames|] == b.frames;
    FilesAreTheFrames(b.frames, |b.frames|);
    assert b.frames[0].source in Files(b.frames);
  }

  /** The temporary directory renamed to a sample's number. */
  function Renamed(s: Store, index: int): Store
    requires s.temp.Some?
  {
    s.(samples := s.samples[index := s.temp.value], temp := None)
  }

  /** A finished temporary directory may be renamed to the next number. */
  lemma PublishedIsDurable(s: Store, session: nat, quota: nat, k: nat, b: Bundle)
    requires Durable(s, session, quota, k) && s.manifest.value.count == k
    requires Proper(b) && b.metadataSize <= MAX_MANIFEST_BYTES && s.temp == Some(SampleOf(b, session, k + 1))
    ensures var next := Renamed(s, k + 1);
            && Durable(next, session, quota, k + 1)
            && SumTo(next.samples, k) == SumTo(s.samples, k)
            && SumTo(next.samples, k + 1) == SumTo(s.samples, k) + DirBytes(SampleOf(b, session, k + 1))
  {
    SumGrows(s.samples, s.samples[k + 1 := SampleOf(b, session, k + 1)], k);
    SampleIsComplete(b, session, k + 1);
  }

  /** Whether the file system lets a bundle through to its final name. */
  predicate StoresIn(b: Bundle, fault: Fault) {
    fault.NoFault? || fault.AtManifest? || (fault.AtFrame? && fault.i >= |b.frames|)
  }

  /** The samples of the first `n` queued bundles, in their order, after the first `base`. */
  predicate Holds(samples: map<int, Dir>, session: nat, base: nat, queue: seq<Job>, n: nat) {
    n <= |queue| && forall j :: 0 <= j < n ==> HoldsAt(samples, session, base + j + 1, queue[j].bundle)
  }

  predicate HoldsAt(samples: map<int, Dir>, session: nat, index: int, b: Bundle) {
    index in samples && samples[index] == SampleOf(b, session, index)
  }

  lemma HoldsOneMore(samples: map<int, Dir>, session: nat, base: nat, queue: seq<Job>, n: nat)
    requires n < |queue| && Holds(samples, session, base, queue, n)
    ensures var index := base + n + 1;
            Holds(samples[index := SampleOf(queue[n].bundle, session, index)], session, base, queue, n + 1)
  {
    var after := samples[base + n + 1 := SampleOf(queue[n].bundle, session, base + n + 1)];
    forall j | 0 <= j < n + 1 ensures HoldsAt(after, session, base + j + 1, queue[j].bundle) {
      assert j < n ==> HoldsAt(samples, session, base + j + 1, queue[j].bundle);
    }
  }

  /** When a commit goes through. */
  predicate Succeeds(job: Job, bytesWritten: nat, quota: nat, minimumFree: int) {
    && job.bundle.metadataSize <= MAX_MANIFEST_BYTES
    && bytesWritten + Size(job.bundle) + MAX_MANIFEST_BYTES <= quota
    && job.free - (Size(job.bundle) + MAX_MANIFEST_BYTES) >= minimumFree
    && StoresIn(job.bundle, job.fault) && !job.fault.AtManifest?
  }

  /** What the checks leave to the file system: a bundle that is stored fits the quota, its allowance
      for the manifest included, and has readable metadata, exactly when they let it pass. */
  lemma FitsExactly(s: Store, session: nat, quota: nat, k: nat, b: Bundle)
    requires Durable(s, session, quota, k) && s.manifest.value.count == k && s.temp.None? && Proper(b)
    ensures Durable(s.(samples := s.samples[k + 1 := SampleOf(b, session, k + 1)]), session, quota, k + 1) <==>
              b.metadataSize <= MAX_MANIFEST_BYTES && SumTo(s.samples, k) + Size(b) + MAX_MANIFEST_BYTES <= quota
  {
    var sample := SampleOf(b, session, k + 1);
    var after := s.samples[k + 1 := sample];
    SumGrows(s.samples, after, k);
    SampleSize(b, session, k + 1);
    assert SumTo(after, k + 1) == SumTo(s.samples, k) + Size(b);
    assert Complete(sample, session, k + 1) ==> b.metadataSize <= MAX_MANIFEST_BYTES;
    if b.metadataSize <= MAX_MANIFEST_BYTES {
      SampleIsComplete(b, session, k + 1);
    }
    assert after[k + 1] == sample;
  }

  /** The bytes of the first `n` queued bundles. */
  function QueueSum(queue: seq<Job>, n: nat): nat
    requires n <= |queue|
  {
    if n == 0 then 0 else QueueSum(queue, n - 1) + Size(queue[n - 1].bundle)
  }

  /** Each of the first `n` queued bundles goes through in its turn. */
  predicate AllSucceed(queue: seq<Job>, n: nat, bytesWritten: nat, quota: nat, minimumFree: int)
    requires n <= |queue|
  {
    n > 0 ==>
      && AllSucceed(queue, n - 1, bytesWritten, quota, minimumFree)
      && Succeeds(queue[n - 1], bytesWritten + QueueSum(queue, n - 1), quota, minimumFree)
  }

  lemma {:induction false} FewerSucceed(queue: seq<Job>, m: nat, n: nat, bytes: nat, quota: nat, minimumFree: int)
    requires m <= n <= |queue| && AllSucceed(queue, n, bytes, quota, minimumFree)
    ensures AllSucceed(queue, m, bytes, quota, minimumFree)
  {
    if m < n {
      FewerSucceed(queue, m, n - 1, bytes, quota, minimumFree);
    }
  }

  ghost predicate AllCrashSafe(trace: seq<Store>, session: nat, quota: nat) {
    forall i :: 0 <= i < |trace| ==> CrashSafe(trace[i], session, quota)
  }

  class Writer {
    const session: nat
    const quota: nat
    const minimumFree: int
    var state: SessionState
    var saved: nat
    var bytesWritten: nat
    var store: Store
    /** Every store that has been on disk, and so every store a crash can leave. */
    ghost var trace: seq<Store>

    /** Between commits. */
    ghost predicate Ready()
      reads this
    {
      && Durable(store, session, quota, saved) && store.temp.None?
      && store.manifest.value.count == saved && bytesWritten == SumTo(store.samples, saved)
    }

    ghost predicate Traced()
      reads this
    {
      |trace| > 0 && trace[|trace| - 1] == store && AllCrashSafe(trace, session, quota)
    }

    constructor (session: nat, quota: nat, minimumFree: int)
      requires MAX_MANIFEST_BYTES <= quota
      ensures Ready() && Traced() && state == Starting && saved == 0
      ensures this.session == session && this.quota == quota && this.minimumFree == minimumFree
    {
      this.session, this.quota, this.minimumFree := session, quota, minimumFree;
      state, saved, bytesWritten := Starting, 0, 0;
      store := Store(map[], None, Some(Manifest(Starting, 0, 0)));
      new;
      trace := [store];
      assert Durable(store, session, quota, 0);
    }

    /** One change on disk. */
    method Put(next: Store, ghost k: nat)
      requires Traced() && Durable(next, session, quota, k)
      modifies `store, `trace
      ensures store == next && Traced() && trace == old(trace) + [next]
    {
      store := next;
      trace := trace + [next];
    }

    method Sweep(sweeps: bool)
      requires Traced() && Durable(store, session, quota, saved)
      modifies `store, `trace
      ensures Traced() && old(trace) <= trace
      ensures Durable(store, session, quota, saved)
      ensures store.samples == old(store.samples) && store.manifest == old(store.manifest)
    {
      if store.temp.Some? && sweeps {
        Put(store.(temp := None), saved);
      }
    }

    method WriteManifest(fails: bool, ghost k: nat) returns (ok: bool)
      requires Traced() && Durable(store, session, quota, k) && saved <= k <= saved + 1
      requires bytesWritten == SumTo(store.samples, saved)
      modifies `store, `trace
      ensures Traced() && ok == !fails && old(trace) <= trace
      ensures Durable(store, session, quota, k)
      ensures store == if fails then old(store)
                       else old(store).(manifest := Some(Manifest(state, saved, bytesWritten)))
    {
      if fails {
        return false;
      }
      Put(store.(manifest := Some(Manifest(state, saved, bytesWritten))), k);
      return true;
    }

    /** The open temporary directory now holds `d`. */
    method PutTemp(d: Dir)
      requires Traced() && Durable(store, session, quota, saved)
      requires SumTo(store.samples, saved) + DirBytes(d) + MAX_MANIFEST_BYTES <= quota
      modifies `store, `trace
      ensures Traced() && old(trace) <= trace && store == old(store).(temp := Some(d))
      ensures Durable(store, session, quota, saved)
    {
      Put(store.(temp := Some(d)), saved);
    }

    /** One image file, which may be seen cut short before it is whole. */
    method WriteFrame(b: Bundle, i: nat, fails: bool) returns (ok: bool)
      requires Traced() && Proper(b) && Durable(store, session, quota, saved) && i < |b.frames|
      requires store.temp == Some(Dir(Files(b.frames[..i]), Missing))
      requires SumTo(store.samples, saved) + FrameSum(b.frames) + MAX_MANIFEST_BYTES <= quota
      modifies `store, `trace
      ensures Traced() && old(trace) <= trace && ok == !fails
      ensures Durable(store, session, quota, saved)
      ensures store.temp.Some? && store == old(store).(temp := store.temp)
      ensures ok ==> store.temp == Some(Dir(Files(b.frames[..i + 1]), Missing))
    {
      var source, size := b.frames[i].source, b.frames[i].size;
      var part: nat :| part <= size;
      Partway(b.frames, i, part);
      PutTemp(Dir(Files(b.frames[..i])[source := part], Missing));
      if fails {
        return false;
      }
      Partway(b.frames, i, size);
      PutTemp(Dir(Files(b.frames[..i])[source := size], Missing));
      assert b.frames[..i + 1][..i] == b.frames[..i];
      return true;
    }

    method WriteMetadata(b: Bundle, fails: bool) returns (ok: bool)
      requires Traced() && Proper(b) && Durable(store, session, quota, saved)
      requires store.temp == Some(Dir(Files(b.frames), Missing))
      requires SumTo(store.samples, saved) + b.metadataSize + FrameSum(b.frames) + MAX_MANIFEST_BYTES <= quota
      modifies `store, `trace
      ensures Traced() && old(trace) <= trace && ok == !fails
      ensures Durable(store, session, quota, saved)
      ensures store.temp.Some? && store == old(store).(temp := store.temp)
      ensures ok ==> store.temp == Some(SampleOf(b, session, saved + 1))
    {
      assert b.frames[..|b.frames|] == b.frames;
      FilesAreTheFrames(b.frames, |b.frames|);
      var part: nat :| part <= b.metadataSize;
      PutTemp(Dir(Files(b.frames), Torn(part)));
      if fails {
        return false;
      }
      PutTemp(SampleOf(b, session, saved + 1));
      return true;
    }

    /** The temporary directory filled file by file, the metadata last. */
    method Fill(b: Bundle, fault: Fault) returns (ok: bool)
      requires Traced() && Proper(b) && Durable(store, session, quota, saved) && store.temp == Some(EMPTY)
      requires SumTo(store.samples, saved) + b.metadataSize + FrameSum(b.frames) + MAX_MANIFEST_BYTES <= quota
      modifies `store, `trace
      ensures Traced() && old(trace) <= trace
      ensures Durable(store, session, quota, saved)
      ensures store.temp.Some? && store == old(store).(temp := store.temp)
      ensures ok <==> !fault.AtMetadata? && !(fault.AtFrame? && fault.i < |b.frames|)
      ensures ok ==> store.temp == Some(SampleOf(b, session, saved + 1))
    {
      var i := 0;
      while i < |b.frames|
        invariant 0 <= i <= |b.frames| && (fault.AtFrame? && fault.i < |b.frames| ==> i <= fault.i)
        invariant Traced() && old(trace) <= trace
        invariant store == old(store).(temp := Some(Dir(Files(b.frames[..i]), Missing)))
        invariant Durable(store, session, quota, saved)
      {
        var written := WriteFrame(b, i, fault == AtFrame(i));
        if !written {
          return false;
        }
        i := i + 1;
      }
      assert b.frames[..i] == b.frames;
      ok := WriteMetadata(b, fault.AtMetadata?);
    }

    /** Renaming the finished directory to its number makes it the next committed sample. */
    method Publish(b: Bundle)
      requires Traced() && Proper(b) && b.metadataSize <= MAX_MANIFEST_BYTES
      requires Durable(store, session, quota, saved) && store.manifest.value.count == saved
      requires store.temp == Some(SampleOf(b, session, saved + 1))
      modifies `store, `trace
      ensures Traced() && old(trace) <= trace
      ensures Durable(store, session, quota, saved + 1)
      ensures store == Renamed(old(store), saved + 1)
      ensures SumTo(store.samples, saved + 1)
              == SumTo(old(store).samples, saved) + DirBytes(SampleOf(b, session, saved + 1))
      ensures SumTo(store.samples, saved) == SumTo(old(store).samples, saved)
    {
      PublishedIsDurable(store, session, quota, saved, b);
      Put(Renamed(store, saved + 1), saved + 1);
    }

    /** The temporary directory complete and ready to be renamed, or swept away. */
    method Prepare(job: Job) returns (ok: bool)
      requires Ready() && Traced() && Proper(job.bundle)
      requires bytesWritten + Size(job.bundle) + MAX_MANIFEST_BYTES <= quota
      modifies `store, `trace
      ensures Traced() && old(trace) <= trace && Durable(store, session, quota, saved)
      ensures store.samples == old(store).samples && store.manifest == old(store).manifest
      ensures ok <==> StoresIn(job.bundle, job.fault) || job.fault.AtSync?
      ensures ok ==> store.temp == Some(SampleOf(job.bundle, session, saved + 1))
    {
      if job.fault.AtMkdir? {
        return false;
      }
      PutTemp(EMPTY);
      ok := Fill(job.bundle, job.fault);
      if !ok || job.fault.AtRename? {
        Sweep(job.sweeps);
        ok := false;
      }
    }

    /** The files of one bundle, from the temporary directory to the renamed sample. */
    method StoreSample(job: Job) returns (ok: bool, ghost k: nat)
      requires Ready() && Traced() && Proper(job.bundle) && job.bundle.metadataSize <= MAX_MANIFEST_BYTES
      requires bytesWritten + Size(job.bundle) + MAX_MANIFEST_BYTES <= quota
      modifies `store, `trace
      ensures Traced() && old(trace) <= trace
      ensures saved <= k <= saved + 1 && Durable(store, session, quota, k)
      ensures SumTo(store.samples, saved) == bytesWritten
      ensures ok <==> StoresIn(job.bundle, job.fault)
      ensures ok ==>
                && k == saved + 1 && store.temp.None?
                && store.samples == old(store).samples[k := SampleOf(job.bundle, session, k)]
                && SumTo(store.samples, k) == bytesWritten + Size(job.bundle)
    {
      var prepared := Prepare(job);
      if !prepared {
        return false, saved;
      }
      SampleSize(job.bundle, session, saved + 1);
      Publish(job.bundle);
      return !job.fault.AtSync?, saved + 1;
    }

    /** Counting the stored sample, in memory and then durably. */
    method Count(b: Bundle, fails: bool) returns (ok: bool)
      requires Traced() && Durable(store, session, quota, saved + 1) && store.temp.None?
      requires SumTo(store.samples, saved + 1) == bytesWritten + Size(b)
      modifies this
      ensures Traced() && old(trace) <= trace && ok == !fails
      ensures saved == old(saved) + 1 && bytesWritten == old(bytesWritten) + Size(b)
      ensures state == (if old(state) == Starting then Capturing else old(state))
      ensures store.samples == old(store).samples && Durable(store, session, quota, saved)
      ensures bytesWritten == SumTo(store.samples, saved)
      ensures ok ==> Ready() && store.manifest == Some(Manifest(state, saved, bytesWritten))
    {
      saved := saved + 1;
      bytesWritten := bytesWritten + Size(b);
      if state == Starting {
        state := Capturing;
      }
      ok := WriteManifest(fails, saved);
    }

    /** The checks made before anything is written. */
    method Refuse(job: Job) returns (error: Option<CommitError>)
      ensures error == if job.bundle.metadataSize > MAX_MANIFEST_BYTES then Some(MetadataTooLarge)
                       else if bytesWritten + Size(job.bundle) + MAX_MANIFEST_BYTES > quota then Some(QuotaReached)
                       else if job.free - (Size(job.bundle) + MAX_MANIFEST_BYTES) < minimumFree
                       then Some(ReserveReached) else None
    {
      if job.bundle.metadataSize > MAX_MANIFEST_BYTES {
        return Some(MetadataTooLarge);
      }
      var proposed := Size(job.bundle);
      if bytesWritten + proposed + MAX_MANIFEST_BYTES > quota {
        return Some(QuotaReached);
      }
      if job.free - (proposed + MAX_MANIFEST_BYTES) < minimumFree {
        return Some(ReserveReached);
      }
      return None;
    }

    /** A bundle that passes the checks, stored and counted. */
    method Commit(job: Job) returns (ok: bool, ghost k: nat)
      requires Ready() && Traced() && Proper(job.bundle) && job.bundle.metadataSize <= MAX_MANIFEST_BYTES
      requires bytesWritten + Size(job.bundle) + MAX_MANIFEST_BYTES <= quota
      modifies this
      ensures Traced() && old(trace) <= trace
      ensures saved <= k <= saved + 1 && Durable(store, session, quota, k)
      ensures bytesWritten == SumTo(store.samples, saved) && old(saved) <= saved <= old(saved) + 1
      ensures ok <==> StoresIn(job.bundle, job.fault) && !job.fault.AtManifest?
      ensures state == DatasetStore.Failed <==> old(state) == DatasetStore.Failed
      ensures ok ==>
                && Ready() && saved == old(saved) + 1
                && store.samples == old(store).samples[saved := SampleOf(job.bundle, session, saved)]
                && bytesWritten == old(bytesWritten) + Size(job.bundle)
                && state == (if old(state) == Starting then Capturing else old(state))
                && store.manifest == Some(Manifest(state, saved, bytesWritten))
    {
      ok, k := StoreSample(job);
      if !ok {
        return;
      }
      ghost var samples := store.samples;
      assert Durable(store, session, quota, saved + 1) && store.temp.None?;
      ok := Count(job.bundle, job.fault.AtManifest?);
      assert store.samples == samples;
    }

    /** One bundle. On success there is exactly one more sample, the bundle's, counted durably;
        on failure no further commit follows, and at most the count is one behind. It fails for the
        first check it does not meet, and otherwise exactly where the file system refuses. */
    method CommitBundle(job: Job) returns (r: Result<(), CommitError>, ghost k: nat)
      requires Ready() && Traced() && Proper(job.bundle)
      modifies this
      ensures Traced() && old(trace) <= trace
      ensures saved <= k <= saved + 1 && Durable(store, session, quota, k)
      ensures bytesWritten == SumTo(store.samples, saved) && old(saved) <= saved <= old(saved) + 1
      ensures r.Ok? <==> Succeeds(job, old(bytesWritten), quota, minimumFree)
      ensures r == (if job.bundle.metadataSize > MAX_MANIFEST_BYTES then Err(MetadataTooLarge)
                    else if old(bytesWritten) + Size(job.bundle) + MAX_MANIFEST_BYTES > quota then Err(QuotaReached)
                    else if job.free - (Size(job.bundle) + MAX_MANIFEST_BYTES) < minimumFree
                    then Err(ReserveReached)
                    else if job.fault.NoFault? || (job.fault.AtFrame? && job.fault.i >= |job.bundle.frames|)
                    then Ok(()) else Err(StorageFailed))
      ensures state == DatasetStore.Failed <==> old(state) == DatasetStore.Failed
      ensures r.Ok? ==>
                && Ready() && saved == old(saved) + 1
                && store.samples == old(store).samples[saved := SampleOf(job.bundle, session, saved)]
                && bytesWritten == old(bytesWritten) + Size(job.bundle)
                && state == (if old(state) == Starting then Capturing else old(state))
                && store.manifest == Some(Manifest(state, saved, bytesWritten))
    {
      var refusal := Refuse(job);
      if refusal.Some? {
        return Err(refusal.value), saved;
      }
      var committed;
      committed, k := Commit(job);
      return if committed then Ok(()) else Err(StorageFailed), k;
    }

    /** The next queued bundle. */
    method CommitNext(queue: seq<Job>, i: nat, ghost base: nat) returns (failed: bool, ghost k: nat)
      requires Ready() && Traced() && i < |queue| && Proper(queue[i].bundle) && saved == base + i
      requires Holds(store.samples, session, base, queue, i)
      modifies this
      ensures Traced() && old(trace) <= trace
      ensures saved <= k <= saved + 1 && Durable(store, session, quota, k)
      ensures bytesWritten == SumTo(store.samples, saved) && saved <= base + i + 1
      ensures !failed ==> Ready() && saved == base + i + 1 && Holds(store.samples, session, base, queue, i + 1)
      ensures failed <==> !Succeeds(queue[i], old(bytesWritten), quota, minimumFree)
      ensures !failed ==> bytesWritten == old(bytesWritten) + Size(queue[i].bundle)
      ensures state == DatasetStore.Failed <==> old(state) == DatasetStore.Failed
    {
      HoldsOneMore(store.samples, session, base, queue, i);
      var r;
      r, k := CommitBundle(queue[i]);
      failed := r.Err?;
    }

    /** Commits until the queue ends or a commit fails. */
    method CommitAll(queue: seq<Job>) returns (failed: bool, ghost k: nat)
      requires Ready() && Traced() && forall i :: 0 <= i < |queue| ==> Proper(queue[i].bundle)
      modifies this
      ensures Traced() && old(trace) <= trace
      ensures saved <= k <= saved + 1 && Durable(store, session, quota, k)
      ensures bytesWritten == SumTo(store.samples, saved) && saved <= old(saved) + |queue|
      ensures !failed ==> saved == old(saved) + |queue| && Holds(store.samples, session, old(saved), queue, |queue|)
      ensures failed <==> !AllSucceed(queue, |queue|, old(bytesWritten), quota, minimumFree)
      ensures state == DatasetStore.Failed <==> old(state) == DatasetStore.Failed
    {
      failed, k := false, saved;
      var i := 0;
      while i < |queue| && !failed
        invariant 0 <= i <= |queue| && saved <= old(saved) + i
        invariant Traced() && old(trace) <= trace
        invariant bytesWritten == SumTo(store.samples, saved)
        invariant saved <= k <= saved + 1 && Durable(store, session, quota, k)
        invariant !failed ==> Ready() && saved == old(saved) + i && Holds(store.samples, session, old(saved), queue, i)
        invariant !failed ==> bytesWritten == old(bytesWritten) + QueueSum(queue, i)
        invariant failed <==> !AllSucceed(queue, i, old(bytesWritten), quota, minimumFree)
        invariant state == DatasetStore.Failed <==> old(state) == DatasetStore.Failed
      {
        failed, k := CommitNext(queue, i, old(saved));
        i := i + 1;
      }
      if AllSucceed(queue, |queue|, old(bytesWritten), quota, minimumFree) {
        FewerSucceed(queue, i, |queue|, old(bytesWritten), quota, minimumFree);
      }
    }

    /** The writer thread: commit, then finalize. Nothing it ever leaves on disk is unsafe to
        crash in. */
    method WriterLoop(queue: seq<Job>, finalFails: bool)
      requires Ready() && Traced() && forall i :: 0 <= i < |queue| ==> Proper(queue[i].bundle)
      modifies this
      ensures AllCrashSafe(trace, session, quota)
      ensures old(trace) <= trace && |trace| > 0 && trace[|trace| - 1] == store
      ensures exists k :: saved <= k <= saved + 1 && Durable(store, session, quota, k)
      ensures !finalFails ==> store.manifest == Some(Manifest(state, saved, bytesWritten))
      ensures state == Completed || state == DatasetStore.Failed
      ensures state == Completed ==>
                saved == old(saved) + |queue| && Holds(store.samples, session, old(saved), queue, |queue|)
      ensures state == Completed <==>
                && old(state) != DatasetStore.Failed && !finalFails
                && AllSucceed(queue, |queue|, old(bytesWritten), quota, minimumFree)
    {
      ghost var k;
      var failed;
      failed, k := CommitAll(queue);
      Finish(failed, finalFails, k);
    }

    /** The final state, recorded if the disk still lets it. */
    method Finish(failed: bool, finalFails: bool, ghost k: nat)
      requires Traced() && Durable(store, session, quota, k) && saved <= k <= saved + 1
      requires bytesWritten == SumTo(store.samples, saved)
      modifies `state, `store, `trace
      ensures Traced() && old(trace) <= trace && Durable(store, session, quota, k)
      ensures store.samples == old(store).samples
      ensures !finalFails ==> store.manifest == Some(Manifest(state, saved, bytesWritten))
      ensures state == Completed || state == DatasetStore.Failed
      ensures state == Completed <==> !failed && !finalFails && old(state) != DatasetStore.Failed
    {
      Conclude(failed);
      var recorded := WriteManifest(finalFails, k);
      if !recorded {
        state := DatasetStore.Failed;
      }
    }

    method Conclude(failed: bool)
      modifies `state
      ensures state == if failed || old(state) == DatasetStore.Failed then DatasetStore.Failed else Completed
    {
      if failed {
        state := DatasetStore.Failed;
      } else if state != DatasetStore.Failed {
        state := Finalizing;
      }
      if state == Finalizing {
        state := Completed;
      }
    }
  }
}
