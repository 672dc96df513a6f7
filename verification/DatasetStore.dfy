/** One dataset session on disk, as an abstract store, and the recovery that runs at startup. */
module DatasetStore {
  import opened Wire

  const MAX_MANIFEST_BYTES := 1024 * 1024
  const MAX_INDEX := 99_999_999

  datatype Source = Go2Front | RealsenseColor

  datatype SessionState =
    | Idle | Starting | Capturing | Stopping | Finalizing | Completed | Failed | Interrupted

  predicate Active(s: SessionState) {
    s.Starting? || s.Capturing? || s.Stopping? || s.Finalizing?
  }

  datatype Metadata = Metadata(session: nat, index: int, sources: set<Source>, size: nat)

  /** A metadata file may be absent, cut short by a crash, or whole. */
  datatype MetadataFile = Missing | Torn(length: nat) | Whole(content: Metadata)

  datatype Dir = Dir(frames: map<Source, nat>, metadata: MetadataFile)

  datatype Manifest = Manifest(state: SessionState, count: int, bytes: int)

  /** The samples under their final numbers, the one temporary directory a commit may have open,
      and the manifest last written. */
  datatype Store = Store(samples: map<int, Dir>, temp: Option<Dir>, manifest: Option<Manifest>)

  // ----- sizes ----------------------------------------------------------------------------

  function FrameBytes(frames: map<Source, nat>, s: Source): nat {
    if s in frames then frames[s] else 0
  }

  function MetadataBytes(m: MetadataFile): nat {
    match m
    case Missing => 0
    case Torn(n) => n
    case Whole(c) => c.size
  }

  function DirBytes(d: Dir): nat {
    FrameBytes(d.frames, Go2Front) + FrameBytes(d.frames, RealsenseColor) + MetadataBytes(d.metadata)
  }

  function TempBytes(s: Store): nat {
    if s.temp.Some? then DirBytes(s.temp.value) else 0
  }

  /** The bytes of samples 1 to `k`. */
  function SumTo(samples: map<int, Dir>, k: nat): nat {
    if k == 0 then 0 else SumTo(samples, k - 1) + if k in samples then DirBytes(samples[k]) else 0
  }

  // ----- what a crash may leave --------------------------------------------------------------

  /** A sample directory with everything its metadata promises. */
  predicate Complete(d: Dir, session: nat, index: int) {
    && d.metadata.Whole? && d.metadata.content.session == session && d.metadata.content.index == index
    && 0 < d.metadata.content.size <= MAX_MANIFEST_BYTES
    && d.metadata.content.sources != {} && d.metadata.content.sources <= d.frames.Keys
    && d.frames.Keys <= d.metadata.content.sources
  }

  /** Exactly the samples 1 to `k` are committed, each complete; the durable count is `k` or one
      behind, with the bytes of what it counts; and everything fits the quota beside the
      manifest's allowance. */
  ghost predicate Durable(s: Store, session: nat, quota: nat, k: nat) {
    && (forall i :: i in s.samples <==> 1 <= i <= k)
    && (forall i :: 1 <= i <= k ==> Complete(s.samples[i], session, i))
    && s.manifest.Some? && 0 <= s.manifest.value.count
    && k - 1 <= s.manifest.value.count <= k
    && s.manifest.value.bytes == SumTo(s.samples, s.manifest.value.count)
    && SumTo(s.samples, k) + TempBytes(s) + MAX_MANIFEST_BYTES <= quota
  }

  ghost predicate CrashSafe(s: Store, session: nat, quota: nat) {
    exists k :: Durable(s, session, quota, k)
  }

  // ----- recovery --------------------------------------------------------------------------------

  function Bounded(x: int, low: int, high: int): int {
    if x < low then low else if x > high then high else x
  }

  function AtLeastZero(x: int): int {
    if x < 0 then 0 else x
  }

  /** The size of a sample the recovery accepts, if it accepts it. */
  function AcceptedBytes(d: Dir, session: nat, index: int): Option<nat> {
    match d.metadata
    case Whole(m) =>
      if 0 < m.size <= MAX_MANIFEST_BYTES && m.session == session && m.index == index &&
         m.sources != {} && m.sources <= d.frames.Keys
      then Some(m.size + (if Go2Front in m.sources then FrameBytes(d.frames, Go2Front) else 0)
                       + (if RealsenseColor in m.sources then FrameBytes(d.frames, RealsenseColor) else 0))
      else None
    case _ => None
  }

  /** Startup recovery of one session. `writable` says whether the manifest can be replaced. */
  function Recover(s: Store, session: nat, writable: bool): Store {
    if s.manifest.None? || !Active(s.manifest.value.state) || !writable then s
    else
      var m := s.manifest.value;
      var next := Bounded(m.count, 0, MAX_INDEX) + 1;
      var extra := if next <= MAX_INDEX && next in s.samples
                   then AcceptedBytes(s.samples[next], session, next) else None;
      var counted := if extra.Some? then m.(count := next, bytes := AtLeastZero(m.bytes) + extra.value) else m;
      s.(manifest := Some(counted.(state := Interrupted)))
  }

  lemma CompleteIsAccepted(d: Dir, session: nat, index: int)
    requires Complete(d, session, index)
    ensures AcceptedBytes(d, session, index) == Some(DirBytes(d))
  {
    var m := d.metadata.content;
    assert Go2Front in m.sources <==> Go2Front in d.frames;
    assert RealsenseColor in m.sources <==> RealsenseColor in d.frames;
  }

  /** From whatever a crash left with an active manifest, recovery restores the true count and
      byte total: always while the next number still has eight digits, and otherwise exactly
      when the durable count was not behind. */
  lemma RecoveryRestores(s: Store, session: nat, quota: nat, k: nat)
    requires Durable(s, session, quota, k) && Active(s.manifest.value.state)
    ensures var r := Recover(s, session, true);
            && r.samples == s.samples && r.manifest.Some? && r.manifest.value.state == Interrupted
            && (r.manifest.value.count == k && r.manifest.value.bytes == SumTo(s.samples, k) <==>
                  s.manifest.value.count == k || k <= MAX_INDEX)
  {
    var m := s.manifest.value;
    if m.count == k - 1 && k <= MAX_INDEX {
      CompleteIsAccepted(s.samples[k], session, k);
    }
  }

  // ----- a session too long for eight digits --------------------------------------------------

  function ThousandBytes(index: int): Dir {
    Dir(map[Go2Front := 300], Whole(Metadata(0, index, {Go2Front}, 700)))
  }

  /** `n` committed samples of a thousand bytes, the last not yet counted durably. */
  function LongSession(n: nat): Store {
    Store(map i: int | 1 <= i <= n :: ThousandBytes(i), None,
          Some(Manifest(Capturing, n - 1, 1000 * (n - 1))))
  }

  lemma {:induction false} ThousandsAddUp(n: nat, k: nat)
    requires k <= n
    ensures SumTo(LongSession(n).samples, k) == 1000 * k
  {
    if k > 0 {
      ThousandsAddUp(n, k - 1);
    }
  }

  lemma LongSessionIsDurable(n: nat)
    requires n >= 1
    ensures Durable(LongSession(n), 0, 1000 * n + MAX_MANIFEST_BYTES, n)
  {
    ThousandsAddUp(n, n);
    ThousandsAddUp(n, n - 1);
  }

  /** With a quota of about 100 GB for the session, a crash before the hundred millionth sample
      of a thousand bytes is counted leaves it uncounted for good. */
  lemma LongSessionIsUndercounted()
    ensures var s := LongSession(100_000_000);
            && Durable(s, 0, 100_000_000_000 + MAX_MANIFEST_BYTES, 100_000_000)
            && Active(s.manifest.value.state) && 100_000_000 in s.samples
            && Recover(s, 0, true).manifest == Some(Manifest(Interrupted, 99_999_999, 99_999_999_000))
  {
    LongSessionIsDurable(100_000_000);
  }

  // ----- what any crash leaves ------------------------------------------------------------------

  lemma {:induction false} CountedTo(keys: set<int>, k: nat)
    requires forall i :: i in keys <==> 1 <= i <= k
    ensures |keys| == k
  {
    if k == 0 {
      forall i ensures i !in keys {}
      assert keys == {};
    } else {
      assert k in keys;
      CountedTo(keys - {k}, k - 1);
    }
  }

  /** So the restored count is the number of sample directories, wherever the crash was. */
  lemma AnyCrashRecovers(s: Store, session: nat, quota: nat)
    requires CrashSafe(s, session, quota) && s.manifest.Some? && Active(s.manifest.value.state)
    requires |s.samples| <= MAX_INDEX
    ensures var r := Recover(s, session, true);
            r.manifest == Some(Manifest(Interrupted, |s.samples|, SumTo(s.samples, |s.samples|)))
  {
    var k: nat :| Durable(s, session, quota, k);
    CountedTo(s.samples.Keys, k);
    assert |s.samples.Keys| == |s.samples|;
    RecoveryRestores(s, session, quota, k);
  }

  /** Whatever is on disk, recovery counts at most one more sample, and only a whole one. */
  lemma RecoveryCountsOnlyWhole(s: Store, session: nat, writable: bool)
    requires s.manifest.Some?
    ensures var r, m := Recover(s, session, writable), s.manifest.value;
            && r.samples == s.samples && r.temp == s.temp && r.manifest.Some?
            && (r.manifest.value.count != m.count ==>
                  && Active(m.state) && r.manifest.value.count == Bounded(m.count, 0, MAX_INDEX) + 1
                  && r.manifest.value.count in s.samples
                  && var d := s.samples[r.manifest.value.count];
                     && d.metadata.Whole? && d.metadata.content.index == r.manifest.value.count
                     && d.metadata.content.session == session
                     && forall c :: c in d.metadata.content.sources ==> c in d.frames)
  {}

  /** Recovering again, after a crash or at the next start, changes nothing more. */
  lemma RecoveryIsIdempotent(s: Store, session: nat, writable: bool)
    ensures Recover(Recover(s, session, true), session, writable) == Recover(s, session, true)
  {}

  datatype Session = Session(id: nat, store: Store)

  /** The startup loop over all sessions. */
  method RecoverInterruptedSessions(disk: array<Session>, writable: seq<bool>)
    requires |writable| == disk.Length
    modifies disk
    ensures forall i :: 0 <= i < disk.Length ==>
              disk[i] == Session(old(disk[i]).id, Recover(old(disk[i]).store, old(disk[i]).id, writable[i]))
  {
    var i := 0;
    while i < disk.Length
      invariant 0 <= i <= disk.Length
      invariant forall j :: i <= j < disk.Length ==> disk[j] == old(disk[j])
      invariant forall j :: 0 <= j < i ==>
                  disk[j] == Session(old(disk[j]).id, Recover(old(disk[j]).store, old(disk[j]).id, writable[j]))
    {
      var session := disk[i];
      var m := session.store.manifest;
      if m.Some? && Active(m.value.state) {
        var recovered := m.value;
        var next := Bounded(recovered.count, 0, MAX_INDEX) + 1;
        if next <= MAX_INDEX && next in session.store.samples {
          var extra := AcceptedBytes(session.store.samples[next], session.id, next);
          if extra.Some? {
            recovered := recovered.(count := next, bytes := AtLeastZero(recovered.bytes) + extra.value);
          }
        }
        recovered := recovered.(state := Interrupted);
        if writable[i] {
          disk[i] := session.(store := session.store.(manifest := Some(recovered)));
        }
      }
      i := i + 1;
    }
  }
}
