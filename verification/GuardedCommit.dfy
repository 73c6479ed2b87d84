/** Persisting the outcome of a leased task: the fence is checked before every write, while the queue goes on changing
    between check and write. */
module GuardedCommit {
  import opened Wrappers
  import opened WorkQueue
  import opened WorkQueueRuns

  datatype Write =
    | StateSnapshotWrite | CheckpointWrite | ResumeTokenWrite | PayloadWrite | ApprovalWrite
    | ArtifactWrite(index: nat) | ExecutionWrite | ReplayWrite

  /** Which writes an outcome asks for, where the store for them is configured. */
  datatype Outcome = Outcome(
    hasRecord: bool, executionId: string, hasState: bool, hasCheckpoint: bool, hasResumeToken: bool, hasPayload: bool,
    hasApproval: bool, artifacts: nat, hasExecutions: bool, hasReplay: bool)

  function Artifacts(from: nat, n: nat): seq<Write>
    requires from <= n
    decreases n - from
  {
    if from == n then [] else [ArtifactWrite(from)] + Artifacts(from + 1, n)
  }

  function Closing(o: Outcome): seq<Write> {
    If(o.hasExecutions, ExecutionWrite) + If(o.hasReplay, ReplayWrite)
  }

  function AfterToken(o: Outcome): seq<Write> {
    If(o.hasCheckpoint && o.hasPayload, PayloadWrite)
    + (If(o.hasApproval, ApprovalWrite) + (Artifacts(0, o.artifacts) + Closing(o)))
  }

  function Planned(o: Outcome): seq<Write> {
    If(o.hasState, StateSnapshotWrite)
    + (If(o.hasCheckpoint, CheckpointWrite)
       + (If(o.hasResumeToken, ResumeTokenWrite) + AfterToken(o)))
  }

  /** The outcome asks for the write. */
  predicate AskedFor(o: Outcome, w: Write) {
    match w
    case StateSnapshotWrite => o.hasState
    case CheckpointWrite => o.hasCheckpoint
    case ResumeTokenWrite => o.hasResumeToken
    case PayloadWrite => o.hasCheckpoint && o.hasPayload
    case ApprovalWrite => o.hasApproval
    case ArtifactWrite(index) => index < o.artifacts
    case ExecutionWrite => o.hasExecutions
    case ReplayWrite => o.hasReplay
  }

  /** State, checkpoint, resume token, payload, approval, artifacts, execution, replay. */
  function Stage(w: Write): nat {
    match w
    case StateSnapshotWrite => 0
    case CheckpointWrite => 1
    case ResumeTokenWrite => 2
    case PayloadWrite => 3
    case ApprovalWrite => 4
    case ArtifactWrite(_) => 5
    case ExecutionWrite => 6
    case ReplayWrite => 7
  }

  predicate Earlier(a: Write, b: Write) {
    Stage(a) < Stage(b) || (a.ArtifactWrite? && b.ArtifactWrite? && a.index < b.index)
  }

  /** Each write once, stage by stage, artifacts by index: the execution after all artifacts, the replay last. */
  predicate InOrder(ws: seq<Write>) {
    forall i, j :: 0 <= i < j < |ws| ==> Earlier(ws[i], ws[j])
  }

  /** Exactly what the outcome asks for, each once and in order. */
  ghost predicate Complete(o: Outcome, ws: seq<Write>) {
    (forall w :: w in ws <==> AskedFor(o, w)) && InOrder(ws)
  }

  /** A beginning of that. */
  ghost predicate Partial(o: Outcome, ws: seq<Write>) {
    && (forall w :: w in ws ==> AskedFor(o, w)) && InOrder(ws)
    && (forall v, w :: w in ws && AskedFor(o, v) && Earlier(v, w) ==> v in ws)
  }

  lemma {:induction false} ArtifactsListed(from: nat, n: nat)
    requires from <= n
    ensures forall w :: w in Artifacts(from, n) <==> w.ArtifactWrite? && from <= w.index < n
    ensures InOrder(Artifacts(from, n))
    decreases n - from
  {
    if from < n { ArtifactsListed(from + 1, n); }
  }

  lemma OrderJoins(a: seq<Write>, b: seq<Write>)
    requires InOrder(a) && InOrder(b) && forall v, w :: v in a && w in b ==> Earlier(v, w)
    ensures InOrder(a + b)
  {
  }

  /** Exactly what the outcome asks for from a stage on. */
  ghost predicate CompleteFrom(o: Outcome, ws: seq<Write>, stage: nat) {
    InOrder(ws) && forall w :: w in ws <==> AskedFor(o, w) && Stage(w) >= stage
  }

  lemma PutFirst(o: Outcome, c: bool, w: Write, rest: seq<Write>)
    requires Stage(w) < 5 && (c <==> AskedFor(o, w)) && CompleteFrom(o, rest, Stage(w) + 1)
    ensures CompleteFrom(o, If(c, w) + rest, Stage(w))
  {
    OrderJoins(If(c, w), rest);
    forall v | Stage(v) == Stage(w) ensures v == w {}
  }

  lemma ClosingComplete(o: Outcome)
    ensures CompleteFrom(o, Artifacts(0, o.artifacts) + Closing(o), 5)
  {
    ArtifactsListed(0, o.artifacts);
    OrderJoins(If(o.hasExecutions, ExecutionWrite), If(o.hasReplay, ReplayWrite));
    OrderJoins(Artifacts(0, o.artifacts), Closing(o));
  }

  /** What is planned is exactly what the outcome asks for. */
  lemma PlannedComplete(o: Outcome)
    ensures Complete(o, Planned(o))
  {
    ClosingComplete(o);
    var rest := Artifacts(0, o.artifacts) + Closing(o);
    PutFirst(o, o.hasApproval, ApprovalWrite, rest);
    rest := If(o.hasApproval, ApprovalWrite) + rest;
    PutFirst(o, o.hasCheckpoint && o.hasPayload, PayloadWrite, rest);
    rest := If(o.hasCheckpoint && o.hasPayload, PayloadWrite) + rest;
    PutFirst(o, o.hasResumeToken, ResumeTokenWrite, rest);
    rest := If(o.hasResumeToken, ResumeTokenWrite) + rest;
    PutFirst(o, o.hasCheckpoint, CheckpointWrite, rest);
    rest := If(o.hasCheckpoint, CheckpointWrite) + rest;
    PutFirst(o, o.hasState, StateSnapshotWrite, rest);
    FromTheStart(o, If(o.hasState, StateSnapshotWrite) + rest);
  }

  lemma FromTheStart(o: Outcome, ws: seq<Write>)
    requires CompleteFrom(o, ws, 0)
    ensures Complete(o, ws)
  {
  }

  lemma PlannedPartial(o: Outcome, written: seq<Write>)
    requires written <= Planned(o)
    ensures Partial(o, written) && (written == Planned(o) ==> Complete(o, written))
  {
    PlannedComplete(o);
    PrefixPartial(o, Planned(o), |written|);
  }

  lemma PrefixPartial(o: Outcome, all: seq<Write>, n: nat)
    requires Complete(o, all) && n <= |all|
    ensures Partial(o, all[..n])
  {
    forall v, w | w in all[..n] && AskedFor(o, v) && Earlier(v, w) ensures v in all[..n] {
      var i :| 0 <= i < n && all[i] == w;
      var j :| 0 <= j < |all| && all[j] == v;
      assert j < n;
    }
  }

  /** The moment the fence is checked for write `k`; moment 0 is the check at the start. */
  function CheckAt(k: nat): nat { 2 * k + 1 }

  /** The moment write `k` reaches its store. */
  function WriteAt(k: nat): nat { 2 * k + 2 }

  class OutcomeCommit {
    // What the fence validator answers at each moment, and whether the store takes each write.
    const accepts: nat -> bool
    const stores: nat -> bool
    var written: seq<Write>

    constructor (accepts: nat -> bool, stores: nat -> bool)
      ensures this.accepts == accepts && this.stores == stores && written == []
    {
      this.accepts, this.stores := accepts, stores;
      written := [];
    }

    predicate Passes(k: nat) { accepts(CheckAt(k)) && stores(k) }

    /** Every write so far passed; `rest` is still to be done. */
    ghost predicate Progress(planned: seq<Write>, rest: seq<Write>)
      reads this
    {
      planned == written + rest && forall k :: 0 <= k < |written| ==> Passes(k)
    }

    ghost predicate Halted(planned: seq<Write>)
      reads this
    {
      && |written| < |planned| && written == planned[..|written|]
      && (forall k :: 0 <= k < |written| ==> Passes(k)) && !Passes(|written|)
    }

    method GuardedWrite(present: bool, w: Write, ghost planned: seq<Write>, ghost rest: seq<Write>) returns (ok: bool)
      requires Progress(planned, If(present, w) + rest)
      modifies this
      ensures if ok then Progress(planned, rest) else Halted(planned)
    {
      if !present {
        assert [] + rest == rest;
        return true;
      }
      if !accepts(CheckAt(|written|)) { return false; }
      if !stores(|written|) { return false; }
      ghost var before := written;
      written := written + [w];
      assert before + ([w] + rest) == written + rest;
      return true;
    }

    /** The writes done are a beginning of those planned, each under a check that passed, and nothing is done past the first
        check or store that refuses. */
    method Persist(o: Outcome) returns (ok: bool)
      requires written == []
      modifies this
      ensures !accepts(0) || !o.hasRecord || o.executionId == "" ==> written == []
      ensures !accepts(0) ==> !ok
      ensures accepts(0) && !o.hasRecord ==> ok
      ensures accepts(0) && o.hasRecord && o.executionId == "" ==> !ok
      ensures accepts(0) && o.hasRecord && o.executionId != "" ==>
                if ok then Progress(Planned(o), []) else Halted(Planned(o))
      ensures ok && o.hasRecord ==> Complete(o, written)
      ensures o.hasRecord ==> Partial(o, written)
    {
      PlannedPartial(o, []);
      if !accepts(0) { return false; }
      if !o.hasRecord { return true; }
      if o.executionId == "" { return false; }
      ok := PersistWrites(o);
      if ok { assert Planned(o) == written + [] == written; }
      PlannedPartial(o, written);
    }

    /** The writes one after the other. */
    method PersistWrites(o: Outcome) returns (ok: bool)
      requires written == []
      modifies this
      ensures if ok then Progress(Planned(o), []) else Halted(Planned(o))
    {
      ghost var planned := Planned(o);
      ghost var rest := If(o.hasResumeToken, ResumeTokenWrite) + AfterToken(o);
      assert written + planned == planned;
      ok := GuardedWrite(o.hasState, StateSnapshotWrite, planned, If(o.hasCheckpoint, CheckpointWrite) + rest);
      if !ok { return; }
      ok := GuardedWrite(o.hasCheckpoint, CheckpointWrite, planned, rest);
      if !ok { return; }
      ok := GuardedWrite(o.hasResumeToken, ResumeTokenWrite, planned, AfterToken(o));
      if !ok { return; }
      ok := PersistAfterToken(o, planned);
    }

    method PersistAfterToken(o: Outcome, ghost planned: seq<Write>) returns (ok: bool)
      requires Progress(planned, AfterToken(o))
      modifies this
      ensures if ok then Progress(planned, []) else Halted(planned)
    {
      ghost var rest := Artifacts(0, o.artifacts) + Closing(o);
      ok := GuardedWrite(o.hasCheckpoint && o.hasPayload, PayloadWrite, planned, If(o.hasApproval, ApprovalWrite) + rest);
      if !ok { return; }
      ok := GuardedWrite(o.hasApproval, ApprovalWrite, planned, rest);
      if !ok { return; }
      ok := PersistArtifacts(o, planned);
      if !ok { return; }
      ok := PersistClosing(o, planned);
    }

    method PersistClosing(o: Outcome, ghost planned: seq<Write>) returns (ok: bool)
      requires Progress(planned, Closing(o))
      modifies this
      ensures if ok then Progress(planned, []) else Halted(planned)
    {
      ok := GuardedWrite(o.hasExecutions, ExecutionWrite, planned, If(o.hasReplay, ReplayWrite));
      if !ok { return; }
      assert If(o.hasReplay, ReplayWrite) + [] == If(o.hasReplay, ReplayWrite);
      ok := GuardedWrite(o.hasReplay, ReplayWrite, planned, []);
    }

    method PersistArtifacts(o: Outcome, ghost planned: seq<Write>) returns (ok: bool)
      requires Progress(planned, Artifacts(0, o.artifacts) + Closing(o))
      modifies this
      ensures if ok then Progress(planned, Closing(o)) else Halted(planned)
    {
      for i := 0 to o.artifacts
        invariant Progress(planned, Artifacts(i, o.artifacts) + Closing(o))
      {
        assert Artifacts(i, o.artifacts) + Closing(o) == [ArtifactWrite(i)] + (Artifacts(i + 1, o.artifacts) + Closing(o));
        ok := GuardedWrite(true, ArtifactWrite(i), planned, Artifacts(i + 1, o.artifacts) + Closing(o));
        if !ok { return; }
      }
      assert [] + Closing(o) == Closing(o);
      return true;
    }
  }

  // ---------- The validator is the work queue ----------

  /** Moment `t` of the commit comes after the first `when(t)` steps of a run of the queue. */
  ghost predicate Clocked(when: nat -> nat, steps: seq<Step>) {
    && (forall t: nat :: when(t) <= |steps|)
    && (forall t: nat, u: nat :: t <= u ==> when(t) <= when(u))
  }

  ghost predicate HeldAt(items: Items, steps: seq<Step>, when: nat -> nat, t: nat, fence: Fence, hash: Hash)
    requires Clocked(when, steps)
  {
    Holds(At(items, steps, when(t), hash), fence)
  }

  /** The writes that may be done when every store takes them: each needs the lease at its check. */
  ghost predicate Allowed(items: Items, steps: seq<Step>, when: nat -> nat, n: nat, fence: Fence, hash: Hash)
    requires Clocked(when, steps)
  {
    HeldAt(items, steps, when, 0, fence, hash) && forall k: nat :: k < n ==> HeldAt(items, steps, when, CheckAt(k), fence, hash)
  }

  lemma LostEarlier(items: Items, steps: seq<Step>, when: nat -> nat, t: nat, u: nat, fence: Fence, hash: Hash)
    requires Clocked(when, steps) && Consistent(items) && NeverRevived(items, steps, fence, hash) && t <= u
    requires HeldAt(items, steps, when, 0, fence, hash) && HeldAt(items, steps, when, u, fence, hash)
    ensures HeldAt(items, steps, when, t, fence, hash)
  {
    if !HeldAt(items, steps, when, t, fence, hash) {
      LostLeaseStaysLost(items, steps, fence, when(0), when(t), when(u), hash);
      assert false;
    }
  }

  /** Whatever the other workers do meanwhile, of the writes done only the last can land after the lease was lost. */
  lemma OnlyLastWriteLate(items: Items, steps: seq<Step>, when: nat -> nat, n: nat, fence: Fence, hash: Hash)
    requires Clocked(when, steps) && Consistent(items) && NeverRevived(items, steps, fence, hash)
    requires Allowed(items, steps, when, n, fence, hash)
    ensures forall k: nat :: k + 1 < n ==> HeldAt(items, steps, when, WriteAt(k), fence, hash)
  {
    forall k: nat | k + 1 < n ensures HeldAt(items, steps, when, WriteAt(k), fence, hash) {
      assert HeldAt(items, steps, when, CheckAt(k + 1), fence, hash);
      LostEarlier(items, steps, when, WriteAt(k), CheckAt(k + 1), fence, hash);
    }
  }

  /** When the lease is lost between moments `lost - 1` and `lost`, exactly the writes checked before that are done, and
      one of them lands late exactly when the loss falls between its check and its store. */
  lemma WritesUntilLoss(items: Items, steps: seq<Step>, when: nat -> nat, lost: nat, fence: Fence, hash: Hash)
    requires Clocked(when, steps) && Consistent(items) && NeverRevived(items, steps, fence, hash)
    requires HeldAt(items, steps, when, 0, fence, hash)
    requires LostAt(items, steps, when, lost, fence, hash)
    ensures forall n: nat :: Allowed(items, steps, when, n, fence, hash) <==> n <= lost / 2
    ensures (exists k: nat :: k < lost / 2 && !HeldAt(items, steps, when, WriteAt(k), fence, hash)) <==> lost % 2 == 0
  {
    HeldIffBefore(items, steps, when, lost, fence, hash);
    forall n: nat ensures Allowed(items, steps, when, n, fence, hash) <==> n <= lost / 2 {
      if n > lost / 2 { assert !HeldAt(items, steps, when, CheckAt(lost / 2), fence, hash); }
    }
    if lost % 2 == 0 { assert !HeldAt(items, steps, when, WriteAt(lost / 2 - 1), fence, hash); }
  }

  lemma HeldIffBefore(items: Items, steps: seq<Step>, when: nat -> nat, lost: nat, fence: Fence, hash: Hash)
    requires Clocked(when, steps) && Consistent(items) && NeverRevived(items, steps, fence, hash)
    requires HeldAt(items, steps, when, 0, fence, hash)
    requires LostAt(items, steps, when, lost, fence, hash)
    ensures forall t: nat :: HeldAt(items, steps, when, t, fence, hash) <==> t < lost
  {
    forall t: nat ensures HeldAt(items, steps, when, t, fence, hash) <==> t < lost {
      if t < lost {
        LostEarlier(items, steps, when, t, lost - 1, fence, hash);
      } else if HeldAt(items, steps, when, t, fence, hash) {
        LostEarlier(items, steps, when, lost, t, fence, hash);
        assert false;
      }
    }
  }

  ghost predicate LostAt(items: Items, steps: seq<Step>, when: nat -> nat, lost: nat, fence: Fence, hash: Hash)
    requires Clocked(when, steps)
  {
    && lost > 0 && HeldAt(items, steps, when, lost - 1, fence, hash) && !HeldAt(items, steps, when, lost, fence, hash)
  }

  /** One of the first `n` writes reaches its store after the lease was lost. */
  ghost predicate LateWrite(items: Items, steps: seq<Step>, when: nat -> nat, n: nat, fence: Fence, hash: Hash)
    requires Clocked(when, steps)
  {
    exists k: nat :: k < n && !HeldAt(items, steps, when, WriteAt(k), fence, hash)
  }

  /** Between the check and the store of write `k` the queue runs an operation that costs the lease, and none that gives it
      back. */
  ghost predicate LosesBetween(items: Items, steps: seq<Step>, when: nat -> nat, k: nat, fence: Fence, hash: Hash) {
    exists i: nat :: when(CheckAt(k)) <= i && LosesUntil(items, steps, fence, i, when(WriteAt(k)), hash)
  }

  /** Whatever arrives, a write lands late exactly when, between its check and its store, the work is ended, its expired
      lease is reclaimed or its item is overwritten by another arrival, and the lease is not given back. */
  lemma LateIffLoses(items: Items, steps: seq<Step>, when: nat -> nat, n: nat, fence: Fence, hash: Hash)
    requires Clocked(when, steps) && Consistent(items)
    requires Allowed(items, steps, when, n, fence, hash)
    ensures LateWrite(items, steps, when, n, fence, hash) <==>
              exists k: nat :: k < n && LosesBetween(items, steps, when, k, fence, hash)
  {
    forall k: nat | k < n
      ensures !HeldAt(items, steps, when, WriteAt(k), fence, hash) <==> LosesBetween(items, steps, when, k, fence, hash)
    {
      assert HeldAt(items, steps, when, CheckAt(k), fence, hash);
      LostBetweenIff(items, steps, fence, when(CheckAt(k)), when(WriteAt(k)), hash);
    }
  }

  /** Of a plan of `planned` writes, one lands late exactly when the loss falls between the check and the store of a write
      that is planned. */
  lemma LateWithinPlan(items: Items, steps: seq<Step>, when: nat -> nat, planned: nat, lost: nat, n: nat, fence: Fence, hash: Hash)
    requires Clocked(when, steps) && Consistent(items) && NeverRevived(items, steps, fence, hash)
    requires HeldAt(items, steps, when, 0, fence, hash) && LostAt(items, steps, when, lost, fence, hash)
    requires n == if planned <= lost / 2 then planned else lost / 2
    ensures LateWrite(items, steps, when, n, fence, hash) <==> lost % 2 == 0 && lost / 2 <= planned
  {
    HeldIffBefore(items, steps, when, lost, fence, hash);
    if lost % 2 == 0 && lost / 2 <= planned {
      assert !HeldAt(items, steps, when, WriteAt(lost / 2 - 1), fence, hash);
    }
  }

  /** A run in which it happens: the lease expires and is reclaimed right after the check of the first write. */
  lemma LateWriteExample(hash: Hash) returns (items: Items, steps: seq<Step>, when: nat -> nat, fence: Fence)
    ensures Clocked(when, steps) && Consistent(items) && UnclaimedArrivals(steps) && NeverRevived(items, steps, fence, hash)
    ensures HeldAt(items, steps, when, 0, fence, hash) && LostAt(items, steps, when, WriteAt(0), fence, hash)
    ensures Allowed(items, steps, when, 1, fence, hash) && LateWrite(items, steps, when, 1, fence, hash)
  {
    var item := WorkItem("w", "", Claimed, "", 0, Some(0), None, None, 0, "", 1, "l", 1, "c", "p", Some(5));
    items, steps := map["w" := item], [ReclaimStep(5)];
    when := (t: nat) => if t < 2 then 0 else 1;
    fence := Fence("w", "l", 1, "p");
    assert "w" != "" by { assert |"w"| == 1; }
    assert steps[..0] == [] && steps[..1] == steps && steps[1..] == [];
    assert At(items, steps, 0, hash) == items;
    NextState(items, steps, 0, hash);
    assert At(items, steps, 1, hash) == AfterReclaim(items, 5);
    assert CheckAt(0) == 1 && WriteAt(0) == 2;
    assert !HeldAt(items, steps, when, WriteAt(0), fence, hash);
  }

  /** A commit whose validator is the queue. A write of it lands late exactly when an operation of the queue costs the lease
      between check and store. With stores that take everything, the moment of the loss fixes how many of the planned
      writes are done and whether the last is late. */
  method PersistLeased(o: Outcome, accepts: nat -> bool, stores: nat -> bool,
                       ghost items: Items, ghost steps: seq<Step>, ghost when: nat -> nat, ghost fence: Fence, ghost hash: Hash)
    returns (written: seq<Write>, ok: bool)
    requires Clocked(when, steps) && Consistent(items)
    requires forall t: nat :: accepts(t) <==> HeldAt(items, steps, when, t, fence, hash)
    ensures written <= Planned(o) && (ok && o.hasRecord ==> written == Planned(o) && Complete(o, written))
    ensures NeverRevived(items, steps, fence, hash) ==>
              forall k: nat :: k + 1 < |written| ==> HeldAt(items, steps, when, WriteAt(k), fence, hash)
    ensures !HeldAt(items, steps, when, 0, fence, hash) ==> written == []
    ensures LateWrite(items, steps, when, |written|, fence, hash) <==>
              exists k: nat :: k < |written| && LosesBetween(items, steps, when, k, fence, hash)
    ensures forall lost: nat ::
              NeverRevived(items, steps, fence, hash)
              && HeldAt(items, steps, when, 0, fence, hash) && LostAt(items, steps, when, lost, fence, hash)
              && o.hasRecord && o.executionId != "" && (forall k: nat :: stores(k)) ==>
                && |written| == (if |Planned(o)| <= lost / 2 then |Planned(o)| else lost / 2)
                && (LateWrite(items, steps, when, |written|, fence, hash) <==> lost % 2 == 0 && lost / 2 <= |Planned(o)|)
  {
    var commit := new OutcomeCommit(accepts, stores);
    ok := commit.Persist(o);
    written := commit.written;
    if accepts(0) && o.hasRecord && o.executionId != "" {
      forall k: nat | k < |written| ensures HeldAt(items, steps, when, CheckAt(k), fence, hash) {
        assert commit.Passes(k);
      }
      if NeverRevived(items, steps, fence, hash) { OnlyLastWriteLate(items, steps, when, |written|, fence, hash); }
      LateIffLoses(items, steps, when, |written|, fence, hash);
      forall lost: nat |
        NeverRevived(items, steps, fence, hash) && LostAt(items, steps, when, lost, fence, hash) && (forall k: nat :: stores(k))
        ensures |written| == (if |Planned(o)| <= lost / 2 then |Planned(o)| else lost / 2)
        ensures LateWrite(items, steps, when, |written|, fence, hash) <==> lost % 2 == 0 && lost / 2 <= |Planned(o)|
      {
        WritesUntilLoss(items, steps, when, lost, fence, hash);
        assert Allowed(items, steps, when, |written|, fence, hash);
        if !ok {
          assert !commit.Passes(|written|);
          assert !Allowed(items, steps, when, |written| + 1, fence, hash);
        }
        LateWithinPlan(items, steps, when, |Planned(o)|, lost, |written|, fence, hash);
      }
    }
  }
}
