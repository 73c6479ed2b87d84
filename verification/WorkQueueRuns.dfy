/** Runs of the work queue: any interleaving of any workers' calls. A fence that has lost its lease is rejected for
    ever, so a stale worker never changes an item it no longer holds. */
module WorkQueueRuns {
  import Ranking
  import Text
  import opened Wrappers
  import opened WorkQueue

  datatype Step =
    | EnqueueStep(item: WorkItem)
    | ClaimStep(worker: string, limit: int, now: int, ttl: int)
    | HeartbeatStep(fence: Fence, recordedAt: int, expiresAt: int)
    | CompleteStep(fence: Fence, at: int)
    | FailStep(fence: Fence, summary: string, at: int)
    | RequeueStep(fence: Fence, nextAt: int, reason: string, at: int)
    | ReclaimStep(now: int)

  ghost function Apply(items: Items, step: Step, hash: Hash): Items {
    match step
    case EnqueueStep(item) => AfterEnqueue(items, item)
    case ClaimStep(worker, limit, now, ttl) => AfterClaim(items, Chosen(items, limit, now), worker, now, ttl, hash)
    case HeartbeatStep(fence, recordedAt, expiresAt) => AfterHeartbeat(items, fence, recordedAt, expiresAt)
    case CompleteStep(fence, at) => AfterFinish(items, fence, Completed, "", at)
    case FailStep(fence, summary, at) => AfterFinish(items, fence, Failed, summary, at)
    case RequeueStep(fence, nextAt, reason, at) => AfterRequeue(items, fence, nextAt, reason, at)
    case ReclaimStep(now) => AfterReclaim(items, now)
  }

  ghost function Run(items: Items, steps: seq<Step>, hash: Hash): Items
    decreases steps
  {
    if steps == [] then items else Run(Apply(items, steps[0], hash), steps[1..], hash)
  }

  /** Producers hand over items that are not yet claimed by anyone. */
  predicate UnclaimedArrivals(steps: seq<Step>) {
    forall i :: 0 <= i < |steps| && steps[i].EnqueueStep? ==> steps[i].item.status != Claimed
  }

  /** The fence's lease is over: the item has been claimed again since, or is not claimed at all. */
  predicate Retired(items: Items, fence: Fence) {
    && fence.itemId in items
    && (items[fence.itemId].fencingToken > fence.token
        || (items[fence.itemId].fencingToken == fence.token && items[fence.itemId].status != Claimed))
  }

  // ---------- One step ----------

  lemma StepConsistent(items: Items, step: Step, hash: Hash)
    requires Consistent(items)
    ensures Consistent(Apply(items, step, hash))
  {
    match step
    case EnqueueStep(item) => EnqueueConsistent(items, item);
    case ClaimStep(worker, limit, now, ttl) =>
      ChosenDistinct(items, limit, now);
      ClaimConsistent(items, Chosen(items, limit, now), worker, now, ttl, hash);
    case HeartbeatStep(fence, recordedAt, expiresAt) => HeartbeatConsistent(items, fence, recordedAt, expiresAt);
    case CompleteStep(fence, at) => FinishConsistent(items, fence, Completed, "", at);
    case FailStep(fence, summary, at) => FinishConsistent(items, fence, Failed, summary, at);
    case RequeueStep(fence, nextAt, reason, at) => RequeueConsistent(items, fence, nextAt, reason, at);
    case ReclaimStep(now) => ReclaimConsistent(items, now);
  }

  lemma HeartbeatConsistent(items: Items, fence: Fence, recordedAt: int, expiresAt: int)
    requires Consistent(items)
    ensures Consistent(AfterHeartbeat(items, fence, recordedAt, expiresAt))
  {
  }

  lemma FinishConsistent(items: Items, fence: Fence, status: Status, summary: string, at: int)
    requires Consistent(items) && status in {Completed, Failed}
    ensures Consistent(AfterFinish(items, fence, status, summary, at))
  {
  }

  lemma RequeueConsistent(items: Items, fence: Fence, nextAt: int, reason: string, at: int)
    requires Consistent(items)
    ensures Consistent(AfterRequeue(items, fence, nextAt, reason, at))
  {
  }

  /** No item disappears and no token goes down. */
  lemma TokensNeverDrop(items: Items, step: Step, hash: Hash)
    requires Consistent(items)
    ensures forall id :: id in items ==>
              id in Apply(items, step, hash) && Apply(items, step, hash)[id].fencingToken >= items[id].fencingToken
  {
    forall id | id in items
      ensures id in Apply(items, step, hash) && Apply(items, step, hash)[id].fencingToken >= items[id].fencingToken
    {
      match step
      case EnqueueStep(item) =>
      case ClaimStep(worker, limit, now, ttl) =>
      case HeartbeatStep(fence, recordedAt, expiresAt) =>
      case CompleteStep(fence, at) =>
      case FailStep(fence, summary, at) =>
      case RequeueStep(fence, nextAt, reason, at) =>
      case ReclaimStep(now) =>
    }
  }

  lemma RetiredIsRejected(items: Items, fence: Fence)
    requires Retired(items, fence)
    ensures !Holds(items, fence)
    ensures forall recordedAt, expiresAt :: AfterHeartbeat(items, fence, recordedAt, expiresAt) == items
    ensures forall status, summary, now :: AfterFinish(items, fence, status, summary, now) == items
    ensures forall nextAt, reason, now :: AfterRequeue(items, fence, nextAt, reason, now) == items
  {
    assert FenceError(items, fence).Some?;
  }

  /** The one step that can bring a retired lease back: an arrival that overwrites the item as already claimed. */
  ghost predicate Resurrects(items: Items, step: Step, fence: Fence) {
    && step.EnqueueStep? && step.item.id == fence.itemId && step.item.status == Claimed
    && fence.itemId != "" && !Duplicated(items, step.item.dedupeKey)
    && fence.itemId in items && items[fence.itemId].fencingToken == fence.token
  }

  lemma RetiredStep(items: Items, step: Step, fence: Fence, hash: Hash)
    requires Consistent(items) && Retired(items, fence)
    ensures Retired(Apply(items, step, hash), fence) <==> !Resurrects(items, step, fence)
  {
    TokensNeverDrop(items, step, hash);
  }

  /** The fence has had its time: its item is stored under its token or a later one, and it does not hold. */
  predicate Spent(items: Items, fence: Fence) {
    fence.itemId in items && items[fence.itemId].fencingToken >= fence.token && !Holds(items, fence)
  }

  /** The one step that makes a spent fence hold again: an arrival, marked claimed, that carries its very lease. */
  ghost predicate Revives(items: Items, step: Step, fence: Fence) {
    Resurrects(items, step, fence) && step.item.leaseId == fence.leaseId && step.item.workerId == fence.workerId
  }

  lemma RetiredIsSpent(items: Items, fence: Fence)
    requires Retired(items, fence)
    ensures Spent(items, fence)
  {
  }

  /** From a spent state the fence holds after a step exactly if the step revives it, and else stays spent. */
  lemma SpentStep(items: Items, step: Step, fence: Fence, hash: Hash)
    requires Consistent(items) && Spent(items, fence)
    ensures Holds(Apply(items, step, hash), fence) <==> Revives(items, step, fence)
    ensures !Revives(items, step, fence) ==> Spent(Apply(items, step, hash), fence)
  {
    TokensNeverDrop(items, step, hash);
    match step
    case ClaimStep(worker, limit, now, ttl) => ClaimStepSpent(items, worker, limit, now, ttl, fence, hash);
    case EnqueueStep(item) =>
    case HeartbeatStep(f, recordedAt, expiresAt) =>
    case CompleteStep(f, at) =>
    case FailStep(f, summary, at) =>
    case RequeueStep(f, nextAt, reason, at) =>
    case ReclaimStep(now) =>
  }

  lemma ClaimStepSpent(items: Items, worker: string, limit: int, now: int, ttl: int, fence: Fence, hash: Hash)
    requires Consistent(items) && Spent(items, fence)
    ensures !Holds(Apply(items, ClaimStep(worker, limit, now, ttl), hash), fence)
  {
    var after := Apply(items, ClaimStep(worker, limit, now, ttl), hash);
    if items[fence.itemId] in Chosen(items, limit, now) {
      assert after[fence.itemId].fencingToken == items[fence.itemId].fencingToken + 1;
    } else {
      assert after[fence.itemId] == items[fence.itemId];
    }
  }

  predicate Ends(step: Step, fence: Fence) {
    match step
    case CompleteStep(f, _) => f == fence
    case FailStep(f, _, _) => f == fence
    case RequeueStep(f, _, _, _) => f == fence
    case _ => false
  }

  predicate Uses(step: Step, fence: Fence) {
    Ends(step, fence) || (step.HeartbeatStep? && step.fence == fence)
  }

  /** A claim call touches ready items only. */
  lemma ClaimLeaves(items: Items, id: string, worker: string, limit: int, now: int, ttl: int, hash: Hash)
    requires Consistent(items) && id in items && items[id].status != Queued
    ensures id in Apply(items, ClaimStep(worker, limit, now, ttl), hash)
    ensures Apply(items, ClaimStep(worker, limit, now, ttl), hash)[id] == items[id]
  {
    ChosenDistinct(items, limit, now);
    assert items[id] !in Chosen(items, limit, now);
  }

  /** The operations that cost a held fence its lease: its own worker ends the work, a reclaim pass finds the lease
      expired, or an arrival overwrites the item with anything but the same lease. */
  ghost predicate Loses(items: Items, step: Step, fence: Fence)
    requires Holds(items, fence)
  {
    match step
    case ReclaimStep(now) => Expired(items[fence.itemId], now)
    case EnqueueStep(item) =>
      && item.id == fence.itemId && item.id != "" && !Duplicated(items, item.dedupeKey)
      && !(item.status == Claimed && item.leaseId == fence.leaseId && item.workerId == fence.workerId)
    case _ => Ends(step, fence)
  }

  /** Exactly those operations do. */
  lemma LosesIff(items: Items, step: Step, fence: Fence, hash: Hash)
    requires Consistent(items) && Holds(items, fence)
    ensures !Holds(Apply(items, step, hash), fence) <==> Loses(items, step, fence)
  {
    match step
    case ClaimStep(worker, limit, now, ttl) =>
      ClaimLeaves(items, fence.itemId, worker, limit, now, ttl, hash);
    case EnqueueStep(item) =>
    case HeartbeatStep(f, recordedAt, expiresAt) =>
    case CompleteStep(f, at) => OneHolder(items, f, fence);
    case FailStep(f, summary, at) => OneHolder(items, f, fence);
    case RequeueStep(f, nextAt, reason, at) => OneHolder(items, f, fence);
    case ReclaimStep(now) =>
  }

  lemma OneHolder(items: Items, f: Fence, fence: Fence)
    requires Holds(items, fence)
    ensures Holds(items, f) && f.itemId == fence.itemId ==> f == fence
  {
  }

  /** From a state where the fence holds, a step that costs the lease leaves it spent, and retired unless the step is an
      arrival marked claimed; any other step leaves it holding. */
  lemma HeldStep(items: Items, step: Step, fence: Fence, hash: Hash)
    requires Consistent(items) && Holds(items, fence)
    ensures if Loses(items, step, fence) then Spent(Apply(items, step, hash), fence) else Holds(Apply(items, step, hash), fence)
    ensures Loses(items, step, fence) && (step.EnqueueStep? ==> step.item.status != Claimed) ==>
              Retired(Apply(items, step, hash), fence)
  {
    TokensNeverDrop(items, step, hash);
    LosesIff(items, step, fence, hash);
    if step.EnqueueStep? ==> step.item.status != Claimed { HeldOrRetired(items, step, fence, hash); }
  }

  lemma HeldOrRetired(items: Items, step: Step, fence: Fence, hash: Hash)
    requires Consistent(items) && Holds(items, fence)
    requires step.EnqueueStep? ==> step.item.status != Claimed
    ensures Holds(Apply(items, step, hash), fence) || Retired(Apply(items, step, hash), fence)
  {
    if step.ClaimStep? {
      ClaimLeaves(items, fence.itemId, step.worker, step.limit, step.now, step.ttl, hash);
    }
  }

  /** Completing, failing or requeueing an item, and reclaiming its lease once expired, each retire the fence. */
  lemma EndingRetires(items: Items, step: Step, fence: Fence, hash: Hash)
    requires Consistent(items) && Holds(items, fence)
    requires Ends(step, fence) || (step.ReclaimStep? && Expired(items[fence.itemId], step.now))
    ensures Retired(Apply(items, step, hash), fence)
  {
  }

  /** While an item stays claimed, no step but an arrival hands its lease to somebody else. */
  lemma LeaseIsExclusive(items: Items, step: Step, id: string, hash: Hash)
    requires Consistent(items) && id in items && items[id].status == Claimed && !step.EnqueueStep?
    requires Apply(items, step, hash)[id].status == Claimed
    ensures Apply(items, step, hash)[id].fencingToken == items[id].fencingToken
    ensures Apply(items, step, hash)[id].leaseId == items[id].leaseId
    ensures Apply(items, step, hash)[id].workerId == items[id].workerId
  {
    if step.ClaimStep? {
      ClaimLeaves(items, id, step.worker, step.limit, step.now, step.ttl, hash);
    }
  }

  /** A reclaim pass takes no lease before its expiry, so a worker that renews in time keeps its claim. */
  lemma RenewedLeaseSurvives(items: Items, fence: Fence, recordedAt: int, expiresAt: int, now: int)
    requires Consistent(items) && Holds(items, fence) && now < expiresAt
    ensures Holds(AfterReclaim(AfterHeartbeat(items, fence, recordedAt, expiresAt), now), fence)
  {
  }

  /** Work that has ended is not touched again unless a new arrival overwrites it. */
  lemma EndedWorkStays(items: Items, step: Step, id: string, hash: Hash)
    requires Consistent(items) && id in items && !Active(items[id]) && !step.EnqueueStep?
    ensures Apply(items, step, hash)[id] == items[id]
  {
    if step.ClaimStep? {
      ClaimLeaves(items, id, step.worker, step.limit, step.now, step.ttl, hash);
    }
  }

  /** A claim serves the longest-available items: nothing left behind comes before anything taken. */
  lemma OldestFirst(items: Items, limit: int, now: int, taken: WorkItem, left: WorkItem)
    requires Consistent(items) && taken in Chosen(items, limit, now)
    requires left in ReadySet(items, now) && left !in Chosen(items, limit, now)
    ensures taken.availableAt < left.availableAt || (taken.availableAt == left.availableAt && Text.Less(taken.id, left.id))
    ensures |Chosen(items, limit, now)| == if limit <= 0 then 1 else limit
  {
    ReadyIdentified(items, now);
    var all := Ranking.SortedSet(ReadySet(items, now), QueueKey);
    Ranking.SortedSetCorrect(ReadySet(items, now), QueueKey);
    assert left in all;
    assert Batch(limit) < |all|;
    Ranking.KeptBeforeDropped(all, Batch(limit), taken, left, QueueKey);
  }

  lemma RoomForAll(items: Items, limit: int, now: int, id: string)
    requires Consistent(items) && id in items && Ready(items[id], now)
    requires |ReadySet(items, now)| <= Batch(limit)
    ensures items[id] in Chosen(items, limit, now)
  {
    ReadyIdentified(items, now);
    Ranking.SortedSetCorrect(ReadySet(items, now), QueueKey);
    assert items[id] in ReadySet(items, now);
  }

  /** The fence of a fresh claim. */
  function FreshFence(item: WorkItem, worker: string, now: int, hash: Hash): Fence {
    var token := item.fencingToken + 1;
    Fence(item.id, hash("lease", item.id, token, worker, now), token, worker)
  }

  lemma ClaimGrantsLease(items: Items, chosen: seq<WorkItem>, id: string, worker: string, now: int, ttl: int, hash: Hash)
    requires id in items && items[id].id == id && items[id] in chosen
    ensures Holds(AfterClaim(items, chosen, worker, now, ttl, hash), FreshFence(items[id], worker, now, hash))
    ensures forall fence: Fence :: fence.itemId == id && fence.token <= items[id].fencingToken ==>
              Retired(AfterClaim(items, chosen, worker, now, ttl, hash), fence)
  {
  }

  /** A crashed worker's item comes back: once its lease is reclaimed, the next claim call with room for every ready
      item leases it under the next token, and the crashed worker's fence is dead. */
  lemma CrashRecovery(items: Items, reclaimed: Items, fence: Fence, now: int,
                      worker: string, limit: int, later: int, ttl: int, hash: Hash)
    requires Consistent(items) && Holds(items, fence) && Expired(items[fence.itemId], now)
    requires reclaimed == Apply(items, ReclaimStep(now), hash)
    requires items[fence.itemId].availableAt <= later && |ReadySet(reclaimed, later)| <= Batch(limit)
    ensures Retired(Apply(reclaimed, ClaimStep(worker, limit, later, ttl), hash), fence)
    ensures Holds(Apply(reclaimed, ClaimStep(worker, limit, later, ttl), hash),
                  FreshFence(items[fence.itemId], worker, later, hash))
  {
    ReclaimMakesReady(items, fence, now, later);
    ReclaimConsistent(items, now);
    RoomForAll(reclaimed, limit, later, fence.itemId);
    ClaimGrantsLease(reclaimed, Chosen(reclaimed, limit, later), fence.itemId, worker, later, ttl, hash);
    assert FreshFence(items[fence.itemId], worker, later, hash) == FreshFence(reclaimed[fence.itemId], worker, later, hash);
  }

  lemma ReclaimMakesReady(items: Items, fence: Fence, now: int, later: int)
    requires Consistent(items) && Holds(items, fence) && Expired(items[fence.itemId], now)
    requires items[fence.itemId].availableAt <= later
    ensures fence.itemId in AfterReclaim(items, now)
    ensures var item := AfterReclaim(items, now)[fence.itemId];
            Ready(item, later) && item.id == fence.itemId && item.fencingToken == fence.token
            && item.fencingToken == items[fence.itemId].fencingToken
  {
  }

  // ---------- Whole runs ----------

  lemma {:induction false} RunSplit(items: Items, first: seq<Step>, rest: seq<Step>, hash: Hash)
    ensures Run(items, first + rest, hash) == Run(Run(items, first, hash), rest, hash)
    decreases first
  {
    if first == [] {
      assert first + rest == rest;
    } else {
      assert (first + rest)[1..] == first[1..] + rest;
      RunSplit(Apply(items, first[0], hash), first[1..], rest, hash);
    }
  }

  lemma {:induction false} RunConsistent(items: Items, steps: seq<Step>, hash: Hash)
    requires Consistent(items)
    ensures Consistent(Run(items, steps, hash))
    ensures forall id :: id in items ==>
              id in Run(items, steps, hash) && Run(items, steps, hash)[id].fencingToken >= items[id].fencingToken
    decreases steps
  {
    if steps != [] {
      StepConsistent(items, steps[0], hash);
      TokensNeverDrop(items, steps[0], hash);
      RunConsistent(Apply(items, steps[0], hash), steps[1..], hash);
    }
  }

  lemma {:induction false} RetiredForever(items: Items, steps: seq<Step>, fence: Fence, hash: Hash)
    requires Consistent(items) && UnclaimedArrivals(steps) && Retired(items, fence)
    ensures Retired(Run(items, steps, hash), fence)
    decreases steps
  {
    if steps != [] {
      StepConsistent(items, steps[0], hash);
      RetiredStep(items, steps[0], fence, hash);
      RetiredForever(Apply(items, steps[0], hash), steps[1..], fence, hash);
    }
  }

  /** The state before step `i`. */
  ghost function At(items: Items, steps: seq<Step>, i: nat, hash: Hash): Items
    requires i <= |steps|
  {
    Run(items, steps[..i], hash)
  }

  lemma Between(items: Items, steps: seq<Step>, i: nat, j: nat, hash: Hash)
    requires i <= j <= |steps|
    ensures At(items, steps, j, hash) == Run(At(items, steps, i, hash), steps[i..j], hash)
    ensures UnclaimedArrivals(steps) ==> UnclaimedArrivals(steps[i..j])
  {
    assert steps[..j] == steps[..i] + steps[i..j];
    RunSplit(items, steps[..i], steps[i..j], hash);
  }

  lemma NextState(items: Items, steps: seq<Step>, i: nat, hash: Hash)
    requires i < |steps|
    ensures At(items, steps, i + 1, hash) == Apply(At(items, steps, i, hash), steps[i], hash)
  {
    Between(items, steps, i, i + 1, hash);
    assert steps[i..i + 1] == [steps[i]];
    assert Run(At(items, steps, i, hash), [steps[i]], hash)
        == Run(Apply(At(items, steps, i, hash), steps[i], hash), [steps[i]][1..], hash);
  }

  /** Step `k` of the run revives the fence. */
  ghost predicate RevivesAt(items: Items, steps: seq<Step>, fence: Fence, k: nat, hash: Hash) {
    k < |steps| && Revives(At(items, steps, k, hash), steps[k], fence)
  }

  ghost predicate NeverRevived(items: Items, steps: seq<Step>, fence: Fence, hash: Hash) {
    forall k: nat :: !RevivesAt(items, steps, fence, k, hash)
  }

  lemma UnclaimedNeverRevive(items: Items, steps: seq<Step>, fence: Fence, hash: Hash)
    requires UnclaimedArrivals(steps)
    ensures NeverRevived(items, steps, fence, hash)
  {
  }

  /** After a fence has held or been spent, not holding means being spent. */
  lemma SpentLater(items: Items, steps: seq<Step>, fence: Fence, i: nat, j: nat, hash: Hash)
    requires Consistent(items) && i <= j <= |steps| && !Holds(At(items, steps, j, hash), fence)
    requires Holds(At(items, steps, i, hash), fence) || Spent(At(items, steps, i, hash), fence)
    ensures Spent(At(items, steps, j, hash), fence)
  {
    RunConsistent(items, steps[..i], hash);
    Between(items, steps, i, j, hash);
    RunConsistent(At(items, steps, i, hash), steps[i..j], hash);
  }

  /** A fence that is spent and later holds was revived by a step in between. */
  lemma {:induction false} RevivedBetween(items: Items, steps: seq<Step>, fence: Fence, j: nat, k: nat, hash: Hash)
    returns (m: nat)
    requires Consistent(items) && j <= k <= |steps|
    requires Spent(At(items, steps, j, hash), fence) && Holds(At(items, steps, k, hash), fence)
    ensures j <= m < k && RevivesAt(items, steps, fence, m, hash)
    decreases k
  {
    m := k - 1;
    if Holds(At(items, steps, m, hash), fence) {
      m := RevivedBetween(items, steps, fence, j, m, hash);
    } else {
      SpentLater(items, steps, fence, j, m, hash);
      RunConsistent(items, steps[..m], hash);
      NextState(items, steps, m, hash);
      SpentStep(At(items, steps, m, hash), steps[m], fence, hash);
    }
  }

  ghost predicate HeldFrom(items: Items, steps: seq<Step>, fence: Fence, j: nat, hash: Hash) {
    exists k: nat :: j <= k <= |steps| && Holds(At(items, steps, k, hash), fence)
  }

  ghost predicate RevivedFrom(items: Items, steps: seq<Step>, fence: Fence, j: nat, hash: Hash) {
    exists k: nat :: j <= k && RevivesAt(items, steps, fence, k, hash)
  }

  /** In every run, whatever arrives, a spent fence holds again at some later moment exactly when an arrival that carries
      its lease revives it. */
  lemma RegainedIff(items: Items, steps: seq<Step>, fence: Fence, j: nat, hash: Hash)
    requires Consistent(items) && j <= |steps| && Spent(At(items, steps, j, hash), fence)
    ensures HeldFrom(items, steps, fence, j, hash) <==> RevivedFrom(items, steps, fence, j, hash)
  {
    if k: nat :| j <= k <= |steps| && Holds(At(items, steps, k, hash), fence) {
      var m := RevivedBetween(items, steps, fence, j, k, hash);
    }
    if k: nat :| j <= k && RevivesAt(items, steps, fence, k, hash) {
      if !Holds(At(items, steps, k, hash), fence) {
        SpentLater(items, steps, fence, j, k, hash);
        RunConsistent(items, steps[..k], hash);
        NextState(items, steps, k, hash);
        SpentStep(At(items, steps, k, hash), steps[k], fence, hash);
        assert Holds(At(items, steps, k + 1, hash), fence);
      }
    }
  }

  /** In every run, once a fence that held is found not to hold, it never holds again unless it is revived in between. */
  lemma LostLeaseStaysLost(items: Items, steps: seq<Step>, fence: Fence, i: nat, j: nat, k: nat, hash: Hash)
    requires Consistent(items) && i <= j <= k <= |steps|
    requires forall m: nat :: j <= m < k ==> !RevivesAt(items, steps, fence, m, hash)
    requires Holds(At(items, steps, i, hash), fence) && !Holds(At(items, steps, j, hash), fence)
    ensures !Holds(At(items, steps, k, hash), fence)
  {
    SpentLater(items, steps, fence, i, j, hash);
    if Holds(At(items, steps, k, hash), fence) {
      var m := RevivedBetween(items, steps, fence, j, k, hash);
      assert false;
    }
  }

  /** Step `k` costs the lease, and no step from then to `j` gives it back. */
  ghost predicate LosesUntil(items: Items, steps: seq<Step>, fence: Fence, k: nat, j: nat, hash: Hash) {
    && k < j && LosesAt(items, steps, fence, k, hash)
    && forall m: nat :: k < m < j ==> !RevivesAt(items, steps, fence, m, hash)
  }

  /** In every run, whatever arrives, a fence that held no longer holds exactly when some step since cost the lease and none
      gave it back. */
  lemma LostBetweenIff(items: Items, steps: seq<Step>, fence: Fence, i: nat, j: nat, hash: Hash)
    requires Consistent(items) && i <= j <= |steps| && Holds(At(items, steps, i, hash), fence)
    ensures !Holds(At(items, steps, j, hash), fence) <==> exists k: nat :: i <= k && LosesUntil(items, steps, fence, k, j, hash)
  {
    if !Holds(At(items, steps, j, hash), fence) {
      var k := LastHeld(items, steps, fence, i, j, hash);
    }
    if k: nat :| i <= k && LosesUntil(items, steps, fence, k, j, hash) {
      RunConsistent(items, steps[..k], hash);
      NextState(items, steps, k, hash);
      LosesIff(At(items, steps, k, hash), steps[k], fence, hash);
      LostLeaseStaysLost(items, steps, fence, k, k + 1, j, hash);
    }
  }

  /** What was lost stays lost in a step that does not revive it. */
  lemma LossLasts(items: Items, steps: seq<Step>, fence: Fence, k: nat, j: nat, hash: Hash)
    requires j < |steps| && Consistent(At(items, steps, j, hash)) && LosesUntil(items, steps, fence, k, j, hash)
    requires Spent(At(items, steps, j, hash), fence) && !Holds(At(items, steps, j + 1, hash), fence)
    ensures LosesUntil(items, steps, fence, k, j + 1, hash)
  {
    NextState(items, steps, j, hash);
    SpentStep(At(items, steps, j, hash), steps[j], fence, hash);
  }

  /** The step after the last moment at which the fence held. */
  lemma {:induction false} LastHeld(items: Items, steps: seq<Step>, fence: Fence, i: nat, j: nat, hash: Hash) returns (k: nat)
    requires Consistent(items) && i <= j <= |steps|
    requires Holds(At(items, steps, i, hash), fence) && !Holds(At(items, steps, j, hash), fence)
    ensures i <= k && LosesUntil(items, steps, fence, k, j, hash)
    decreases j
  {
    k := j - 1;
    RunConsistent(items, steps[..k], hash);
    if Holds(At(items, steps, k, hash), fence) {
      NextState(items, steps, k, hash);
      LosesIff(At(items, steps, k, hash), steps[k], fence, hash);
    } else {
      var m := LastHeld(items, steps, fence, i, k, hash);
      SpentLater(items, steps, fence, i, k, hash);
      LossLasts(items, steps, fence, m, k, hash);
      k := m;
    }
  }

  ghost predicate LosesAt(items: Items, steps: seq<Step>, fence: Fence, k: nat, hash: Hash) {
    && k < |steps| && Holds(At(items, steps, k, hash), fence)
    && Loses(At(items, steps, k, hash), steps[k], fence)
  }

  /** In every run a claim ends at most once, and nothing is accepted under its fence after the end, unless it is revived in
      between. */
  lemma EndsAtMostOnce(items: Items, steps: seq<Step>, fence: Fence, i: nat, j: nat, hash: Hash)
    requires Consistent(items) && i < j < |steps|
    requires forall m: nat :: i < m < j ==> !RevivesAt(items, steps, fence, m, hash)
    requires Ends(steps[i], fence) && Holds(At(items, steps, i, hash), fence)
    requires Uses(steps[j], fence)
    ensures !Holds(At(items, steps, j, hash), fence)
    ensures At(items, steps, j + 1, hash) == At(items, steps, j, hash)
  {
    RunConsistent(items, steps[..i], hash);
    NextState(items, steps, i, hash);
    NextState(items, steps, j, hash);
    EndingRetires(At(items, steps, i, hash), steps[i], fence, hash);
    RetiredIsRejected(At(items, steps, i + 1, hash), fence);
    LostLeaseStaysLost(items, steps, fence, i, i + 1, j, hash);
    NotHeldIsRejected(At(items, steps, j, hash), steps[j], fence, hash);
  }

  lemma NotHeldIsRejected(items: Items, step: Step, fence: Fence, hash: Hash)
    requires !Holds(items, fence) && Uses(step, fence)
    ensures Apply(items, step, hash) == items
  {
  }

  ghost predicate ClaimsItem(items: Items, step: Step, id: string) {
    step.ClaimStep? && id in items && items[id] in Chosen(items, step.limit, step.now)
  }

  // ---------- How long an item stays as it is ----------

  /** An arrival replaces the item. */
  ghost predicate Overwrites(items: Items, step: Step, id: string) {
    step.EnqueueStep? && step.item.id == id && id != "" && !Duplicated(items, step.item.dedupeKey)
  }

  /** The operations that may change an item. */
  ghost predicate Touches(items: Items, step: Step, id: string) {
    match step
    case EnqueueStep(item) => Overwrites(items, step, id)
    case ClaimStep(worker, limit, now, ttl) => ClaimsItem(items, step, id)
    case HeartbeatStep(f, _, _) => f.itemId == id && Holds(items, f)
    case CompleteStep(f, _) => f.itemId == id && Holds(items, f)
    case FailStep(f, _, _) => f.itemId == id && Holds(items, f)
    case RequeueStep(f, _, _, _) => f.itemId == id && Holds(items, f)
    case ReclaimStep(now) => id in items && Expired(items[id], now)
  }

  lemma UntouchedStays(items: Items, step: Step, id: string, hash: Hash)
    requires Consistent(items) && id in items && !Touches(items, step, id)
    ensures id in Apply(items, step, hash) && Apply(items, step, hash)[id] == items[id]
  {
  }

  /** Item `id` is `x` before step `k`. */
  ghost predicate Is(items: Items, steps: seq<Step>, k: nat, id: string, x: WorkItem, hash: Hash) {
    k <= |steps| && id in At(items, steps, k, hash) && At(items, steps, k, hash)[id] == x
  }

  lemma {:induction false} StaysUntil(items: Items, steps: seq<Step>, i: nat, j: nat, id: string, x: WorkItem, hash: Hash)
    requires Consistent(items) && i <= j <= |steps| && Is(items, steps, i, id, x, hash)
    requires forall k: nat :: i <= k < j && Is(items, steps, k, id, x, hash) ==>
               !Touches(At(items, steps, k, hash), steps[k], id)
    ensures Is(items, steps, j, id, x, hash)
    decreases j
  {
    if i < j {
      StaysUntil(items, steps, i, j - 1, id, x, hash);
      RunConsistent(items, steps[..j - 1], hash);
      NextState(items, steps, j - 1, hash);
      UntouchedStays(At(items, steps, j - 1, hash), steps[j - 1], id, hash);
    }
  }

  /** No step from `i` to `j` replaces the item. */
  ghost predicate NotOverwritten(items: Items, steps: seq<Step>, i: nat, j: nat, id: string, hash: Hash)
    requires j <= |steps|
  {
    forall k: nat :: i <= k < j ==> !Overwrites(At(items, steps, k, hash), steps[k], id)
  }

  lemma QueuedIsClaimed(items: Items, step: Step, id: string)
    requires Consistent(items) && ClaimsItem(items, step, id)
    ensures Ready(items[id], step.now)
  {
    ChosenDistinct(items, step.limit, step.now);
  }

  /** In every run, work whose completion or failure was accepted keeps that end, and no claim takes it, until an arrival
      replaces the item. */
  lemma EndedForGood(items: Items, steps: seq<Step>, i: nat, j: nat, fence: Fence, hash: Hash)
    requires Consistent(items) && i < j <= |steps| && Holds(At(items, steps, i, hash), fence)
    requires (steps[i].CompleteStep? || steps[i].FailStep?) && steps[i].fence == fence
    requires NotOverwritten(items, steps, i + 1, j, fence.itemId, hash)
    ensures fence.itemId in At(items, steps, j, hash)
    ensures var item := At(items, steps, j, hash)[fence.itemId];
            if steps[i].CompleteStep? then item.status == Completed && item.completedAt == Some(steps[i].at)
            else item.status == Failed && item.failedAt == Some(steps[i].at) && item.reason == steps[i].summary
    ensures j < |steps| ==> !ClaimsItem(At(items, steps, j, hash), steps[j], fence.itemId)
  {
    NextState(items, steps, i, hash);
    var id, x := fence.itemId, At(items, steps, i + 1, hash)[fence.itemId];
    forall k: nat | i < k < j && Is(items, steps, k, id, x, hash) ensures !Touches(At(items, steps, k, hash), steps[k], id) {
      RunConsistent(items, steps[..k], hash);
      NotClaimed(At(items, steps, k, hash), steps[k], id);
    }
    StaysUntil(items, steps, i + 1, j, id, x, hash);
    RunConsistent(items, steps[..j], hash);
    if j < |steps| { NotClaimed(At(items, steps, j, hash), steps[j], id); }
  }

  lemma NotClaimed(items: Items, step: Step, id: string)
    requires Consistent(items) && id in items && items[id].status in {Completed, Failed}
    ensures !ClaimsItem(items, step, id)
    ensures Touches(items, step, id) ==> Overwrites(items, step, id)
  {
    if ClaimsItem(items, step, id) { QueuedIsClaimed(items, step, id); }
  }

  /** Nothing from step `i` to `j` ends the claim of `id` that runs out at `expiry`, under its fence or by a late enough
      reclaim pass, and nothing renews it. */
  ghost predicate LeftAlone(items: Items, steps: seq<Step>, i: nat, j: nat, fence: Fence, expiry: int, hash: Hash)
    requires j <= |steps|
  {
    && NotOverwritten(items, steps, i, j, fence.itemId, hash)
    && (forall k: nat :: i <= k < j ==> !Uses(steps[k], fence))
    && (forall k: nat :: i <= k < j && steps[k].ReclaimStep? ==> steps[k].now < expiry)
  }

  /** Step `i` leases item `id` under the fence until `expiry`. */
  ghost predicate Leases(items: Items, steps: seq<Step>, i: nat, fence: Fence, expiry: int, hash: Hash) {
    && i < |steps| && ClaimsItem(At(items, steps, i, hash), steps[i], fence.itemId)
    && fence == FreshFence(At(items, steps, i, hash)[fence.itemId], steps[i].worker, steps[i].now, hash)
    && expiry == steps[i].now + steps[i].ttl
  }

  ghost predicate LeasedUntil(items: Items, fence: Fence, expiry: int) {
    Holds(items, fence) && forall t :: Expired(items[fence.itemId], t) <==> expiry <= t
  }

  lemma LeasedNext(items: Items, steps: seq<Step>, i: nat, fence: Fence, expiry: int, hash: Hash)
    requires Consistent(items) && Leases(items, steps, i, fence, expiry, hash)
    ensures LeasedUntil(At(items, steps, i + 1, hash), fence, expiry)
  {
    var before := At(items, steps, i, hash);
    RunConsistent(items, steps[..i], hash);
    NextState(items, steps, i, hash);
    ClaimGrantsLease(before, Chosen(before, steps[i].limit, steps[i].now), fence.itemId, steps[i].worker, steps[i].now,
                     steps[i].ttl, hash);
  }

  lemma SameItemLeased(a: Items, b: Items, fence: Fence, expiry: int)
    requires LeasedUntil(a, fence, expiry) && fence.itemId in b && b[fence.itemId] == a[fence.itemId]
    ensures LeasedUntil(b, fence, expiry)
  {
  }

  lemma AloneUntouched(items: Items, steps: seq<Step>, i: nat, j: nat, k: nat, fence: Fence, expiry: int, hash: Hash)
    requires Consistent(items) && i <= k < j <= |steps| && LeftAlone(items, steps, i, j, fence, expiry, hash)
    requires LeasedUntil(At(items, steps, k, hash), fence, expiry)
    ensures !Touches(At(items, steps, k, hash), steps[k], fence.itemId)
  {
    RunConsistent(items, steps[..k], hash);
    if Touches(At(items, steps, k, hash), steps[k], fence.itemId) {
      HeldTouches(At(items, steps, k, hash), steps[k], fence);
      assert false;
    }
  }

  /** In every run, a fresh claim holds for as long as its worker leaves it alone and no reclaim pass comes at or after its
      expiry, whatever other workers do; the first such pass takes it back. */
  lemma FreshClaimLasts(items: Items, steps: seq<Step>, i: nat, j: nat, fence: Fence, expiry: int, hash: Hash)
    requires Consistent(items) && i < j <= |steps| && Leases(items, steps, i, fence, expiry, hash)
    requires LeftAlone(items, steps, i + 1, j, fence, expiry, hash)
    ensures Holds(At(items, steps, j, hash), fence)
    ensures j < |steps| && steps[j].ReclaimStep? ==>
              (Holds(At(items, steps, j + 1, hash), fence) <==> steps[j].now < expiry)
  {
    LeasedNext(items, steps, i, fence, expiry, hash);
    var first := At(items, steps, i + 1, hash);
    var id, x := fence.itemId, first[fence.itemId];
    forall k: nat | i < k < j && Is(items, steps, k, id, x, hash) ensures !Touches(At(items, steps, k, hash), steps[k], id) {
      SameItemLeased(first, At(items, steps, k, hash), fence, expiry);
      AloneUntouched(items, steps, i + 1, j, k, fence, expiry, hash);
    }
    StaysUntil(items, steps, i + 1, j, id, x, hash);
    SameItemLeased(first, At(items, steps, j, hash), fence, expiry);
    if j < |steps| && steps[j].ReclaimStep? {
      RunConsistent(items, steps[..j], hash);
      NextState(items, steps, j, hash);
      LosesIff(At(items, steps, j, hash), steps[j], fence, hash);
    }
  }

  lemma HeldTouches(items: Items, step: Step, fence: Fence)
    requires Consistent(items) && Holds(items, fence) && Touches(items, step, fence.itemId)
    ensures Overwrites(items, step, fence.itemId) || Uses(step, fence)
            || (step.ReclaimStep? && Expired(items[fence.itemId], step.now))
  {
    if step.ClaimStep? {
      QueuedIsClaimed(items, step, fence.itemId);
    } else if step.HeartbeatStep? || step.CompleteStep? || step.FailStep? || step.RequeueStep? {
      OneHolder(items, step.fence, fence);
    }
  }

  /** In every run, work that was accepted back into the queue is not claimed before the time set for it, and a claim call
      at or after that time with room for all takes it, as long as no claim has and no arrival replaced it. */
  lemma RequeuedWaits(items: Items, steps: seq<Step>, i: nat, j: nat, fence: Fence, hash: Hash)
    requires Consistent(items) && i < j < |steps| && Holds(At(items, steps, i, hash), fence)
    requires steps[i].RequeueStep? && steps[i].fence == fence && steps[j].ClaimStep?
    requires NotOverwritten(items, steps, i + 1, j, fence.itemId, hash)
    requires forall k: nat :: i < k < j ==> !ClaimsItem(At(items, steps, k, hash), steps[k], fence.itemId)
    ensures ClaimsItem(At(items, steps, j, hash), steps[j], fence.itemId) ==> steps[i].nextAt <= steps[j].now
    ensures steps[i].nextAt <= steps[j].now && |ReadySet(At(items, steps, j, hash), steps[j].now)| <= Batch(steps[j].limit) ==>
              ClaimsItem(At(items, steps, j, hash), steps[j], fence.itemId)
  {
    NextState(items, steps, i, hash);
    var id, x := fence.itemId, At(items, steps, i + 1, hash)[fence.itemId];
    StaysUntil(items, steps, i + 1, j, id, x, hash);
    RunConsistent(items, steps[..j], hash);
    var now := At(items, steps, j, hash);
    if ClaimsItem(now, steps[j], id) { QueuedIsClaimed(now, steps[j], id); }
    if Ready(x, steps[j].now) && |ReadySet(now, steps[j].now)| <= Batch(steps[j].limit) {
      RoomForAll(now, steps[j].limit, steps[j].now, id);
    }
  }

  /** In every run, two claims of one item get different tokens, the later one the larger. */
  lemma ClaimTokensRise(items: Items, steps: seq<Step>, id: string, i: nat, j: nat, hash: Hash)
    requires Consistent(items) && i < j < |steps|
    requires ClaimsItem(At(items, steps, i, hash), steps[i], id)
    requires ClaimsItem(At(items, steps, j, hash), steps[j], id)
    ensures id in At(items, steps, i + 1, hash) && id in At(items, steps, j + 1, hash)
    ensures At(items, steps, i + 1, hash)[id].fencingToken < At(items, steps, j + 1, hash)[id].fencingToken
  {
    RunConsistent(items, steps[..i], hash);
    RunConsistent(items, steps[..i + 1], hash);
    NextState(items, steps, i, hash);
    NextState(items, steps, j, hash);
    Between(items, steps, i + 1, j, hash);
    RunConsistent(At(items, steps, i + 1, hash), steps[i + 1..j], hash);
  }

  /** It does happen: an arrival that is marked claimed and carries the old lease revives a fence that had completed. */
  lemma ClaimedArrivalRevives(item: WorkItem, fence: Fence, hash: Hash)
    requires item.id != "" && item.dedupeKey == "" && item.status == Claimed
    requires fence == Fence(item.id, item.leaseId, item.fencingToken, item.workerId)
    ensures var items := map[item.id := item];
            var completed := Apply(items, CompleteStep(fence, 5), hash);
            && Holds(items, fence) && !Holds(completed, fence) && Revives(completed, EnqueueStep(item), fence)
            && Holds(Apply(completed, EnqueueStep(item), hash), fence)
  {
  }
}
