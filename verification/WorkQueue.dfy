/** The durable work queue: claims are leases, every claim of an item carries a larger fencing token than the claim
    before it, and every change a worker makes to an item it claimed is checked against the item's current lease.
    Each operation runs under the store's lock, so a run of many workers is a sequence of operations. */
module WorkQueue {
  import opened Wrappers
  import Ranking
  import Scores

  datatype Status = Unset | Queued | Claimed | Completed | Failed | Abandoned

  datatype WorkItem = WorkItem(
    id: string,
    kind: string,
    status: Status,
    dedupeKey: string,
    availableAt: int,
    claimedAt: Option<int>,
    completedAt: Option<int>,
    failedAt: Option<int>,
    lastUpdatedAt: int,
    reason: string,
    attemptCount: int,
    leaseId: string,
    fencingToken: int,
    claimToken: string,
    workerId: string,
    leaseExpiresAt: Option<int>)

  datatype Fence = Fence(itemId: string, leaseId: string, token: int, workerId: string)

  datatype WorkClaim = WorkClaim(
    item: WorkItem, workerId: string, leaseId: string, claimToken: string, token: int, claimedAt: int, expiresAt: int)

  datatype Reclaim = Reclaim(itemId: string, leaseId: string, workerId: string, token: int, at: int)

  datatype EnqueueResult = EnqueueRejected | Enqueued(itemId: string) | DuplicateSuppressed(existingId: string)

  datatype Error = NotFound | Conflict(reason: string)

  /** The hash that names leases and claims: kind of name, item, token, worker and time. */
  type Hash = (string, string, int, string, int) -> string

  type Items = map<string, WorkItem>

  // ---------- What each operation does to the table ----------

  predicate Active(item: WorkItem) {
    item.status !in {Completed, Failed, Abandoned}
  }

  ghost predicate Duplicated(items: Items, key: string) {
    key != "" && exists id :: id in items && items[id].dedupeKey == key && Active(items[id])
  }

  /** An item that is queued, claimed or of no status yet has the key. */
  ghost predicate KeyInUse(items: Items, key: string) {
    exists id :: id in items && items[id].dedupeKey == key && items[id].status in {Unset, Queued, Claimed}
  }

  lemma DuplicatedIff(items: Items, key: string)
    ensures Duplicated(items, key) <==> key != "" && KeyInUse(items, key)
  {
    forall id | id in items ensures Active(items[id]) <==> items[id].status in {Unset, Queued, Claimed} {
      assert items[id].status.Unset? || items[id].status.Queued? || items[id].status.Claimed?
          || items[id].status.Completed? || items[id].status.Failed? || items[id].status.Abandoned?;
    }
  }

  function Stored(items: Items, item: WorkItem): WorkItem {
    item.(status := if item.status == Unset then Queued else item.status,
          lastUpdatedAt := item.availableAt,
          fencingToken := if item.id in items then items[item.id].fencingToken else item.fencingToken)
  }

  ghost function AfterEnqueue(items: Items, item: WorkItem): Items {
    if item.id == "" || Duplicated(items, item.dedupeKey) then items else items[item.id := Stored(items, item)]
  }

  predicate Ready(item: WorkItem, now: int) {
    item.status == Queued && item.availableAt <= now
  }

  function QueueKey(item: WorkItem): Ranking.Key {
    Ranking.Key(Scores.Finite(-(item.availableAt as real)), item.id)
  }

  ghost function ReadySet(items: Items, now: int): set<WorkItem> {
    set id | id in items && Ready(items[id], now) :: items[id]
  }

  function Batch(limit: int): nat {
    if limit <= 0 then 1 else limit
  }

  /** The items one claim call takes: the ready ones, oldest availability first and then by id, up to the limit. */
  ghost function Chosen(items: Items, limit: int, now: int): seq<WorkItem> {
    Limited(Ranking.SortedSet(ReadySet(items, now), QueueKey), Batch(limit))
  }

  function Leased(item: WorkItem, worker: string, now: int, ttl: int, hash: Hash): WorkItem {
    var token := item.fencingToken + 1;
    item.(status := Claimed,
          workerId := worker,
          fencingToken := token,
          leaseId := hash("lease", item.id, token, worker, now),
          claimToken := hash("claim", item.id, token, "", now),
          attemptCount := item.attemptCount + 1,
          claimedAt := Some(now),
          leaseExpiresAt := Some(now + ttl),
          lastUpdatedAt := now)
  }

  function ClaimOf(item: WorkItem, worker: string, now: int, ttl: int): WorkClaim {
    WorkClaim(item, worker, item.leaseId, item.claimToken, item.fencingToken, now, now + ttl)
  }

  /** One claim for each item leased, in order. */
  ghost predicate ClaimsOf(claims: seq<WorkClaim>, ready: seq<WorkItem>, worker: string, now: int, ttl: int, hash: Hash) {
    && |claims| == |ready|
    && forall k :: 0 <= k < |ready| ==> claims[k] == ClaimOf(Leased(ready[k], worker, now, ttl, hash), worker, now, ttl)
  }

  lemma ClaimsNext(claims: seq<WorkClaim>, ready: seq<WorkItem>, i: nat, worker: string, now: int, ttl: int, hash: Hash)
    requires i < |ready| && ClaimsOf(claims, ready[..i], worker, now, ttl, hash)
    ensures ClaimsOf(claims + [ClaimOf(Leased(ready[i], worker, now, ttl, hash), worker, now, ttl)], ready[..i + 1],
                     worker, now, ttl, hash)
  {
  }

  /** What a claim hands to its worker: a ready item, whose lease holds under the claim's own fence and the next token, and
      runs out `ttl` from now. */
  ghost predicate Granted(before: Items, after: Items, c: WorkClaim, worker: string, now: int, ttl: int) {
    var id := c.item.id;
    && id in before && before[id].status == Queued && before[id].availableAt <= now
    && id in after && after[id] == c.item
    && Holds(after, Fence(id, c.leaseId, c.token, worker)) && c.workerId == worker
    && c.token == before[id].fencingToken + 1 && c.item.attemptCount == before[id].attemptCount + 1
    && c.claimToken == c.item.claimToken && c.claimedAt == now && c.item.claimedAt == Some(now)
    && c.expiresAt == now + ttl && c.item.leaseExpiresAt == Some(now + ttl)
    && (forall t :: Expired(c.item, t) <==> now + ttl <= t)
  }

  lemma ClaimsGranted(before: Items, ready: seq<WorkItem>, claims: seq<WorkClaim>, worker: string, now: int, ttl: int, hash: Hash)
    requires Consistent(before) && forall x :: x in ready ==> x in ReadySet(before, now)
    requires ClaimsOf(claims, ready, worker, now, ttl, hash)
    ensures forall c :: c in claims ==> Granted(before, AfterClaim(before, ready, worker, now, ttl, hash), c, worker, now, ttl)
  {
    forall c | c in claims ensures Granted(before, AfterClaim(before, ready, worker, now, ttl, hash), c, worker, now, ttl) {
      var k :| 0 <= k < |claims| && claims[k] == c;
      assert ready[k] in ReadySet(before, now);
    }
  }

  ghost function AfterClaim(items: Items, chosen: seq<WorkItem>, worker: string, now: int, ttl: int, hash: Hash): Items {
    map id | id in items :: if items[id] in chosen then Leased(items[id], worker, now, ttl, hash) else items[id]
  }

  function FenceError(items: Items, fence: Fence): Option<Error> {
    if fence.itemId !in items then Some(NotFound)
    else
      var item := items[fence.itemId];
      if item.id != fence.itemId then Some(Conflict("work item mismatch"))
      else if item.status != Claimed then Some(Conflict("work item is not actively leased"))
      else if item.leaseId != fence.leaseId then Some(Conflict("lease ownership lost"))
      else if item.fencingToken != fence.token then Some(Conflict("fencing token mismatch"))
      else if item.workerId != fence.workerId then Some(Conflict("worker ownership mismatch"))
      else None
  }

  predicate Holds(items: Items, fence: Fence) {
    FenceError(items, fence) == None
  }

  function Released(item: WorkItem): WorkItem {
    item.(leaseId := "", claimToken := "", workerId := "", leaseExpiresAt := None, claimedAt := None)
  }

  function AfterHeartbeat(items: Items, fence: Fence, recordedAt: int, expiresAt: int): Items {
    if !Holds(items, fence) then items
    else items[fence.itemId := items[fence.itemId].(lastUpdatedAt := recordedAt, leaseExpiresAt := Some(expiresAt))]
  }

  function AfterFinish(items: Items, fence: Fence, status: Status, summary: string, now: int): Items {
    if !Holds(items, fence) then items
    else
      var item := items[fence.itemId];
      items[fence.itemId := Released(item).(
        status := status, reason := summary, lastUpdatedAt := now,
        completedAt := if status == Completed then Some(now) else item.completedAt,
        failedAt := if status == Failed then Some(now) else item.failedAt)]
  }

  /** The fence no longer holds: its item has no lease, and everything else is as it was. */
  ghost predicate Unleased(before: Items, after: Items, fence: Fence, now: int) {
    var id := fence.itemId;
    && Holds(before, fence) && !Holds(after, fence)
    && id in before && id in after && after == before[id := after[id]]
    && after[id].id == id && after[id].fencingToken == before[id].fencingToken && after[id].dedupeKey == before[id].dedupeKey
    && after[id].leaseId == "" && after[id].workerId == "" && after[id].claimToken == ""
    && after[id].leaseExpiresAt.None? && after[id].claimedAt.None? && after[id].lastUpdatedAt == now
  }

  /** The work is over: it takes no claim, and a new item may take its dedupe key. */
  ghost predicate Ended(before: Items, after: Items, fence: Fence, now: int) {
    Unleased(before, after, fence, now) && !Active(after[fence.itemId]) && forall t :: !Ready(after[fence.itemId], t)
  }

  function AfterRequeue(items: Items, fence: Fence, nextAt: int, reason: string, now: int): Items {
    if !Holds(items, fence) then items
    else items[fence.itemId := Released(items[fence.itemId]).(
      status := Queued, reason := reason, availableAt := nextAt, lastUpdatedAt := now)]
  }

  predicate Expired(item: WorkItem, now: int) {
    item.status == Claimed && item.leaseExpiresAt.Some? && item.leaseExpiresAt.value <= now
  }

  function Reclaimed(item: WorkItem, now: int): WorkItem {
    Released(item).(status := Queued, reason := "reclaimed after lease expiry", lastUpdatedAt := now)
  }

  function AfterReclaim(items: Items, now: int): Items {
    map id | id in items :: if Expired(items[id], now) then Reclaimed(items[id], now) else items[id]
  }

  function ReclaimOf(item: WorkItem, now: int): Reclaim {
    Reclaim(item.id, item.leaseId, item.workerId, item.fencingToken, now)
  }

  // ---------- The store ----------

  predicate SameActiveKey(a: WorkItem, b: WorkItem) {
    Active(a) && Active(b) && a.dedupeKey != "" && a.dedupeKey == b.dedupeKey
  }

  /** Every row is stored under its own id, and a dedupe key belongs to at most one active item. */
  ghost predicate Consistent(items: Items) {
    && (forall id :: id in items ==> items[id].id == id)
    && (forall a, b :: a in items && b in items && a != b ==> !SameActiveKey(items[a], items[b]))
  }

  class InMemoryWorkQueueStore {
    var items: Items
    const hash: Hash

    constructor (hash: Hash)
      ensures items == map[] && this.hash == hash && Consistent(items)
    {
      this.hash := hash;
      items := map[];
    }

    method Enqueue(item: WorkItem) returns (r: EnqueueResult)
      requires Consistent(items)
      modifies this
      ensures Consistent(items)
      ensures items == AfterEnqueue(old(items), item)
      ensures r.EnqueueRejected? <==> item.id == ""
      ensures r.DuplicateSuppressed? <==> item.id != "" && Duplicated(old(items), item.dedupeKey)
      ensures r.DuplicateSuppressed? <==> item.id != "" && item.dedupeKey != "" && KeyInUse(old(items), item.dedupeKey)
      ensures r.DuplicateSuppressed? ==>
                && r.existingId in old(items)
                && old(items)[r.existingId].dedupeKey == item.dedupeKey
                && Active(old(items)[r.existingId])
      ensures r.Enqueued? ==> r.itemId == item.id && item.id in items && items[item.id].id == item.id
      ensures r.Enqueued? && item.status == Unset ==> forall t :: Ready(items[item.id], t) <==> item.availableAt <= t
      ensures r.Enqueued? && item.id in old(items) ==> items[item.id].fencingToken == old(items)[item.id].fencingToken
      ensures forall id :: id in old(items) && (r.Enqueued? ==> id != item.id) ==> id in items && items[id] == old(items)[id]
    {
      if item.id == "" {
        return EnqueueRejected;
      }
      DuplicatedIff(items, item.dedupeKey);
      var todo := items.Keys;
      while todo != {}
        invariant todo <= items.Keys && items == old(items)
        invariant forall id :: id in items.Keys - todo && item.dedupeKey != "" && items[id].dedupeKey == item.dedupeKey
                    ==> !Active(items[id])
      {
        var id :| id in todo;
        if item.dedupeKey != "" && items[id].dedupeKey == item.dedupeKey && Active(items[id]) {
          return DuplicateSuppressed(items[id].id);
        }
        todo := todo - {id};
      }
      EnqueueConsistent(items, item);
      items := items[item.id := Stored(items, item)];
      return Enqueued(item.id);
    }

    method ClaimReady(worker: string, limit: int, now: int, ttl: int) returns (claims: seq<WorkClaim>)
      requires Consistent(items)
      modifies this
      ensures Consistent(items)
      ensures items == AfterClaim(old(items), Chosen(old(items), limit, now), worker, now, ttl, hash)
      ensures ClaimsOf(claims, Chosen(old(items), limit, now), worker, now, ttl, hash)
      ensures forall c :: c in claims ==> Granted(old(items), items, c, worker, now, ttl)
    {
      ghost var before := items;
      var ready := ListReady(now);
      ready := Ranking.Sort(ready, QueueKey);
      ReadyIdentified(items, now);
      if |ready| > Batch(limit) {
        ready := ready[..Batch(limit)];
      }
      ChosenDistinct(items, limit, now);
      claims := LeaseAll(ready, worker, now, ttl);
      ClaimsGranted(before, ready, claims, worker, now, ttl, hash);
    }

    /** Leases the given ready items one after the other. */
    method LeaseAll(ready: seq<WorkItem>, worker: string, now: int, ttl: int) returns (claims: seq<WorkClaim>)
      requires Consistent(items)
      requires Ranking.DistinctIds(ready, QueueKey) && forall x :: x in ready ==> x in ReadySet(items, now)
      modifies this
      ensures Consistent(items)
      ensures items == AfterClaim(old(items), ready, worker, now, ttl, hash)
      ensures ClaimsOf(claims, ready, worker, now, ttl, hash)
    {
      ghost var before := items;
      claims := [];
      for i := 0 to |ready|
        invariant items == AfterClaim(before, ready[..i], worker, now, ttl, hash)
        invariant ClaimsOf(claims, ready[..i], worker, now, ttl, hash)
      {
        ClaimOneMore(before, ready, i, worker, now, ttl, hash);
        var claim := LeaseOne(ready[i], worker, now, ttl);
        ClaimsNext(claims, ready, i, worker, now, ttl, hash);
        claims := claims + [claim];
      }
      assert ready[..|ready|] == ready;
      ClaimConsistent(before, ready, worker, now, ttl, hash);
    }

    method LeaseOne(ready: WorkItem, worker: string, now: int, ttl: int) returns (claim: WorkClaim)
      modifies this
      ensures items == old(items)[ready.id := Leased(ready, worker, now, ttl, hash)]
      ensures claim == ClaimOf(Leased(ready, worker, now, ttl, hash), worker, now, ttl)
    {
      var item := Leased(ready, worker, now, ttl, hash);
      items := items[item.id := item];
      claim := ClaimOf(item, worker, now, ttl);
    }

    /** The ready items, in whatever order the map is ranged over. */
    method ListReady(now: int) returns (ready: seq<WorkItem>)
      requires Consistent(items)
      ensures Ranking.Sort(ready, QueueKey) == Ranking.SortedSet(ReadySet(items, now), QueueKey)
    {
      ready := [];
      var todo := items.Keys;
      while todo != {}
        invariant todo <= items.Keys
        invariant Ranking.Enumerates(ready, set id | id in items.Keys - todo && Ready(items[id], now) :: items[id])
      {
        var id :| id in todo;
        ghost var done := items.Keys - todo;
        if Ready(items[id], now) {
          assert items[id] !in ready;
          ready := ready + [items[id]];
        }
        todo := todo - {id};
        assert items.Keys - todo == done + {id};
      }
      assert items.Keys - todo == items.Keys;
      ReadyIdentified(items, now);
      Ranking.SortOfListing(ready, ReadySet(items, now), QueueKey);
    }

    method Heartbeat(fence: Fence, recordedAt: int, expiresAt: int) returns (err: Option<Error>)
      requires Consistent(items)
      modifies this
      ensures Consistent(items)
      ensures err == FenceError(old(items), fence)
      ensures items == AfterHeartbeat(old(items), fence, recordedAt, expiresAt)
      ensures err.None? ==> Holds(items, fence) && forall t :: Expired(items[fence.itemId], t) <==> expiresAt <= t
    {
      err := FenceError(items, fence);
      if err.Some? { return; }
      items := items[fence.itemId := items[fence.itemId].(lastUpdatedAt := recordedAt, leaseExpiresAt := Some(expiresAt))];
    }

    method Finish(fence: Fence, status: Status, summary: string, now: int) returns (err: Option<Error>)
      requires Consistent(items) && status in {Completed, Failed}
      modifies this
      ensures Consistent(items)
      ensures err == FenceError(old(items), fence)
      ensures items == AfterFinish(old(items), fence, status, summary, now)
      ensures err.None? ==> Ended(old(items), items, fence, now) && items[fence.itemId].status == status
    {
      err := FenceError(items, fence);
      if err.Some? { return; }
      var item := Released(items[fence.itemId]).(status := status, reason := summary, lastUpdatedAt := now);
      if status == Completed {
        item := item.(completedAt := Some(now));
      }
      if status == Failed {
        item := item.(failedAt := Some(now));
      }
      items := items[item.id := item];
    }

    method Complete(fence: Fence, now: int) returns (err: Option<Error>)
      requires Consistent(items)
      modifies this
      ensures Consistent(items)
      ensures err == FenceError(old(items), fence)
      ensures items == AfterFinish(old(items), fence, Completed, "", now)
      ensures err.None? ==> Ended(old(items), items, fence, now) && items[fence.itemId].status == Completed
      ensures err.None? ==> items[fence.itemId].completedAt == Some(now) && items[fence.itemId].reason == ""
    {
      err := Finish(fence, Completed, "", now);
    }

    method Fail(fence: Fence, summary: string, now: int) returns (err: Option<Error>)
      requires Consistent(items)
      modifies this
      ensures Consistent(items)
      ensures err == FenceError(old(items), fence)
      ensures items == AfterFinish(old(items), fence, Failed, summary, now)
      ensures err.None? ==> Ended(old(items), items, fence, now) && items[fence.itemId].status == Failed
      ensures err.None? ==> items[fence.itemId].failedAt == Some(now) && items[fence.itemId].reason == summary
    {
      err := Finish(fence, Failed, summary, now);
    }

    method Requeue(fence: Fence, nextAt: int, reason: string, now: int) returns (err: Option<Error>)
      requires Consistent(items)
      modifies this
      ensures Consistent(items)
      ensures err == FenceError(old(items), fence)
      ensures items == AfterRequeue(old(items), fence, nextAt, reason, now)
      ensures err.None? ==> Unleased(old(items), items, fence, now) && items[fence.itemId].reason == reason
      ensures err.None? ==> forall t :: Ready(items[fence.itemId], t) <==> nextAt <= t
    {
      err := FenceError(items, fence);
      if err.Some? { return; }
      items := items[fence.itemId := Released(items[fence.itemId]).(
        status := Queued, reason := reason, availableAt := nextAt, lastUpdatedAt := now)];
    }

    method ReclaimExpired(now: int) returns (result: seq<Reclaim>)
      requires Consistent(items)
      modifies this
      ensures Consistent(items)
      ensures items == AfterReclaim(old(items), now)
      ensures Ranking.Enumerates(result, ReclaimsOutside(old(items), {}, now))
      ensures forall r :: r in result ==> TakenBack(old(items), items, r, now)
      ensures forall id :: id in old(items) && Expired(old(items)[id], now) ==> exists r :: r in result && r.itemId == id
    {
      ghost var before := items;
      result := [];
      var todo := items.Keys;
      while todo != {}
        invariant todo <= before.Keys
        invariant items == ReclaimedOutside(before, todo, now)
        invariant Ranking.Enumerates(result, ReclaimsOutside(before, todo, now))
      {
        var id :| id in todo;
        var item := items[id];
        ReclaimOneMore(before, todo, id, now);
        ReclaimsNext(before, todo, id, now, result);
        if Expired(item, now) {
          result := result + [ReclaimOf(item, now)];
          items := items[id := Reclaimed(item, now)];
        }
        todo := todo - {id};
      }
      assert items == AfterReclaim(before, now);
      ReclaimConsistent(before, now);
      ReclaimsTakenBack(before, result, now);
    }
  }

  /** The table when every expired lease except those of `todo` has been reclaimed. */
  ghost function ReclaimedOutside(items: Items, todo: set<string>, now: int): Items {
    map id | id in items :: if id !in todo && Expired(items[id], now) then Reclaimed(items[id], now) else items[id]
  }

  ghost function ReclaimsOutside(items: Items, todo: set<string>, now: int): set<Reclaim> {
    set id | id in items && id !in todo && Expired(items[id], now) :: ReclaimOf(items[id], now)
  }

  lemma ReclaimOneMore(items: Items, todo: set<string>, id: string, now: int)
    requires Consistent(items) && id in todo && todo <= items.Keys
    ensures ReclaimedOutside(items, todo, now)[id] == items[id]
    ensures ReclaimedOutside(items, todo - {id}, now)
         == if Expired(items[id], now) then ReclaimedOutside(items, todo, now)[id := Reclaimed(items[id], now)]
            else ReclaimedOutside(items, todo, now)
    ensures ReclaimsOutside(items, todo - {id}, now)
         == ReclaimsOutside(items, todo, now) + if Expired(items[id], now) then {ReclaimOf(items[id], now)} else {}
    ensures ReclaimOf(items[id], now) !in ReclaimsOutside(items, todo, now)
  {
    forall r | r in ReclaimsOutside(items, todo, now) ensures r.itemId != id {
      var k :| k in items && k !in todo && Expired(items[k], now) && r == ReclaimOf(items[k], now);
    }
  }

  lemma ReclaimsNext(items: Items, todo: set<string>, id: string, now: int, result: seq<Reclaim>)
    requires Consistent(items) && id in todo && todo <= items.Keys
    requires Ranking.Enumerates(result, ReclaimsOutside(items, todo, now))
    ensures Ranking.Enumerates(if Expired(items[id], now) then result + [ReclaimOf(items[id], now)] else result,
                               ReclaimsOutside(items, todo - {id}, now))
  {
    ReclaimOneMore(items, todo, id, now);
  }

  /** A reclaimed lease held until then, had run out, and is gone; its item is ready again. */
  ghost predicate TakenBack(before: Items, after: Items, r: Reclaim, now: int) {
    && Holds(before, Fence(r.itemId, r.leaseId, r.token, r.workerId)) && r.at == now
    && before[r.itemId].leaseExpiresAt.Some? && before[r.itemId].leaseExpiresAt.value <= now
    && r.itemId in after && !Holds(after, Fence(r.itemId, r.leaseId, r.token, r.workerId))
    && (forall t :: Ready(after[r.itemId], t) <==> before[r.itemId].availableAt <= t)
  }

  lemma ReclaimsTakenBack(items: Items, result: seq<Reclaim>, now: int)
    requires Consistent(items) && Ranking.Enumerates(result, ReclaimsOutside(items, {}, now))
    ensures forall r :: r in result ==> TakenBack(items, AfterReclaim(items, now), r, now)
    ensures forall id :: id in items && Expired(items[id], now) ==> exists r :: r in result && r.itemId == id
  {
    forall r | r in result ensures TakenBack(items, AfterReclaim(items, now), r, now) {
      var id :| id in items && Expired(items[id], now) && r == ReclaimOf(items[id], now);
    }
    forall id | id in items && Expired(items[id], now) ensures exists r :: r in result && r.itemId == id {
      assert ReclaimOf(items[id], now) in result;
    }
  }

  // ---------- The operations keep the table consistent ----------

  lemma EnqueueConsistent(items: Items, item: WorkItem)
    requires Consistent(items)
    ensures Consistent(AfterEnqueue(items, item))
  {
  }

  lemma ReadyIdentified(items: Items, now: int)
    requires Consistent(items)
    ensures Ranking.IdentifiedBy(ReadySet(items, now), QueueKey)
  {
  }

  lemma ChosenDistinct(items: Items, limit: int, now: int)
    requires Consistent(items)
    ensures Ranking.DistinctIds(Chosen(items, limit, now), QueueKey)
    ensures Ranking.Sorted(Chosen(items, limit, now), QueueKey)
    ensures forall x :: x in Chosen(items, limit, now) ==> x in ReadySet(items, now)
  {
    ReadyIdentified(items, now);
    Ranking.SortedSetCorrect(ReadySet(items, now), QueueKey);
    CutSorted(Ranking.SortedSet(ReadySet(items, now), QueueKey), Batch(limit));
  }

  lemma CutSorted(all: seq<WorkItem>, limit: int)
    requires Ranking.DistinctIds(all, QueueKey) && Ranking.Sorted(all, QueueKey)
    ensures Ranking.DistinctIds(Limited(all, limit), QueueKey) && Ranking.Sorted(Limited(all, limit), QueueKey)
    ensures forall x :: x in Limited(all, limit) ==> x in all
  {
  }

  lemma ClaimOneMore(items: Items, ready: seq<WorkItem>, i: nat, worker: string, now: int, ttl: int, hash: Hash)
    requires Consistent(items) && i < |ready|
    requires Ranking.DistinctIds(ready, QueueKey) && forall x :: x in ready ==> x in ReadySet(items, now)
    ensures ready[i].id in items && items[ready[i].id] == ready[i]
    ensures AfterClaim(items, ready[..i], worker, now, ttl, hash)[ready[i].id := Leased(ready[i], worker, now, ttl, hash)]
         == AfterClaim(items, ready[..i + 1], worker, now, ttl, hash)
  {
    assert ready[i] in ReadySet(items, now);
    assert ready[..i + 1] == ready[..i] + [ready[i]];
    forall id | id in items && items[id] == ready[i] ensures id == ready[i].id {
    }
  }

  lemma ClaimConsistent(items: Items, chosen: seq<WorkItem>, worker: string, now: int, ttl: int, hash: Hash)
    requires Consistent(items) && forall x :: x in chosen ==> x in ReadySet(items, now)
    ensures Consistent(AfterClaim(items, chosen, worker, now, ttl, hash))
  {
  }

  lemma ReclaimConsistent(items: Items, now: int)
    requires Consistent(items)
    ensures Consistent(AfterReclaim(items, now))
  {
  }
}
