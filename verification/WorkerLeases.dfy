/** The leases a worker process is executing, and what a heartbeat response does to them. */
module WorkerLeases {
  import opened Domain
  import opened DispatchModel

  /** `renew` is a channel for one value, which always holds the newest one not yet taken. */
  datatype ActiveLease = ActiveLease(token: Token, canceled: bool, renew: Option<int>)

  type Leases = map<DispatchID, ActiveLease>

  /** The server's answer for one lease. */
  datatype LeaseHeartbeat = LeaseHeartbeat(id: DispatchID, answer: LeaseAnswer)
  {
    /** The lease is gone, or nothing remains of it. */
    predicate Stops() { answer.LeaseRenewed? ==> answer.remainingMillis <= 0 }
  }

  function Canceled(active: Leases, id: DispatchID): Leases {
    if id in active then active[id := active[id].(canceled := true)] else active
  }

  function Prolonged(active: Leases, id: DispatchID, remaining: int): Leases {
    if id !in active then active
    else if remaining <= 0 then Canceled(active, id)
    else active[id := active[id].(renew := Some(remaining))]
  }

  function Answered(active: Leases, item: LeaseHeartbeat): Leases {
    match item.answer
    case LeaseRenewed(remainingMillis) => Prolonged(active, item.id, remainingMillis * NANOS_PER_MILLI)
    case _ => Canceled(active, item.id)
  }

  /** All leases after the first `n` answers. */
  function AllAnswered(active: Leases, items: seq<LeaseHeartbeat>, n: nat): Leases
    requires n <= |items|
  {
    if n == 0 then active else Answered(AllAnswered(active, items, n - 1), items[n - 1])
  }

  /** Some of the first `n` answers stops this lease. */
  ghost predicate Stopped(items: seq<LeaseHeartbeat>, n: nat, id: DispatchID)
    requires n <= |items|
  {
    exists k :: 0 <= k < n && items[k].id == id && items[k].Stops()
  }

  /** The last of the first `n` answers that prolongs this lease. */
  ghost predicate LastProlonged(items: seq<LeaseHeartbeat>, n: nat, id: DispatchID, k: nat)
    requires n <= |items|
  {
    && k < n && items[k].id == id && !items[k].Stops()
    && forall j :: k < j < n && items[j].id == id ==> items[j].Stops()
  }

  /** After a response the same leases are known; exactly those that were answered as gone or used up are canceled in
      addition; and each holds the newest time left, or what it held before if no answer prolongs it. */
  lemma {:induction false} ResponseExactly(active: Leases, items: seq<LeaseHeartbeat>, n: nat, id: DispatchID)
    requires n <= |items|
    ensures id in AllAnswered(active, items, n) <==> id in active
    ensures id in active ==>
      && var after := AllAnswered(active, items, n)[id];
         && after.token == active[id].token && (after.canceled <==> active[id].canceled || Stopped(items, n, id))
         && (forall k: nat :: LastProlonged(items, n, id, k) ==>
              items[k].answer.LeaseRenewed? && after.renew == Some(items[k].answer.remainingMillis * NANOS_PER_MILLI))
         && ((forall k: nat :: !LastProlonged(items, n, id, k)) ==> after.renew == active[id].renew)
  {
    if n > 0 {
      var m := n - 1;
      ResponseExactly(active, items, m, id);
      var item := items[n - 1];
      assert item.id == id && item.Stops() ==> Stopped(items, n, id);
      if item.id == id && !item.Stops() {
        assert LastProlonged(items, n, id, n - 1);
      } else {
        forall k: nat | LastProlonged(items, n, id, k) ensures LastProlonged(items, m, id, k) {
        }
        forall k: nat | LastProlonged(items, m, id, k) ensures LastProlonged(items, n, id, k) {
        }
      }
    }
  }

  class LeaseState {
    var active: Leases
    /** A hint that a slot has become free. */
    var capacityAvailable: bool
    /** Executions that have been started and have not ended. */
    var waiting: int

    /** Waiting for the executions waits for exactly the known leases. */
    predicate Balanced() reads this { waiting == |active| }

    constructor ()
      ensures active == map[] && !capacityAvailable && Balanced()
    {
      active, capacityAvailable, waiting := map[], false, 0;
    }

    /** The count stays balanced exactly if the dispatch is not yet known; a dispatch is leased only once. */
    method Add(id: DispatchID, token: Token)
      modifies this
      ensures active == old(active)[id := ActiveLease(token, false, None)] && capacityAvailable == old(capacityAvailable)
      ensures old(Balanced()) ==> (Balanced() <==> id !in old(active))
    {
      var lease := ActiveLease(token, false, None);
      assert id !in active ==> active[id := lease].Keys == active.Keys + {id};
      assert id in active ==> active[id := lease].Keys == active.Keys;
      active := active[id := lease];
      waiting := waiting + 1;
    }

    /** Removing a lease a second time changes nothing. */
    method Remove(id: DispatchID)
      modifies this
      ensures active == old(active) - {id}
      ensures capacityAvailable == (old(capacityAvailable) || id in old(active))
      ensures old(Balanced()) ==> Balanced()
    {
      if id in active {
        assert (active - {id}).Keys == active.Keys - {id};
        active := active - {id};
        waiting := waiting - 1;
        capacityAvailable := true;
      } else {
        assert active - {id} == active;
      }
    }

    method Refs() returns (refs: seq<(DispatchID, Token)>)
      ensures |refs| == |active|
      ensures forall k :: 0 <= k < |refs| ==> refs[k].0 in active && refs[k].1 == active[refs[k].0].token
      ensures forall j, k :: 0 <= j < k < |refs| ==> refs[j].0 != refs[k].0
    {
      refs := [];
      var left := active.Keys;
      while left != {}
        invariant left <= active.Keys && |refs| + |left| == |active|
        invariant forall k :: 0 <= k < |refs| ==>
          refs[k].0 in active && refs[k].0 !in left && refs[k].1 == active[refs[k].0].token
        invariant forall j, k :: 0 <= j < k < |refs| ==> refs[j].0 != refs[k].0
        decreases |left|
      {
        var id :| id in left;
        refs := refs + [(id, active[id].token)];
        left := left - {id};
      }
      assert |left| == 0;
    }

    method Cancel(id: DispatchID)
      modifies this`active
      ensures active == Canceled(old(active), id)
    {
      if id in active {
        active := active[id := active[id].(canceled := true)];
      }
    }

    method Renew(id: DispatchID, remaining: int)
      modifies this`active
      ensures active == Prolonged(old(active), id, remaining)
    {
      if id !in active { return; }
      if remaining <= 0 {
        Cancel(id);
        return;
      }
      if active[id].renew.Some? {
        active := active[id := active[id].(renew := None)];
      }
      active := active[id := active[id].(renew := Some(remaining))];
    }

    method CancelAll()
      modifies this`active
      ensures active.Keys == old(active.Keys)
      ensures forall id :: id in active ==> active[id] == old(active)[id].(canceled := true)
    {
      active := map id | id in active :: active[id].(canceled := true);
    }

    /** One round of the heartbeat loop that was answered. */
    method HandleResponse(items: seq<LeaseHeartbeat>)
      modifies this`active
      ensures active == AllAnswered(old(active), items, |items|)
    {
      for n := 0 to |items|
        invariant active == AllAnswered(old(active), items, n)
      {
        match items[n].answer {
          case LeaseRenewed(remainingMillis) => Renew(items[n].id, remainingMillis * NANOS_PER_MILLI);
          case LeaseRevoked => Cancel(items[n].id);
          case LeaseUnknown => Cancel(items[n].id);
        }
      }
    }
  }
}
