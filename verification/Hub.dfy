/** Progress fan-out: one-slot mailboxes that keep only the newest snapshot, and the hub
that offers each published snapshot to the subscribers of its job. */
module Hub {
  import opened Collections
  import opened Firmware

  /** A mailbox read by one client. The ghost fields are its whole history: what was
  offered, and which of the offers were delivered, by position. */
  class CoalescingMailbox<T> {
    var latest: Option<T>
    var hasValue: bool
    var event: bool
    var dropped: nat
    ghost var offered: seq<T>
    ghost var taken: seq<nat>

    /** Every offer was delivered, superseded, or is pending; deliveries are a subsequence
    of the offers; and the newest offer is the pending or the last delivered one. */
    ghost predicate Valid()
      reads this
    {
      && event == hasValue
      && |offered| == |taken| + dropped + (if hasValue then 1 else 0)
      && (forall i :: 0 <= i < |taken| ==> taken[i] < |offered| - (if hasValue then 1 else 0))
      && (forall i, j :: 0 <= i < j < |taken| ==> taken[i] < taken[j])
      && (offered == [] ==> latest == None)
      && (offered != [] ==> latest == Some(offered[|offered| - 1]))
      && (offered != [] && !hasValue ==> taken != [] && taken[|taken| - 1] == |offered| - 1)
    }

    ghost function Delivered(): seq<T>
      requires Valid()
      reads this
    {
      seq(|taken|, i requires 0 <= i < |taken| && Valid() reads this => offered[taken[i]])
    }

    constructor ()
      ensures Valid() && offered == [] && taken == [] && dropped == 0 && !hasValue
    {
      latest, hasValue, event, dropped := None, false, false, 0;
      offered, taken := [], [];
    }

    /** Never waits; a pending snapshot is replaced and counted. */
    method Offer(message: T)
      requires Valid()
      modifies this
      ensures Valid()
      ensures offered == old(offered) + [message] && taken == old(taken)
      ensures hasValue && latest == Some(message)
      ensures dropped == old(dropped) + (if old(hasValue) then 1 else 0)
    {
      if hasValue {
        dropped := dropped + 1;
      }
      latest := Some(message);
      hasValue := true;
      event := true;
      offered := offered + [message];
    }

    /** Runs once the event is set: the newest offer is delivered and nothing is pending. */
    method Get() returns (message: T)
      requires Valid() && event
      modifies this
      ensures Valid() && !hasValue && dropped == old(dropped)
      ensures offered == old(offered) && offered != [] && message == offered[|offered| - 1]
      ensures Delivered() == old(Delivered()) + [message]
    {
      event := false;
      hasValue := false;
      message := latest.value;
      taken := taken + [|offered| - 1];
    }

    function Peek(): (r: Option<T>)
      requires Valid()
      reads this
      ensures r.Some? <==> hasValue
      ensures r.Some? ==> offered != [] && r.value == offered[|offered| - 1]
    {
      if hasValue then latest else None
    }
  }

  method OfferAll<T>(mailboxes: set<CoalescingMailbox<T>>, message: T)
    requires forall mb :: mb in mailboxes ==> mb.Valid()
    modifies mailboxes
    ensures forall mb :: mb in mailboxes ==> mb.Valid() && mb.offered == old(mb.offered) + [message] && mb.taken == old(mb.taken)
  {
    var rest := mailboxes;
    while rest != {}
      invariant rest <= mailboxes
      invariant forall mb :: mb in rest ==> mb.Valid() && mb.offered == old(mb.offered) && mb.taken == old(mb.taken)
      invariant forall mb :: mb in mailboxes - rest ==>
        mb.Valid() && mb.offered == old(mb.offered) + [message] && mb.taken == old(mb.taken)
      decreases |rest|
    {
      var mb :| mb in rest;
      mb.Offer(message);
      rest := rest - {mb};
    }
  }

  class ProgressHub<T> {
    var subs: map<JobId, set<CoalescingMailbox<T>>>
    var last: map<JobId, T>

    /** No empty entry, one job per mailbox, and every subscriber of a job has been offered
    the job's newest snapshot last, if there is one. */
    ghost predicate Valid()
      reads this, set j, mb | j in subs && mb in subs[j] :: mb
    {
      && (forall j :: j in subs ==> subs[j] != {})
      && (forall j, k :: j in subs && k in subs && j != k ==> subs[j] !! subs[k])
      && (forall j, mb :: j in subs && mb in subs[j] ==> mb.Valid() && UpToDate(j, mb))
    }

    ghost predicate UpToDate(j: JobId, mb: CoalescingMailbox<T>)
      reads this, mb
    {
      j in last ==> mb.offered != [] && mb.offered[|mb.offered| - 1] == last[j]
    }

    constructor ()
      ensures Valid() && subs == map[] && last == map[]
    {
      subs, last := map[], map[];
    }

    /** A fresh mailbox that already holds the job's newest snapshot, if there is one. */
    method Subscribe(j: JobId) returns (mb: CoalescingMailbox<T>)
      requires Valid()
      modifies this
      ensures Valid() && fresh(mb) && last == old(last)
      ensures subs == old(subs)[j := Get(old(subs), j, {}) + {mb}]
      ensures mb.Valid() && mb.Peek() == if j in last then Some(last[j]) else None
      ensures |mb.offered| <= 1 && mb.dropped == 0
    {
      mb := new CoalescingMailbox();
      subs := subs[j := Get(subs, j, {}) + {mb}];
      if j in last {
        mb.Offer(last[j]);
      }
      forall k, m | k in subs && m in subs[k]
        ensures m.Valid() && UpToDate(k, m)
      {
        if m != mb {
          assert k in old(subs) && m in old(subs)[k];
          assert old(m.Valid() && UpToDate(k, m));
        }
      }
      assert forall k :: k in old(subs) ==> mb !in old(subs)[k];
    }

    method Unsubscribe(j: JobId, mb: CoalescingMailbox<T>)
      requires Valid()
      modifies this
      ensures Valid() && last == old(last)
      ensures forall k :: Get(subs, k, {}) == Get(old(subs), k, {}) - (if k == j then {mb} else {})
    {
      if j in subs {
        var rest := subs[j] - {mb};
        subs := if rest == {} then subs - {j} else subs[j := rest];
      }
    }

    /** Every subscriber of the job, and nobody else, is offered the snapshot. */
    method Publish(j: JobId, message: T) returns (notified: nat)
      requires Valid()
      modifies this, Get(subs, j, {})
      ensures Valid() && subs == old(subs) && last == old(last)[j := message]
      ensures notified == |Get(subs, j, {})|
      ensures forall mb :: mb in Get(subs, j, {}) ==> mb.offered == old(mb.offered) + [message] && mb.taken == old(mb.taken)
    {
      last := last[j := message];
      if j !in subs {
        return 0;
      }
      OfferAll(subs[j], message);
      forall k, mb | k in subs && mb in subs[k]
        ensures mb.Valid() && UpToDate(k, mb)
      {
        assert old(mb.Valid() && UpToDate(k, mb));
        if k != j {
          assert mb !in subs[j];
        }
      }
      notified := |subs[j]|;
    }

    /** A client reading its mailbox gets the job's newest snapshot and disturbs nobody. */
    method Receive(j: JobId, mb: CoalescingMailbox<T>) returns (message: T)
      requires Valid() && j in subs && mb in subs[j] && mb.event
      modifies mb
      ensures Valid()
      ensures j in last ==> message == last[j]
      ensures mb.Delivered() == old(mb.Delivered()) + [message]
    {
      message := mb.Get();
    }
  }
}
