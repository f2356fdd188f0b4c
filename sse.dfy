// The server-sent-events broker: per job, the list of subscriber queues.
// A queue is named by a number; its buffer is a bounded FIFO of events.  The
// subscribe generator is split into its steps: registering, receiving one
// event, and the `finally` that unregisters.
module Sse {
  import opened TextUtil
  import opened JsonValue

  const QueueCapacity: nat := 100

  /** `event.get("status") in ("completed", "failed")` */
  predicate IsTerminal(event: Obj)
  {
    Get(event, "status") == Some(Str("completed")) || Get(event, "status") == Some(Str("failed"))
  }

  /** self._queues.get(job_id, []) */
  function QueuesOf(subscribers: map<string, seq<nat>>, jobId: string): seq<nat>
  {
    if jobId in subscribers then subscribers[jobId] else []
  }

  /** list.remove(q): the first occurrence goes. */
  function RemoveFirst(qs: seq<nat>, q: nat): (r: seq<nat>)
    ensures q in qs ==> |r| == |qs| - 1
    ensures q !in qs ==> r == qs
  {
    if qs == [] then []
    else if qs[0] == q then qs[1..]
    else [qs[0]] + RemoveFirst(qs[1..], q)
  }

  /** In a list without repeats, removing q removes exactly q. */
  lemma {:induction false} RemoveExactly(qs: seq<nat>, q: nat)
    requires forall i, j :: 0 <= i < j < |qs| ==> qs[i] != qs[j]
    ensures forall x :: x in RemoveFirst(qs, q) <==> x in qs && x != q
    ensures forall i, j :: 0 <= i < j < |RemoveFirst(qs, q)| ==> RemoveFirst(qs, q)[i] != RemoveFirst(qs, q)[j]
  {
    if qs != [] && qs[0] != q {
      RemoveExactly(qs[1..], q);
      var t := RemoveFirst(qs[1..], q);
      var r := RemoveFirst(qs, q);
      assert r == [qs[0]] + t;
      assert qs[0] !in qs[1..];
      forall i, j | 0 <= i < j < |r| ensures r[i] != r[j]
      {
        assert r[j] == t[j - 1];
        if i == 0 {
          assert t[j - 1] in t;
        } else {
          assert r[i] == t[i - 1];
        }
      }
    } else if qs != [] {
      assert forall i :: 1 <= i < |qs| ==> qs[i] != qs[0];
    }
  }

  /** Some queue in the list has room. */
  predicate AnyRoom(buffers: map<nat, seq<Obj>>, qs: seq<nat>)
    requires forall i :: 0 <= i < |qs| ==> qs[i] in buffers
  {
    exists i :: 0 <= i < |qs| && |buffers[qs[i]]| < QueueCapacity
  }

  /** The position of the first queue with room. */
  function FirstRoom(buffers: map<nat, seq<Obj>>, qs: seq<nat>): (k: nat)
    requires forall i :: 0 <= i < |qs| ==> qs[i] in buffers
    requires AnyRoom(buffers, qs)
    ensures k < |qs| && |buffers[qs[k]]| < QueueCapacity
    ensures forall i :: 0 <= i < k ==> |buffers[qs[i]]| >= QueueCapacity
  {
    if |buffers[qs[0]]| < QueueCapacity then 0
    else
      assert AnyRoom(buffers, qs[1..]) by {
        var i :| 0 <= i < |qs| && |buffers[qs[i]]| < QueueCapacity;
        assert qs[1..][i - 1] == qs[i];
      }
      1 + FirstRoom(buffers, qs[1..])
  }

  /** What publish does to the buffers: full queues are passed over, and the
      first queue with room gets the event, after which awaiting the None that
      put_nowait returned raises and ends the loop. */
  function Published(buffers: map<nat, seq<Obj>>, qs: seq<nat>, event: Obj): map<nat, seq<Obj>>
    requires forall i :: 0 <= i < |qs| ==> qs[i] in buffers
  {
    if !AnyRoom(buffers, qs) then buffers
    else buffers[qs[FirstRoom(buffers, qs)] := buffers[qs[FirstRoom(buffers, qs)]] + [event]]
  }

  /** publish reaches at most one subscriber: the first with room. */
  lemma PublishReachesOne(buffers: map<nat, seq<Obj>>, qs: seq<nat>, event: Obj)
    requires forall i :: 0 <= i < |qs| ==> qs[i] in buffers
    ensures Published(buffers, qs, event).Keys == buffers.Keys
    ensures forall q :: q in buffers && (!AnyRoom(buffers, qs) || q != qs[FirstRoom(buffers, qs)]) ==>
      Published(buffers, qs, event)[q] == buffers[q]
    ensures AnyRoom(buffers, qs) ==>
      var q := qs[FirstRoom(buffers, qs)];
      Published(buffers, qs, event)[q] == buffers[q] + [event] && |Published(buffers, qs, event)[q]| <= QueueCapacity
  {
  }

  /** With two subscribers that both have room, the second one misses the event. */
  lemma SecondSubscriberMissesEvent(event: Obj)
    ensures var buffers := map[0 := [], 1 := []];
      Published(buffers, [0, 1], event)[1] == [] && Published(buffers, [0, 1], event)[0] == [event]
  {
    var buffers: map<nat, seq<Obj>> := map[0 := [], 1 := []];
    assert |buffers[[0, 1][0]]| < QueueCapacity;
    assert FirstRoom(buffers, [0, 1]) == 0;
  }

  /** What the event loop looks like from the pipeline's thread. */
  datatype EventLoop = NoLoop | Loop(running: bool)

  class Manager {
    var subscribers: map<string, seq<nat>>
    var buffers: map<nat, seq<Obj>>
    /** The next queue name; queues are never reused. */
    var nextQueue: nat

    predicate Valid()
      reads this
    {
      (forall q :: q in buffers ==> q < nextQueue && |buffers[q]| <= QueueCapacity) &&
      (forall job :: job in subscribers ==>
        (forall i :: 0 <= i < |subscribers[job]| ==> subscribers[job][i] in buffers) &&
        (forall i, j :: 0 <= i < j < |subscribers[job]| ==> subscribers[job][i] != subscribers[job][j]))
    }

    constructor()
      ensures Valid() && subscribers == map[] && buffers == map[]
    {
      subscribers := map[];
      buffers := map[];
      nextQueue := 0;
    }

    /** The start of subscribe: a new empty queue of capacity 100 goes last in
        the job's list (the defaultdict creates the list if needed). */
    method Subscribe(jobId: string) returns (q: nat)
      requires Valid()
      modifies this
      ensures Valid()
      ensures q !in old(buffers) && buffers == old(buffers)[q := []]
      ensures subscribers == old(subscribers)[jobId := QueuesOf(old(subscribers), jobId) + [q]]
    {
      q := nextQueue;
      nextQueue := nextQueue + 1;
      buffers := buffers[q := []];
      subscribers := subscribers[jobId := QueuesOf(subscribers, jobId) + [q]];
    }

    /** The `finally` of subscribe: exactly this queue leaves the job's list. */
    method Unsubscribe(jobId: string, q: nat)
      requires Valid() && q in QueuesOf(subscribers, jobId)
      modifies this
      ensures Valid() && buffers == old(buffers)
      ensures subscribers == old(subscribers)[jobId := RemoveFirst(old(subscribers)[jobId], q)]
      ensures forall x :: x in subscribers[jobId] <==> x in old(subscribers)[jobId] && x != q
    {
      var qs := subscribers[jobId];
      RemoveExactly(qs, q);
      var r := RemoveFirst(qs, q);
      forall i | 0 <= i < |r| ensures r[i] in buffers
      {
        assert r[i] in r;
        var k :| 0 <= k < |qs| && qs[k] == r[i];
      }
      subscribers := subscribers[jobId := r];
    }

    /** One turn of subscribe's loop: take the oldest event (or block on an
        empty queue), yield it, and close the stream after a terminal one. */
    method Receive(jobId: string, q: nat) returns (event: Option<Obj>, ended: bool)
      requires Valid() && q in QueuesOf(subscribers, jobId)
      modifies this
      ensures Valid()
      ensures old(buffers)[q] == [] ==> event == None && !ended && buffers == old(buffers)
      ensures old(buffers)[q] != [] ==>
        event == Some(old(buffers)[q][0]) && buffers == old(buffers)[q := old(buffers)[q][1..]]
      ensures ended <==> event.Some? && IsTerminal(event.value)
      ensures ended ==> subscribers == old(subscribers)[jobId := RemoveFirst(old(subscribers)[jobId], q)]
      ensures !ended ==> subscribers == old(subscribers)
    {
      var i :| 0 <= i < |subscribers[jobId]| && subscribers[jobId][i] == q;
      if buffers[q] == [] {
        return None, false;
      }
      var e := buffers[q][0];
      buffers := buffers[q := buffers[q][1..]];
      event := Some(e);
      ended := IsTerminal(e);
      if ended {
        Unsubscribe(jobId, q);
      }
    }

    /** publish: the job's list is copied, then each queue in turn; a full
        queue drops the event, and the first enqueue ends in a TypeError
        (`raised`).  A job without subscribers gets no entry. */
    method Publish(jobId: string, event: Obj) returns (raised: bool)
      requires Valid()
      modifies this
      ensures Valid() && subscribers == old(subscribers) && nextQueue == old(nextQueue)
      ensures buffers == Published(old(buffers), QueuesOf(old(subscribers), jobId), event)
      ensures raised <==> AnyRoom(old(buffers), QueuesOf(old(subscribers), jobId))
    {
      var qs := QueuesOf(subscribers, jobId);
      var i := 0;
      while i < |qs|
        invariant 0 <= i <= |qs| && buffers == old(buffers)
        invariant forall k :: 0 <= k < i ==> |buffers[qs[k]]| >= QueueCapacity
      {
        if |buffers[qs[i]]| < QueueCapacity {
          assert AnyRoom(buffers, qs);
          assert FirstRoom(buffers, qs) == i by {
            FirstRoomIs(buffers, qs, i);
          }
          buffers := buffers[qs[i] := buffers[qs[i]] + [event]];
          return true;
        }
        i := i + 1;
      }
      return false;
    }

    /** broadcast_sync: the publish is scheduled only on a running loop. */
    method BroadcastSync(jobId: string, event: Obj, loop: EventLoop) returns (scheduled: bool)
      requires Valid()
      modifies this
      ensures Valid() && subscribers == old(subscribers)
      ensures scheduled <==> loop.Loop? && loop.running
      ensures scheduled ==> buffers == Published(old(buffers), QueuesOf(old(subscribers), jobId), event)
      ensures !scheduled ==> buffers == old(buffers)
    {
      scheduled := loop.Loop? && loop.running;
      if scheduled {
        // The TypeError ends up in the scheduled future, where nobody reads it.
        var _ := Publish(jobId, event);
      }
    }
  }

  /** The first queue with room is the one before which all are full. */
  lemma FirstRoomIs(buffers: map<nat, seq<Obj>>, qs: seq<nat>, i: nat)
    requires forall k :: 0 <= k < |qs| ==> qs[k] in buffers
    requires i < |qs| && |buffers[qs[i]]| < QueueCapacity
    requires forall k :: 0 <= k < i ==> |buffers[qs[k]]| >= QueueCapacity
    ensures AnyRoom(buffers, qs) && FirstRoom(buffers, qs) == i
  {
    var k := FirstRoom(buffers, qs);
  }
}
