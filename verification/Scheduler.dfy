/** The event scheduler of newLibs/eventscheduler.cpp: its critical sections on a real heap, as a class,
    and all interleavings of callers, dispatcher and destructor, as a transition system. */
module Scheduler {
  import opened EventTime
  import opened EventHeap

  // ---------- What a critical section does to the queue and its count ----------

  ghost predicate Inserted(q: seq<Event>, n: int, q': seq<Event>, n': int, e: Event) {
    IsHeap(q') && multiset(q') == multiset(q) + multiset{e} && n' == n + 1
  }

  ghost predicate Removed(q: seq<Event>, n: int, q': seq<Event>, n': int, e: Event) {
    IsHeap(q') && multiset(q) == multiset(q') + multiset{e} && n' == n - 1
  }

  ghost predicate Rearranged(q: seq<Event>, q': seq<Event>) {
    IsHeap(q') && multiset(q') == multiset(q)
  }

  /** The position where the search loop of eventCancel stops, or the length. */
  function FirstWith(q: seq<Event>, id: int): (i: nat)
    ensures i <= |q|
    ensures i < |q| ==> q[i].id == id
    ensures forall j :: 0 <= j < i ==> q[j].id != id
  {
    if q == [] || q[0].id == id then 0 else 1 + FirstWith(q[1..], id)
  }

  /** One round of the dispatcher, under the lock: wait, or fire the front. */
  datatype Round = Wait | Fire(event: Event)

  ghost predicate RoundOk(q: seq<Event>, n: int, q': seq<Event>, n': int, now: Timespec, round: Round) {
    if q == [] then round == Wait && q' == [] && n' == n
    else if DifferenceNsec(now, q[0].timeout) < 0 then round == Wait && Rearranged(q, q') && n' == n
    else round == Fire(q[0]) && Removed(q, n, q', n', q[0])
  }

  class EventScheduler {
    const maxEvents: nat
    var nextId: int
    var queue: seq<Event>
    var numEvents: int
    var terminate: bool

    ghost predicate Valid()
      reads this
    {
      IsHeap(queue) && numEvents == |queue|
    }

    constructor (maxEvents: nat)
      ensures Valid() && this.maxEvents == maxEvents && queue == [] && nextId == 0 && !terminate
    {
      this.maxEvents, nextId, numEvents, terminate := maxEvents, 0, 0, false;
      queue := [];
    }

    /** The destructor's part under the lock. */
    method Terminate()
      requires Valid()
      modifies this`terminate
      ensures Valid() && terminate
    {
      terminate := true;
    }

    /** eventSchedule by a single caller; -1 when the scheduler is full. */
    method EventSchedule(job: nat, timeout: int32, now: Timespec) returns (id: int)
      requires Valid()
      modifies this`nextId, this`queue, this`numEvents
      ensures Valid()
      ensures old(|queue|) >= maxEvents ==> id == -1 && unchanged(this)
      ensures old(|queue|) < maxEvents ==>
                && id == old(nextId) && nextId == id + 1
                && Inserted(old(queue), old(numEvents), queue, numEvents,
                            Event(id, job, Deadline(now, timeout), now, timeout))
      ensures old(|queue|) <= maxEvents ==> |queue| <= maxEvents
    {
      if numEvents >= maxEvents {
        return -1;
      }
      id := nextId;
      nextId := nextId + 1;
      Insert(Event(id, job, Deadline(now, timeout), now, timeout));
    }

    /** push_back and push_heap under the lock. */
    method Insert(e: Event)
      requires Valid()
      modifies this`queue, this`numEvents
      ensures Valid() && Inserted(old(queue), old(numEvents), queue, numEvents, e)
      ensures |queue| == old(|queue|) + 1
    {
      numEvents := numEvents + 1;
      assert (queue + [e])[..|queue + [e]| - 1] == queue;
      ghost var was := queue;
      queue := PushHeap(queue + [e]);
      SameSize(queue, was + [e]);
    }

    /** One round of execute at clock reading `now`, from taking the lock to releasing it. */
    method Execute(now: Timespec) returns (round: Round)
      requires Valid()
      modifies this`queue, this`numEvents
      ensures Valid() && RoundOk(old(queue), old(numEvents), queue, numEvents, now, round)
      ensures round.Fire? ==> forall x :: x in queue ==> !EventLater(round.event, x)
    {
      var differenceNsec := -1;
      ghost var was := queue;
      if queue != [] {
        var popped := PopHeap(queue);
        var n := |popped| - 1;
        var myEvent, rest := popped[n], popped[..n];
        assert popped == rest + [myEvent];
        differenceNsec := DifferenceNsec(now, myEvent.timeout);
        if differenceNsec < 0 {
          assert (rest + [myEvent])[..n] == rest;
          queue := PushHeap(rest + [myEvent]);
          SameSize(queue, was);
          return Wait;
        }
        queue := rest;
        numEvents := numEvents - 1;
        forall x | x in queue ensures !EventLater(myEvent, x) {
          assert x in multiset(was);
          var i :| 0 <= i < |was| && was[i] == x;
          FrontIsEarliest(was, i);
        }
        return Fire(myEvent);
      }
      return Wait;
    }

    /** Removes the first event with this id, if there is one, and rebuilds the heap. */
    method EventCancel(eventId: int)
      requires Valid()
      modifies this`queue, this`numEvents
      ensures Valid()
      ensures var i := FirstWith(old(queue), eventId);
              if i < |old(queue)| then Removed(old(queue), old(numEvents), queue, numEvents, old(queue)[i])
              else queue == old(queue) && numEvents == old(numEvents)
    {
      ghost var was := queue;
      var it := 0;
      while it < |queue| && queue[it].id != eventId
        invariant 0 <= it <= |queue|
        invariant forall j :: 0 <= j < it ==> queue[j].id != eventId
      {
        it := it + 1;
      }
      assert it == FirstWith(was, eventId);
      if it < |queue| {
        var erased := queue[..it] + queue[it + 1..];
        assert queue == queue[..it] + [queue[it]] + queue[it + 1..];
        queue := MakeHeap(erased);
        SameSize(queue, erased);
        numEvents := numEvents - 1;
      }
    }
  }

  lemma SameSize(q: seq<Event>, r: seq<Event>)
    requires multiset(q) == multiset(r)
    ensures |q| == |r|
  {
    assert |multiset(q)| == |q| && |multiset(r)| == |r|;
  }
}
