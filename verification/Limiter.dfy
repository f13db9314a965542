/**
  The inference limiter as an object. A Ticket is one Acquire call: its grant
  channel, closed at most once, and its release, which acts at most once. Acquire
  is split where the program blocks: Enter runs up to the select, then either the
  grant is seen and Release follows in its time, or the context ends and Cancel runs.
 */
module Limiter {
  import opened LimiterSpec

  class Ticket {
    const priority: Priority
    var granted: bool
    var released: bool

    constructor (priority: Priority)
      ensures this.priority == priority && !granted && !released
    {
      this.priority := priority;
      granted, released := false, false;
    }
  }

  class InferenceLimiter {
    const capacity: int
    var inUse: int
    var profileHeld: bool
    var assessmentWaiters: seq<Ticket>
    var profileWaiters: seq<Ticket>
    ghost var slots: map<Ticket, Priority>

    ghost function Mon(): Monitor<Ticket>
      reads this
    {
      Monitor(capacity, inUse, profileHeld, assessmentWaiters, profileWaiters, slots)
    }

    ghost predicate Valid()
      reads this, assessmentWaiters, profileWaiters, slots.Keys
    {
      Inv(Mon()) && TicketsOk()
    }

    /** Tickets agree with where the monitor has them. */
    ghost predicate TicketsOk()
      reads this, assessmentWaiters, profileWaiters, slots.Keys
    {
      && (forall t :: t in slots ==> t.granted && !t.released && slots[t] == t.priority)
      && (forall t :: t in assessmentWaiters ==> !t.granted && !t.released && t.priority == ForAssessment)
      && (forall t :: t in profileWaiters ==> !t.granted && !t.released && t.priority == ForProfile)
    }

    constructor (capacity: int)
      ensures Valid() && Mon() == LimiterSpec.New(capacity)
    {
      this.capacity := if capacity < 1 then 1 else capacity;
      inUse, profileHeld := 0, false;
      assessmentWaiters, profileWaiters := [], [];
      slots := map[];
      new;
      EveryRunIsSafe<Ticket>(capacity, []);
    }

    method TryGrant(priority: Priority) returns (granted: bool)
      modifies this`inUse, this`profileHeld
      ensures granted <==> old(inUse) < capacity && (priority == ForAssessment || !old(profileHeld))
      ensures inUse == old(inUse) + if granted then 1 else 0
      ensures profileHeld == (old(profileHeld) || (granted && priority == ForProfile))
    {
      if inUse >= capacity {
        return false;
      }
      if priority == ForProfile && profileHeld {
        return false;
      }
      inUse := inUse + 1;
      if priority == ForProfile {
        profileHeld := true;
      }
      return true;
    }

    /** Acquire up to its select: the ticket comes back granted, or waiting in its queue. */
    method Enter(priority: Priority) returns (t: Ticket)
      requires Valid()
      modifies this
      ensures Valid() && fresh(t) && t.priority == priority
      ensures Mon() == Arrive(old(Mon()), t, priority)
      ensures t.granted <==> t in slots
      ensures t.granted <==> old(inUse) < capacity && (priority == ForAssessment || !old(profileHeld))
    {
      t := new Ticket(priority);
      ghost var before := Mon();
      NewcomerKeeps(before, t, priority);
      GrantOrQueue(t);
    }

    method GrantOrQueue(t: Ticket)
      requires TicketsOk() && !t.granted && !t.released && t !in assessmentWaiters && t !in profileWaiters
      requires t !in slots
      modifies this, t
      ensures TicketsOk() && Mon() == Arrive(old(Mon()), t, t.priority) && (t.granted <==> t in slots)
      ensures t.granted <==> old(inUse) < capacity && (t.priority == ForAssessment || !old(profileHeld))
    {
      var granted := TryGrant(t.priority);
      if granted {
        Hold(t);
      } else {
        Enqueue(t);
      }
    }

    lemma NewcomerKeeps(before: Monitor<Ticket>, t: Ticket, p: Priority)
      requires Inv(before) && t !in before.assessments && t !in before.profiles && t !in before.slots
      ensures Inv(Arrive(before, t, p))
    {
      StepKeeps(before, Arrives(t, p));
    }

    method Hold(t: Ticket)
      requires TicketsOk() && t !in assessmentWaiters && t !in profileWaiters && !t.released
      modifies this`slots, t
      ensures TicketsOk() && t.granted && slots == old(slots)[t := t.priority]
    {
      t.granted := true;
      slots := slots[t := t.priority];
    }

    method Enqueue(t: Ticket)
      requires TicketsOk() && !t.granted && !t.released
      modifies this`assessmentWaiters, this`profileWaiters
      ensures TicketsOk() && Mon() == LimiterSpec.Enqueue(old(Mon()), t, t.priority)
    {
      if t.priority == ForAssessment {
        assessmentWaiters := assessmentWaiters + [t];
      } else {
        profileWaiters := profileWaiters + [t];
      }
    }

    /** Removes t from its queue; false means a release granted it meanwhile. */
    method Dequeue(t: Ticket) returns (found: bool)
      requires TicketsOk()
      modifies this`assessmentWaiters, this`profileWaiters
      ensures TicketsOk()
      ensures found == (t in Queue(old(Mon()), t.priority)) && (!found ==> Mon() == old(Mon()))
      ensures Mon() == Dequeued(old(Mon()), t, t.priority)
      ensures forall x :: x in assessmentWaiters ==> x in old(assessmentWaiters)
      ensures forall x :: x in profileWaiters ==> x in old(profileWaiters)
    {
      if t.priority == ForAssessment {
        assessmentWaiters, found := Remove(assessmentWaiters, t);
      } else {
        profileWaiters, found := Remove(profileWaiters, t);
      }
    }

    static method Remove(queue: seq<Ticket>, t: Ticket) returns (rest: seq<Ticket>, found: bool)
      ensures found == (t in queue) && rest == Without(queue, t) && (!found ==> rest == queue)
      ensures forall x :: x in rest ==> x in queue
    {
      for i := 0 to |queue|
        invariant t !in queue[..i]
        invariant queue[..i] + Without(queue[i..], t) == Without(queue, t)
      {
        assert queue[i..][1..] == queue[i + 1..];
        if queue[i] == t {
          return queue[..i] + queue[i + 1..], true;
        }
      }
      assert queue[..|queue|] == queue;
      return queue, false;
    }

    method WakeNext()
      requires Placed(Mon()) && TicketsOk()
      modifies this, assessmentWaiters, profileWaiters
      ensures Mon() == Wake(old(Mon())) && TicketsOk()
      ensures forall t :: t in old(assessmentWaiters) || t in old(profileWaiters) ==> t.released == old(t.released)
    {
      if inUse >= capacity {
        return;
      }
      if |assessmentWaiters| > 0 {
        var w := assessmentWaiters[0];
        assessmentWaiters := assessmentWaiters[1..];
        inUse := inUse + 1;
        w.granted := true;
        slots := slots[w := ForAssessment];
        return;
      }
      if !profileHeld && |profileWaiters| > 0 {
        var w := profileWaiters[0];
        profileWaiters := profileWaiters[1..];
        inUse := inUse + 1;
        profileHeld := true;
        w.granted := true;
        slots := slots[w := ForProfile];
      }
    }

    /** The release func: the first call gives the slot back and wakes one waiter, later calls do nothing. */
    method Release(t: Ticket)
      requires Valid() && (t in slots || t.released)
      modifies this, t, assessmentWaiters, profileWaiters
      ensures Valid() && t.released
      ensures Mon() == if old(t.released) then old(Mon()) else LimiterSpec.Release(old(Mon()), t)
    {
      if t.released {
        return;
      }
      ghost var before := Mon();
      ReleaseKeeps(before, t);
      GiveBack(t);
      GivePlaces(before, t);
      WakeNext();
    }

    method GiveBack(t: Ticket)
      requires TicketsOk() && Placed(Mon()) && t in slots
      modifies this`inUse, this`profileHeld, this`slots, t
      ensures TicketsOk() && Mon() == Give(old(Mon()), t) && t.released
    {
      t.released := true;
      inUse := inUse - 1;
      if t.priority == ForProfile {
        profileHeld := false;
      }
      slots := slots - {t};
    }

    lemma GivePlaces(before: Monitor<Ticket>, t: Ticket)
      requires Placed(before) && t in before.slots
      ensures Placed(Give(before, t))
      ensures t !in before.assessments && t !in before.profiles
    {
    }

    /** The context ended: leave the queue, or give back a slot granted in the meantime. */
    method Cancel(t: Ticket)
      requires Valid() && Known(Mon(), t)
      modifies this, t, assessmentWaiters, profileWaiters
      ensures Valid() && Mon() == LimiterSpec.Cancel(old(Mon()), t)
      ensures !Known(Mon(), t)
    {
      ghost var before := Mon();
      CancelKeeps(before, t);
      CancelLeavesOrReleases(before, t);
      var stillWaiting := Dequeue(t);
      if !stillWaiting {
        Release(t);
      }
    }

    lemma CancelKeeps(before: Monitor<Ticket>, t: Ticket)
      requires Inv(before)
      ensures Inv(LimiterSpec.Cancel(before, t)) && !Known(LimiterSpec.Cancel(before, t), t)
    {
      StepKeeps(before, Cancels(t));
      WithoutDrops(before.assessments, t);
      WithoutDrops(before.profiles, t);
      if t !in before.assessments && t !in before.profiles && t in before.slots {
        ReleasePlaces(before, t);
      }
    }

    /** A known ticket waits in its own queue, or holds a slot and waits nowhere. */
    lemma CancelLeavesOrReleases(before: Monitor<Ticket>, t: Ticket)
      requires Inv(before) && Known(before, t)
      requires forall x :: x in before.assessments ==> x.priority == ForAssessment
      requires forall x :: x in before.profiles ==> x.priority == ForProfile
      ensures if t in Queue(before, t.priority) then LimiterSpec.Cancel(before, t) == Dequeued(before, t, t.priority)
              else t in before.slots && LimiterSpec.Cancel(before, t) == LimiterSpec.Release(before, t)
    {
    }
  }
}
