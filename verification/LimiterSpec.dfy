/**
  The inference limiter as a monitor on values: one shared capacity, at most one
  profile, two FIFO queues, and one wake-up per release. `slots` is the history of
  who holds what: every ticket granted and not yet released.
 */
module LimiterSpec {
  import opened Sequences

  datatype Priority = ForAssessment | ForProfile

  datatype Monitor<W> = Monitor(
    capacity: int,
    inUse: int,
    profileHeld: bool,
    assessments: seq<W>,
    profiles: seq<W>,
    slots: map<W, Priority>)

  /** Capacities below one are clamped. */
  function New<W>(capacity: int): Monitor<W> {
    Monitor(if capacity < 1 then 1 else capacity, 0, false, [], [], map[])
  }

  function Queue<W>(m: Monitor<W>, p: Priority): seq<W> {
    if p == ForAssessment then m.assessments else m.profiles
  }

  /** Whether the limiter would grant a request of this class right now. */
  predicate Eligible<W>(m: Monitor<W>, p: Priority) {
    m.inUse < m.capacity && !(p == ForProfile && m.profileHeld)
  }

  function Take<W>(m: Monitor<W>, w: W, p: Priority): Monitor<W> {
    m.(inUse := m.inUse + 1, profileHeld := m.profileHeld || p == ForProfile, slots := m.slots[w := p])
  }

  function Enqueue<W>(m: Monitor<W>, w: W, p: Priority): Monitor<W> {
    if p == ForAssessment then m.(assessments := m.assessments + [w]) else m.(profiles := m.profiles + [w])
  }

  /** Acquire up to the point where it returns or blocks. */
  function Arrive<W>(m: Monitor<W>, w: W, p: Priority): Monitor<W> {
    if Eligible(m, p) then Take(m, w, p) else Enqueue(m, w, p)
  }

  function Wake<W>(m: Monitor<W>): Monitor<W> {
    if m.inUse >= m.capacity then m
    else if m.assessments != [] then Take(m, m.assessments[0], ForAssessment).(assessments := m.assessments[1..])
    else if !m.profileHeld && m.profiles != [] then Take(m, m.profiles[0], ForProfile).(profiles := m.profiles[1..])
    else m
  }

  /** The monitor between giving a slot back and waking the next waiter. */
  function Give<W>(m: Monitor<W>, w: W): Monitor<W>
    requires w in m.slots
  {
    m.(inUse := m.inUse - 1, profileHeld := m.profileHeld && m.slots[w] != ForProfile, slots := m.slots - {w})
  }

  function Release<W>(m: Monitor<W>, w: W): Monitor<W>
    requires w in m.slots
  {
    Wake(Give(m, w))
  }

  function Without<W(==)>(queue: seq<W>, w: W): seq<W> {
    if queue == [] then [] else if queue[0] == w then queue[1..] else [queue[0]] + Without(queue[1..], w)
  }

  /** The monitor once w has left the queue of its class. */
  function Dequeued<W(==)>(m: Monitor<W>, w: W, p: Priority): Monitor<W> {
    if p == ForAssessment then m.(assessments := Without(m.assessments, w)) else m.(profiles := Without(m.profiles, w))
  }

  /** A cancelled Acquire leaves its queue, or gives straight back the slot it was granted meanwhile. */
  function Cancel<W(==)>(m: Monitor<W>, w: W): Monitor<W> {
    if w in m.assessments then Dequeued(m, w, ForAssessment)
    else if w in m.profiles then Dequeued(m, w, ForProfile)
    else if w in m.slots then Release(m, w)
    else m
  }

  // ---- Runs ----

  datatype Event<W> = Arrives(w: W, p: Priority) | Releases(w: W) | Cancels(w: W)

  predicate Known<W(==)>(m: Monitor<W>, w: W) {
    w in m.assessments || w in m.profiles || w in m.slots
  }

  /** A ticket arrives once; releasing twice, or what one does not hold, does nothing. */
  function Step<W(==)>(m: Monitor<W>, e: Event<W>): Monitor<W> {
    match e
    case Arrives(w, p) => if Known(m, w) then m else Arrive(m, w, p)
    case Releases(w) => if w in m.slots then Release(m, w) else m
    case Cancels(w) => Cancel(m, w)
  }

  function Run<W(==)>(m: Monitor<W>, events: seq<Event<W>>): Monitor<W>
    decreases |events|
  {
    if events == [] then m else Run(Step(m, events[0]), events[1..])
  }

  // ---- The monitor invariant ----

  function Profiles<W(==)>(m: Monitor<W>): set<W> {
    set w | w in m.slots && m.slots[w] == ForProfile
  }

  predicate Placed<W(==)>(m: Monitor<W>) {
    && Distinct(m.assessments) && Distinct(m.profiles)
    && (forall w :: w in m.assessments ==> w !in m.profiles && w !in m.slots)
    && (forall w :: w in m.profiles ==> w !in m.slots)
  }

  predicate Counted<W(==)>(m: Monitor<W>) {
    && m.inUse == |m.slots| && m.inUse <= m.capacity && m.capacity >= 1
    && |Profiles(m)| == (if m.profileHeld then 1 else 0)
  }

  /** An assessment waits only while every slot is taken, a profile also while another one runs. */
  predicate NobodyForgotten<W(==)>(m: Monitor<W>) {
    && (m.assessments != [] ==> m.inUse == m.capacity)
    && (m.profiles != [] ==> m.inUse == m.capacity || m.profileHeld)
  }

  predicate Inv<W(==)>(m: Monitor<W>) {
    Placed(m) && Counted(m) && NobodyForgotten(m)
  }

  lemma TakeCounts<W>(m: Monitor<W>, w: W, p: Priority)
    requires Counted(m) && w !in m.slots && Eligible(m, p)
    ensures Counted(Take(m, w, p))
  {
    var m' := Take(m, w, p);
    assert m'.slots.Keys == m.slots.Keys + {w};
    TakeProfiles(m, w, p);
  }

  lemma TakeProfiles<W>(m: Monitor<W>, w: W, p: Priority)
    requires w !in m.slots
    ensures w !in Profiles(m) && Profiles(Take(m, w, p)) == if p == ForProfile then Profiles(m) + {w} else Profiles(m)
  {
  }

  lemma GiveCounts<W>(m: Monitor<W>, w: W)
    requires Counted(m) && w in m.slots
    ensures Counted(Give(m, w)) && Give(m, w).inUse < m.capacity
  {
    var m' := Give(m, w);
    assert m'.slots.Keys == m.slots.Keys - {w};
    assert Profiles(m') == Profiles(m) - {w};
    assert w in Profiles(m) <==> m.slots[w] == ForProfile;
  }

  lemma {:induction false} WithoutDrops<W>(queue: seq<W>, w: W)
    requires Distinct(queue)
    ensures Distinct(Without(queue, w))
    ensures forall x :: x in Without(queue, w) <==> x in queue && x != w
  {
    if queue == [] {
    } else {
      WithoutDrops(queue[1..], w);
      assert forall x :: x in queue <==> x == queue[0] || x in queue[1..];
      assert queue[0] !in queue[1..];
      if queue[0] != w {
        assert forall x :: x in Without(queue, w) <==> x == queue[0] || x in Without(queue[1..], w);
      }
    }
  }

  /** Whom a release serves: the first assessment, else the first profile if no other profile is held. */
  lemma ReleaseServes<W>(m: Monitor<W>, w: W)
    requires Inv(m) && w in m.slots
    ensures var (m', rest) := (Release(m, w), m.slots - {w});
            if m.assessments != [] then
              && m'.assessments == m.assessments[1..] && m'.profiles == m.profiles
              && m'.slots == rest[m.assessments[0] := ForAssessment]
            else if m.profiles != [] && (m.slots[w] == ForProfile || !m.profileHeld) then
              && m'.assessments == [] && m'.profiles == m.profiles[1..]
              && m'.slots == rest[m.profiles[0] := ForProfile]
            else m'.assessments == [] && m'.profiles == m.profiles && m'.slots == rest
  {
  }

  lemma ReleaseCounts<W>(m: Monitor<W>, w: W)
    requires Inv(m) && w in m.slots
    ensures Counted(Release(m, w))
  {
    GiveCounts(m, w);
    var given := Give(m, w);
    if m.assessments != [] {
      assert m.assessments[0] in m.assessments;
      TakeCounts(given, m.assessments[0], ForAssessment);
    } else if !given.profileHeld && m.profiles != [] {
      assert m.profiles[0] in m.profiles;
      TakeCounts(given, m.profiles[0], ForProfile);
    }
  }

  lemma ReleasePlaces<W>(m: Monitor<W>, w: W)
    requires Inv(m) && w in m.slots
    ensures Placed(Release(m, w)) && !Known(Release(m, w), w)
  {
    ReleaseServes(m, w);
    var m' := Release(m, w);
    assert forall x :: x in m'.assessments ==> x in m.assessments;
    assert forall x :: x in m'.profiles ==> x in m.profiles;
    if m.assessments != [] {
      assert m.assessments[0] in m.assessments;
    } else if m.profiles != [] {
      assert m.profiles[0] in m.profiles;
    }
  }

  /** One wake-up per release is enough: the slot it frees is offered to the only waiters it can serve. */
  lemma ReleaseKeeps<W>(m: Monitor<W>, w: W)
    requires Inv(m) && w in m.slots
    ensures Inv(Release(m, w))
  {
    ReleaseCounts(m, w);
    ReleasePlaces(m, w);
  }

  lemma StepKeeps<W>(m: Monitor<W>, e: Event<W>)
    requires Inv(m)
    ensures Inv(Step(m, e))
  {
    match e
    case Arrives(w, p) =>
      if !Known(m, w) && Eligible(m, p) {
        TakeCounts(m, w, p);
      }
    case Releases(w) =>
      if w in m.slots {
        ReleaseKeeps(m, w);
      }
    case Cancels(w) =>
      WithoutDrops(m.assessments, w);
      WithoutDrops(m.profiles, w);
      if w !in m.assessments && w !in m.profiles && w in m.slots {
        ReleaseKeeps(m, w);
      }
  }

  /** Every run keeps the monitor invariant, and no run changes the capacity. */
  lemma {:induction false} RunKeeps<W>(m: Monitor<W>, events: seq<Event<W>>)
    requires Inv(m)
    ensures Inv(Run(m, events)) && Run(m, events).capacity == m.capacity
    decreases |events|
  {
    if events == [] {
    } else {
      StepKeeps(m, events[0]);
      RunKeeps(Step(m, events[0]), events[1..]);
    }
  }

  lemma EveryRunIsSafe<W>(capacity: int, events: seq<Event<W>>)
    ensures var m := Run(New<W>(capacity), events);
            Inv(m) && m.capacity == if capacity < 1 then 1 else capacity
  {
    var start: Monitor<W> := New(capacity);
    assert Profiles(start) == {};
    RunKeeps(start, events);
  }

  /**
    In every run an arrival holds a slot at once if one is free and it is not a profile
    behind another profile; otherwise it stands last in the queue of its class.
   */
  lemma AnArrivalIsSeatedExactlyWhen<W>(capacity: int, events: seq<Event<W>>, w: W, p: Priority)
    requires !Known(Run(New<W>(capacity), events), w)
    ensures var m := Run(New<W>(capacity), events);
            var m' := Step(m, Arrives(w, p));
            var seated := |m.slots| < (if capacity < 1 then 1 else capacity) &&
                          (p == ForAssessment || forall x :: x in m.slots ==> m.slots[x] == ForAssessment);
            && m'.slots == (if seated then m.slots[w := p] else m.slots)
            && m'.assessments == m.assessments + (if !seated && p == ForAssessment then [w] else [])
            && m'.profiles == m.profiles + (if !seated && p == ForProfile then [w] else [])
  {
    EveryRunIsSafe(capacity, events);
    var m := Run(New<W>(capacity), events);
    ProfileIsHeldExactlyWhen(m);
  }

  lemma ProfileIsHeldExactlyWhen<W>(m: Monitor<W>)
    requires Counted(m)
    ensures !m.profileHeld <==> forall x :: x in m.slots ==> m.slots[x] == ForAssessment
  {
    if m.profileHeld {
      var x :| x in Profiles(m);
      assert m.slots[x] == ForProfile;
    } else {
      forall x | x in m.slots
        ensures m.slots[x] == ForAssessment
      {
        assert x !in Profiles(m);
      }
    }
  }

  // ---- Who gets a slot ----

  /** The tickets a step grants. */
  function Granted<W(==)>(m: Monitor<W>, m': Monitor<W>): set<W> {
    m'.slots.Keys - m.slots.Keys
  }

  /** The grant a release makes. */
  lemma ReleaseGrants<W>(m: Monitor<W>, r: W, w: W)
    requires Inv(m) && r in m.slots && w in Granted(m, Release(m, r))
    ensures var m' := Release(m, r);
            var p := m'.slots[w];
            && Granted(m, m') == {w}
            && (p == ForProfile ==> m.assessments == [])
            && Queue(m, p) != [] && w == Queue(m, p)[0] && Queue(m', p) == Queue(m, p)[1..]
  {
    ReleaseServes(m, r);
    if m.assessments != [] {
      assert w == m.assessments[0];
    } else {
      assert w == m.profiles[0];
    }
  }

  lemma ArrivalGrants<W>(m: Monitor<W>, e: Event<W>, w: W)
    requires Inv(m) && e.Arrives? && w in Granted(m, Step(m, e))
    ensures e.w == w && Granted(m, Step(m, e)) == {w} && Step(m, e).slots[w] == e.p && Queue(m, e.p) == []
    ensures e.p == ForProfile ==> m.assessments == []
  {
    assert Step(m, e) == Take(m, e.w, e.p);
  }

  /**
    A grant goes to an arrival whose class nobody waits in, or to the head of a queue;
    a profile is granted only while no assessment waits and no other profile is held;
    one step grants at most one.
   */
  lemma GrantsAreFair<W>(capacity: int, events: seq<Event<W>>, e: Event<W>, w: W)
    requires var m := Run(New<W>(capacity), events); w in Granted(m, Step(m, e))
    ensures var m := Run(New<W>(capacity), events);
            var m' := Step(m, e);
            && Granted(m, m') == {w}
            && (m'.slots[w] == ForProfile ==> m.assessments == [] && Profiles(m') == {w})
            && (if e.Arrives? then e.w == w && m'.slots[w] == e.p && Queue(m, e.p) == []
                else Queue(m, m'.slots[w]) != [] && w == Queue(m, m'.slots[w])[0] &&
                     Queue(m', m'.slots[w]) == Queue(m, m'.slots[w])[1..])
  {
    EveryRunIsSafe(capacity, events);
    var m := Run(New<W>(capacity), events);
    StepKeeps(m, e);
    var m' := Step(m, e);
    if e.Arrives? {
      ArrivalGrants(m, e, w);
    } else {
      assert m' == Release(m, e.w);
      ReleaseGrants(m, e.w, w);
    }
    if m'.slots[w] == ForProfile {
      assert w in Profiles(m');
      OnlyOne(Profiles(m'), w);
    }
  }

  lemma OnlyOne<W>(s: set<W>, w: W)
    requires w in s && |s| == 1
    ensures s == {w}
  {
    assert |s - {w}| == 0;
    assert s == {w} + (s - {w});
  }

  lemma ReleaseReturnsItsOwn<W>(m: Monitor<W>, r: W)
    requires Inv(m) && r in m.slots
    ensures m.slots - {r} == Release(m, r).slots - Granted(m, Release(m, r))
  {
    ReleaseServes(m, r);
    var rest := m.slots - {r};
    if m.assessments != [] {
      assert m.assessments[0] in m.assessments;
      HandedOver(m.slots, r, m.assessments[0], ForAssessment);
    } else if m.profiles != [] && (m.slots[r] == ForProfile || !m.profileHeld) {
      assert m.profiles[0] in m.profiles;
      HandedOver(m.slots, r, m.profiles[0], ForProfile);
    } else {
      assert rest.Keys - m.slots.Keys == {};
    }
  }

  lemma HandedOver<W>(slots: map<W, Priority>, r: W, w: W, p: Priority)
    requires r in slots && w !in slots
    ensures var slots' := (slots - {r})[w := p];
            slots'.Keys - slots.Keys == {w} && slots' - (slots'.Keys - slots.Keys) == slots - {r}
  {
  }

  /** Cancelling a waiter touches no slot; cancelling a granted ticket returns exactly its own. */
  lemma CancelLeaksNothing<W>(capacity: int, events: seq<Event<W>>, w: W)
    ensures var m := Run(New<W>(capacity), events);
            var m' := Step(m, Cancels(w));
            && !Known(m', w)
            && (w in m.slots ==> m.slots - {w} == m'.slots - Granted(m, m'))
            && (w !in m.slots ==> m'.slots == m.slots && m'.inUse == m.inUse)
  {
    EveryRunIsSafe(capacity, events);
    var m := Run(New<W>(capacity), events);
    if w in m.slots {
      ReleaseReturnsItsOwn(m, w);
      ReleasePlaces(m, w);
    } else {
      WithoutDrops(m.assessments, w);
      WithoutDrops(m.profiles, w);
    }
  }

  // ---- Order and progress ----

  /** The step gives a slot back. */
  predicate Frees<W(==)>(m: Monitor<W>, e: Event<W>) {
    !e.Arrives? && e.w in m.slots
  }

  function Freed<W(==)>(m: Monitor<W>, events: seq<Event<W>>): nat
    decreases |events|
  {
    if events == [] then 0 else (if Frees(m, events[0]) then 1 else 0) + Freed(Step(m, events[0]), events[1..])
  }

  predicate EverGranted<W(==)>(m: Monitor<W>, events: seq<Event<W>>, w: W)
    decreases |events|
  {
    w in m.slots || (events != [] && EverGranted(Step(m, events[0]), events[1..], w))
  }

  /** Removing another element moves w at most one place forward and never back. */
  lemma {:induction false} WithoutShifts<W>(queue: seq<W>, x: W, i: nat) returns (j: nat)
    requires i < |queue| && queue[i] != x
    ensures j <= i && j < |Without(queue, x)| && Without(queue, x)[j] == queue[i]
  {
    if queue[0] == x {
      j := i - 1;
    } else if i == 0 {
      j := 0;
    } else {
      j := WithoutShifts(queue[1..], x, i - 1);
      j := j + 1;
    }
  }

  /** Every slot given back moves a waiting assessment forward or grants it. */
  lemma AssessmentAdvances<W>(m: Monitor<W>, e: Event<W>, i: nat) returns (j: nat)
    requires Inv(m) && i < |m.assessments| && e != Cancels(m.assessments[i])
    ensures var (m', w) := (Step(m, e), m.assessments[i]);
            w in m'.slots ||
            (j < |m'.assessments| && m'.assessments[j] == w && if Frees(m, e) then j < i else j <= i)
  {
    j := i;
    if Frees(m, e) {
      ReleaseServes(m, e.w);
      assert Step(m, e) == Release(m, e.w);
      j := if i > 0 then i - 1 else 0;
    } else if e.Cancels? && e.w in m.assessments {
      j := WithoutShifts(m.assessments, e.w, i);
    }
  }

  /**
    An assessment at position i is granted by the time i + 1 slots have been given
    back, whatever else arrives, leaves or cancels, unless it is cancelled itself.
   */
  lemma {:induction false} AssessmentsAreServed<W>(m: Monitor<W>, events: seq<Event<W>>, i: nat)
    requires Inv(m) && i < |m.assessments| && Cancels(m.assessments[i]) !in events
    requires Freed(m, events) > i
    ensures EverGranted(m, events, m.assessments[i])
    decreases |events|
  {
    var m' := Step(m, events[0]);
    StepKeeps(m, events[0]);
    var j := AssessmentAdvances(m, events[0], i);
    if m.assessments[i] !in m'.slots {
      AssessmentsAreServed(m', events[1..], j);
    }
  }

  /** The step gives a slot back while no assessment waits and no other profile is held. */
  predicate FreesForProfile<W(==)>(m: Monitor<W>, e: Event<W>) {
    Frees(m, e) && m.assessments == [] && (m.slots[e.w] == ForProfile || !m.profileHeld)
  }

  function FreedForProfiles<W(==)>(m: Monitor<W>, events: seq<Event<W>>): nat
    decreases |events|
  {
    if events == [] then 0
    else (if FreesForProfile(m, events[0]) then 1 else 0) + FreedForProfiles(Step(m, events[0]), events[1..])
  }

  /** No step moves a waiting profile back, and such a slot moves it forward or grants it. */
  lemma ProfileAdvances<W>(m: Monitor<W>, e: Event<W>, i: nat) returns (j: nat)
    requires Inv(m) && i < |m.profiles| && e != Cancels(m.profiles[i])
    ensures var (m', w) := (Step(m, e), m.profiles[i]);
            w in m'.slots ||
            (j < |m'.profiles| && m'.profiles[j] == w && if FreesForProfile(m, e) then j < i else j <= i)
  {
    j := i;
    if Frees(m, e) {
      ReleaseServes(m, e.w);
      assert Step(m, e) == Release(m, e.w);
      if FreesForProfile(m, e) {
        j := if i > 0 then i - 1 else 0;
      }
    } else if e.Cancels? && e.w in m.profiles {
      j := WithoutShifts(m.profiles, e.w, i);
    }
  }

  /**
    A profile at position i is granted by the time i + 1 slots have been given back while
    no assessment waited and no other profile was held, unless it is cancelled itself.
   */
  lemma {:induction false} ProfilesAreServed<W>(m: Monitor<W>, events: seq<Event<W>>, i: nat)
    requires Inv(m) && i < |m.profiles| && Cancels(m.profiles[i]) !in events
    requires FreedForProfiles(m, events) > i
    ensures EverGranted(m, events, m.profiles[i])
    decreases |events|
  {
    var m' := Step(m, events[0]);
    StepKeeps(m, events[0]);
    var j := ProfileAdvances(m, events[0], i);
    if m.profiles[i] !in m'.slots {
      ProfilesAreServed(m', events[1..], j);
    }
  }

  predicate Precedes<W(==)>(queue: seq<W>, x: W, y: W) {
    exists i, j :: 0 <= i < j < |queue| && queue[i] == x && queue[j] == y
  }

  /** x stands before y in the queue of class p. */
  predicate Before<W(==)>(m: Monitor<W>, p: Priority, x: W, y: W) {
    Precedes(Queue(m, p), x, y)
  }

  lemma {:induction false} WithoutKeepsOrder<W>(queue: seq<W>, z: W, i: nat, j: nat) returns (i': nat, j': nat)
    requires i < j < |queue| && queue[i] != z && queue[j] != z
    ensures i' < j' < |Without(queue, z)| && Without(queue, z)[i'] == queue[i] && Without(queue, z)[j'] == queue[j]
  {
    if queue[0] == z {
      i', j' := i - 1, j - 1;
    } else if i == 0 {
      i' := 0;
      j' := WithoutShifts(queue[1..], z, j - 1);
      j' := j' + 1;
    } else {
      i', j' := WithoutKeepsOrder(queue[1..], z, i - 1, j - 1);
      i', j' := i' + 1, j' + 1;
    }
  }

  lemma WithoutPrecedes<W>(queue: seq<W>, z: W, x: W, y: W)
    requires Distinct(queue) && Precedes(queue, x, y) && z != y
    ensures x !in Without(queue, z) || Precedes(Without(queue, z), x, y)
  {
    var i, j :| 0 <= i < j < |queue| && queue[i] == x && queue[j] == y;
    WithoutDrops(queue, z);
    if z != x {
      var i', j' := WithoutKeepsOrder(queue, z, i, j);
    }
  }

  lemma TailPrecedes<W>(queue: seq<W>, x: W, y: W)
    requires Distinct(queue) && Precedes(queue, x, y)
    ensures x !in queue[1..] || Precedes(queue[1..], x, y)
  {
    var i, j :| 0 <= i < j < |queue| && queue[i] == x && queue[j] == y;
    if i > 0 {
      assert queue[1..][i - 1] == x && queue[1..][j - 1] == y;
    }
  }

  lemma LongerPrecedes<W>(queue: seq<W>, z: W, x: W, y: W)
    requires Precedes(queue, x, y)
    ensures Precedes(queue + [z], x, y)
  {
    var i, j :| 0 <= i < j < |queue| && queue[i] == x && queue[j] == y;
    assert (queue + [z])[i] == x && (queue + [z])[j] == y;
  }

  lemma StepKeepsOrder<W>(m: Monitor<W>, e: Event<W>, p: Priority, x: W, y: W)
    requires Inv(m) && Before(m, p, x, y) && e != Cancels(y)
    ensures x !in Queue(Step(m, e), p) || Before(Step(m, e), p, x, y)
  {
    var q := Queue(m, p);
    QueueMoves(m, e, p);
    TailPrecedes(q, x, y);
    LongerPrecedes(q, e.w, x, y);
    if e.Cancels? {
      WithoutPrecedes(q, e.w, x, y);
    }
  }

  /** A queue only ever loses its head to a grant, loses a cancelled ticket, or grows at its tail. */
  lemma QueueMoves<W>(m: Monitor<W>, e: Event<W>, p: Priority)
    requires Inv(m)
    ensures var (q, q') := (Queue(m, p), Queue(Step(m, e), p));
            || q' == q
            || (q != [] && q' == q[1..])
            || (e.Cancels? && q' == Without(q, e.w))
            || (e.Arrives? && q' == q + [e.w])
  {
    if Frees(m, e) {
      ReleaseServes(m, e.w);
    }
  }

  /** First come, first served within a class: nobody leaves the queue ahead of one before it, except by cancelling. */
  lemma {:induction false} NobodyOvertakes<W>(m: Monitor<W>, events: seq<Event<W>>, p: Priority, x: W, y: W)
    requires Inv(m) && Before(m, p, x, y) && Cancels(y) !in events
    requires StaysQueued(m, events, p, x)
    ensures y in Queue(Run(m, events), p) && y !in Run(m, events).slots
    decreases |events|
  {
    if events == [] {
    } else {
      StepKeeps(m, events[0]);
      StepKeepsOrder(m, events[0], p, x, y);
      NobodyOvertakes(Step(m, events[0]), events[1..], p, x, y);
    }
  }

  /** x waits in class p through the whole run. */
  predicate StaysQueued<W(==)>(m: Monitor<W>, events: seq<Event<W>>, p: Priority, x: W)
    decreases |events|
  {
    x in Queue(m, p) && (events == [] || StaysQueued(Step(m, events[0]), events[1..], p, x))
  }
}
