/**
  The queue of roots that landed after their episode closed (editLateRoots): one
  step attempts a prefix of the queue, drops what it edited, and rotates what
  failed behind what it never reached.
 */
module LateRoots {
  import opened Health

  /** The roots of the attempted prefix whose edit landed (or failed); outcomes[i] is attempt i. */
  function Attempted(pending: seq<LateRoot>, outcomes: seq<bool>, landed: bool): set<LateRoot>
    requires |outcomes| <= |pending|
  {
    set i | 0 <= i < |outcomes| && outcomes[i] == landed :: pending[i]
  }

  function Untouched(queue: seq<LateRoot>, edited: set<LateRoot>, failed: set<LateRoot>): seq<LateRoot> {
    if queue == [] then []
    else (if queue[0] in edited || queue[0] in failed then [] else [queue[0]]) + Untouched(queue[1..], edited, failed)
  }

  function Retried(queue: seq<LateRoot>, edited: set<LateRoot>, failed: set<LateRoot>): seq<LateRoot> {
    if queue == [] then []
    else (if queue[0] !in edited && queue[0] in failed then [queue[0]] else []) + Retried(queue[1..], edited, failed)
  }

  function Rotate(queue: seq<LateRoot>, edited: set<LateRoot>, failed: set<LateRoot>): seq<LateRoot> {
    Untouched(queue, edited, failed) + Retried(queue, edited, failed)
  }

  lemma {:induction false} UntouchedGrows(queue: seq<LateRoot>, r: LateRoot, edited: set<LateRoot>,
                                          failed: set<LateRoot>)
    ensures Untouched(queue + [r], edited, failed)
         == Untouched(queue, edited, failed) + if r in edited || r in failed then [] else [r]
  {
    if queue == [] {
    } else {
      assert (queue + [r])[1..] == queue[1..] + [r];
      UntouchedGrows(queue[1..], r, edited, failed);
    }
  }

  lemma {:induction false} RetriedGrows(queue: seq<LateRoot>, r: LateRoot, edited: set<LateRoot>, failed: set<LateRoot>)
    ensures Retried(queue + [r], edited, failed)
         == Retried(queue, edited, failed) + if r !in edited && r in failed then [r] else []
  {
    if queue == [] {
    } else {
      assert (queue + [r])[1..] == queue[1..] + [r];
      RetriedGrows(queue[1..], r, edited, failed);
    }
  }

  /** Whether the step writes the rotated queue back to the store. */
  predicate RotationPersists(queue: seq<LateRoot>, edited: set<LateRoot>, failed: set<LateRoot>) {
    (edited != {} || failed != {}) && !(edited == {} && Rotate(queue, edited, failed) == queue)
  }

  // ---- Nothing is lost, nothing is invented ----

  /** The new queue is a permutation of the old one without the edited roots. */
  lemma {:induction false} RotatePermutes(queue: seq<LateRoot>, edited: set<LateRoot>, failed: set<LateRoot>,
                                          r: LateRoot)
    ensures multiset(Rotate(queue, edited, failed))[r] == if r in edited then 0 else multiset(queue)[r]
  {
    if queue == [] {
    } else {
      RotatePermutes(queue[1..], edited, failed, r);
      assert queue == [queue[0]] + queue[1..];
    }
  }

  lemma RotateKeeps(queue: seq<LateRoot>, edited: set<LateRoot>, failed: set<LateRoot>, r: LateRoot)
    ensures r in Rotate(queue, edited, failed) <==> r in queue && r !in edited
  {
    RotatePermutes(queue, edited, failed, r);
    assert r in Rotate(queue, edited, failed) <==> multiset(Rotate(queue, edited, failed))[r] > 0;
    assert r in queue <==> multiset(queue)[r] > 0;
  }

  lemma {:induction false} RotateNothing(queue: seq<LateRoot>)
    ensures Rotate(queue, {}, {}) == queue
    ensures Untouched(queue, {}, {}) == queue && Retried(queue, {}, {}) == []
  {
    if queue == [] {
    } else {
      RotateNothing(queue[1..]);
    }
  }

  // ---- Fairness ----

  /** One delivery step: the outcomes of the prefix it attempted, and the roots queued before the next. */
  datatype EditStep = EditStep(outcomes: seq<bool>, arrivals: seq<LateRoot>)

  /** The queue after one step. */
  function After(queue: seq<LateRoot>, step: EditStep): seq<LateRoot>
    requires |step.outcomes| <= |queue|
  {
    Rotate(queue, Attempted(queue, step.outcomes, true), Attempted(queue, step.outcomes, false)) + step.arrivals
  }

  /** Every step attempts at most what is queued when it starts. */
  predicate Fits(queue: seq<LateRoot>, steps: seq<EditStep>)
    decreases |steps|
  {
    steps == [] || (|steps[0].outcomes| <= |queue| && Fits(After(queue, steps[0]), steps[1..]))
  }

  /** How many of the steps attempt at least one edit. */
  function Attempts(steps: seq<EditStep>): nat {
    if steps == [] then 0 else (if steps[0].outcomes != [] then 1 else 0) + Attempts(steps[1..])
  }

  /** Some step attempts r's edit. */
  predicate Tried(queue: seq<LateRoot>, steps: seq<EditStep>, r: LateRoot)
    requires Fits(queue, steps)
    decreases |steps|
  {
    steps != [] && (r in queue[..|steps[0].outcomes|] || Tried(After(queue, steps[0]), steps[1..], r))
  }

  /** Where an untouched root lands: behind only the untouched roots that were ahead of it. */
  lemma {:induction false} UntouchedAt(queue: seq<LateRoot>, edited: set<LateRoot>, failed: set<LateRoot>, i: nat)
    returns (j: nat)
    requires i < |queue| && queue[i] !in edited && queue[i] !in failed
    ensures j <= i && j < |Untouched(queue, edited, failed)| && Untouched(queue, edited, failed)[j] == queue[i]
    ensures queue[0] in edited || queue[0] in failed ==> j < i
  {
    if i == 0 {
      j := 0;
    } else {
      j := UntouchedAt(queue[1..], edited, failed, i - 1);
      if queue[0] !in edited && queue[0] !in failed {
        j := j + 1;
      }
    }
  }

  /** A step that attempts something but not r moves r forward by at least one place. */
  lemma Advances(queue: seq<LateRoot>, step: EditStep, i: nat) returns (j: nat)
    requires |step.outcomes| <= |queue| && i < |queue| && queue[i] !in queue[..|step.outcomes|]
    ensures j < |After(queue, step)| && After(queue, step)[j] == queue[i]
    ensures if step.outcomes == [] then j <= i else j < i
  {
    var edited, failed := Attempted(queue, step.outcomes, true), Attempted(queue, step.outcomes, false);
    forall r | r in edited || r in failed
      ensures r in queue[..|step.outcomes|]
    {
      var k :| 0 <= k < |step.outcomes| && queue[k] == r;
      assert queue[..|step.outcomes|][k] == r;
    }
    j := UntouchedAt(queue, edited, failed, i);
    if step.outcomes != [] {
      assert queue[0] in Attempted(queue, step.outcomes, step.outcomes[0]);
    }
  }

  /**
    Fairness: a root at position i is attempted within i + 1 steps that attempt
    anything, whatever fails ahead of it and whatever is queued meanwhile.
   */
  lemma {:induction false} EveryRootIsTried(queue: seq<LateRoot>, steps: seq<EditStep>, i: nat)
    requires i < |queue| && Fits(queue, steps) && Attempts(steps) > i
    ensures Tried(queue, steps, queue[i])
    decreases |steps|
  {
    if queue[i] !in queue[..|steps[0].outcomes|] {
      var j := Advances(queue, steps[0], i);
      EveryRootIsTried(After(queue, steps[0]), steps[1..], j);
    }
  }
}
