/**
  What a delivery pass does about the record it finds, from any reachable state: which
  messages go out, which do not, and that what goes out and lands is what the record then
  says. Stated over events and records alone.
 */
module SlackDelivery {
  import opened Option
  import opened Health
  import opened SlackSystem
  import opened SlackSafety
  import opened SlackTheorems
  import Late = LateRoots

  /** A live process whose runner is between passes. */
  predicate Ready(s: System) {
    s.proc.Up? && s.proc.flight.Idle?
  }

  lemma TwoEvents(cfg: Config, s: System, a: Event, b: Event)
    ensures Run(cfg, s, [a, b]) == Step(cfg, Step(cfg, s, a), b)
  {
    assert [a, b][1..] == [b] && [b][1..] == [];
    assert Run(cfg, Step(cfg, s, a), [b]) == Run(cfg, Step(cfg, Step(cfg, s, a), b), []);
  }

  // ---- The root POST ----

  /** An outage whose root has not been posted, or was rejected, and that has lasted long enough. */
  predicate RootIsDue(cfg: Config, rec: HealthRecord, now: Time) {
    && rec.state != Healthy
    && (rec.delivery == NotStarted || rec.delivery == Pending)
    && rec.unhealthySince.Some? && now - rec.unhealthySince.value >= cfg.broadcastAfter
  }

  /**
    A pass posts a root exactly when one is due and the marker was stored; what is posted
    names the outage's generation, state and age, and by then the store forbids another.
   */
  lemma ARootIsPostedExactlyWhen(cfg: Config, past: seq<Event>, now: Time, saved: bool)
    requires Ready(Reached(cfg, past))
    ensures var s := Reached(cfg, past);
            var s' := Step(cfg, s, PlanCall(now, saved));
            var rec := s.proc.mem.rec;
            if RootIsDue(cfg, rec, now) && saved then
              && s'.hist.posts == s.hist.posts + [PostEvent(PostGeneration(rec.outageGeneration), InFlight)]
              && s'.proc.Up? && s'.proc.flight == Calling(Post(PostGeneration(rec.outageGeneration), rec.state,
                                                               now - rec.unhealthySince.value))
              && s'.disk.rec == s'.proc.mem.rec == rec.(delivery := Indeterminate)
            else
              s'.hist == s.hist && s'.disk == s.disk && s'.proc.Up? && s'.proc.mem == s.proc.mem
  {
    ReachedInv(cfg, past);
  }

  /** A due root that Slack accepts is the record's root, in the state that was posted. */
  lemma APostedRootIsRecorded(cfg: Config, past: seq<Event>, now: Time, root: Root, saved: bool)
    requires Ready(Reached(cfg, past)) && RootIsDue(cfg, Reached(cfg, past).proc.mem.rec, now)
    requires root !in Reached(cfg, past).hist.owners
    ensures var s := Reached(cfg, past);
            var s' := Run(cfg, s, [PlanCall(now, true), CallReturns(Landed(root), saved)]);
            var rec := s.proc.mem.rec;
            && Ready(s')
            && s'.proc.mem.rec == rec.(delivery := Delivered, root := root, slackState := Some(rec.state))
            && (saved ==> s'.disk.rec == s'.proc.mem.rec)
            && s'.hist.owners == s.hist.owners[root := PostGeneration(rec.outageGeneration)]
  {
    ReachedInv(cfg, past);
    ARootIsPostedExactlyWhen(cfg, past, now, true);
    TwoEvents(cfg, Reached(cfg, past), PlanCall(now, true), CallReturns(Landed(root), saved));
  }

  /** A rejected root is posted again by the next pass that can store its marker. */
  lemma ARejectedRootIsPostedAgain(cfg: Config, past: seq<Event>, now: Time, saved: bool, later: Time)
    requires Ready(Reached(cfg, past)) && RootIsDue(cfg, Reached(cfg, past).proc.mem.rec, now) && now <= later
    ensures var s := Reached(cfg, past);
            var s' := Run(cfg, s, [PlanCall(now, true), CallReturns(Refused, saved)]);
            var again := Step(cfg, s', PlanCall(later, true));
            var g := PostGeneration(s.proc.mem.rec.outageGeneration);
            && Ready(s') && s'.proc.mem.rec == s.proc.mem.rec.(delivery := Pending)
            && (saved ==> s'.disk.rec == s'.proc.mem.rec)
            && again.hist.posts == s.hist.posts + [PostEvent(g, Rejected), PostEvent(g, InFlight)]
  {
    ReachedInv(cfg, past);
    var s := Reached(cfg, past);
    ARootIsPostedExactlyWhen(cfg, past, now, true);
    TwoEvents(cfg, s, PlanCall(now, true), CallReturns(Refused, saved));
    var s' := Run(cfg, s, [PlanCall(now, true), CallReturns(Refused, saved)]);
    RefusedLeavesDue(cfg, Step(cfg, s, PlanCall(now, true)), saved, later);
    assert s'.hist.posts == s.hist.posts + [PostEvent(PostGeneration(s.proc.mem.rec.outageGeneration), Rejected)];
  }

  lemma RefusedLeavesDue(cfg: Config, s: System, saved: bool, later: Time)
    requires s.proc.Up? && s.proc.flight.Calling? && s.proc.flight.plan.Post? && s.hist.posts != []
    requires s.proc.flight.plan.generation == s.proc.mem.rec.slackGeneration
    requires RootIsDue(cfg, s.proc.mem.rec.(delivery := Pending), later)
    ensures var s' := Step(cfg, s, CallReturns(Refused, saved));
            && Ready(s') && s'.proc.mem.rec == s.proc.mem.rec.(delivery := Pending)
            && (saved ==> s'.disk.rec == s'.proc.mem.rec)
            && s'.hist.posts == s.hist.posts[|s.hist.posts| - 1 := s.hist.posts[|s.hist.posts| - 1].(fate := Rejected)]
            && Step(cfg, s', PlanCall(later, true)).hist.posts
               == s'.hist.posts + [PostEvent(s.proc.mem.rec.slackGeneration, InFlight)]
  {
  }

  /** A root whose fate is unknown is never posted again while its outage lasts. */
  lemma AnUnansweredRootIsNotRepeated(cfg: Config, past: seq<Event>, now: Time, saved: bool, later: Time, marker: bool)
    requires Ready(Reached(cfg, past)) && RootIsDue(cfg, Reached(cfg, past).proc.mem.rec, now)
    ensures var s := Reached(cfg, past);
            var s' := Run(cfg, s, [PlanCall(now, true), CallReturns(OutcomeUnknown, saved)]);
            && Ready(s') && s'.proc.mem.rec == s.proc.mem.rec.(delivery := Indeterminate)
            && s'.disk.rec == s'.proc.mem.rec
            && Step(cfg, s', PlanCall(later, marker)).hist.posts == s'.hist.posts
  {
    ReachedInv(cfg, past);
    ARootIsPostedExactlyWhen(cfg, past, now, true);
    TwoEvents(cfg, Reached(cfg, past), PlanCall(now, true), CallReturns(OutcomeUnknown, saved));
  }

  // ---- The edits ----

  /** A pass edits a root that awaits recovery, and once the edit lands the root is recovered. */
  lemma ARecoveryIsDelivered(cfg: Config, past: seq<Event>, now: Time, marker: bool, echoed: Root, saved: bool)
    requires Ready(Reached(cfg, past)) && Reached(cfg, past).proc.mem.rec.delivery == RecoveryPending
    ensures var s := Reached(cfg, past);
            var planned := Step(cfg, s, PlanCall(now, marker));
            var s' := Run(cfg, s, [PlanCall(now, marker), CallReturns(Landed(echoed), saved)]);
            var rec := s.proc.mem.rec;
            && planned.proc.Up? && planned.proc.flight.Calling? && planned.proc.flight.plan.UpdateRecovery?
            && planned.proc.flight.plan.root == rec.root
            && rec.recoveredAt.Some? && rec.unhealthySince.Some?
            && planned.proc.flight.plan.down == rec.recoveredAt.value - rec.unhealthySince.value
            && Ready(s') && rec.root in s'.hist.recovered
            && s'.proc.mem.rec == rec.(delivery := Recovered) && (saved ==> s'.disk.rec == s'.proc.mem.rec)
  {
    ReachedInv(cfg, past);
    TwoEvents(cfg, Reached(cfg, past), PlanCall(now, marker), CallReturns(Landed(echoed), saved));
  }

  /** A delivered root that shows another state than the present one is edited, and then shows the present one. */
  lemma AStateChangeIsDelivered(cfg: Config, past: seq<Event>, now: Time, marker: bool, echoed: Root, saved: bool)
    requires Ready(Reached(cfg, past))
    requires var rec := Reached(cfg, past).proc.mem.rec;
             rec.delivery == Delivered && rec.slackState != Some(rec.state)
    ensures var s := Reached(cfg, past);
            var planned := Step(cfg, s, PlanCall(now, marker));
            var s' := Run(cfg, s, [PlanCall(now, marker), CallReturns(Landed(echoed), saved)]);
            var rec := s.proc.mem.rec;
            && planned.proc.Up? && planned.proc.flight.Calling? && planned.proc.flight.plan.UpdateState?
            && planned.proc.flight.plan.root == rec.root && planned.proc.flight.plan.state == rec.state
            && rec.unhealthySince.Some? && planned.proc.flight.plan.down == now - rec.unhealthySince.value
            && Ready(s') && s'.proc.mem.rec == rec.(slackState := Some(rec.state))
            && (saved ==> s'.disk.rec == s'.proc.mem.rec)
  {
    ReachedInv(cfg, past);
    TwoEvents(cfg, Reached(cfg, past), PlanCall(now, marker), CallReturns(Landed(echoed), saved));
  }

  /** An edit that fails changes nothing, so the next pass makes it again. */
  lemma AFailedEditIsRetried(cfg: Config, past: seq<Event>, now: Time, marker: bool, result: CallResult, saved: bool)
    requires Ready(Reached(cfg, past)) && !result.Landed?
    requires var rec := Reached(cfg, past).proc.mem.rec;
             rec.delivery == RecoveryPending || (rec.delivery == Delivered && rec.slackState != Some(rec.state))
    ensures var s := Reached(cfg, past);
            var s' := Run(cfg, s, [PlanCall(now, marker), CallReturns(result, saved)]);
            && Ready(s') && s'.proc.mem.rec == s.proc.mem.rec && s'.hist == s.hist
            && (saved ==> s'.disk.rec == s'.proc.mem.rec)
  {
    ReachedInv(cfg, past);
    TwoEvents(cfg, Reached(cfg, past), PlanCall(now, marker), CallReturns(result, saved));
  }

  /** In every other case a pass calls nobody: the root shown is right, or there is none to show yet. */
  lemma OtherwiseNothingIsSent(cfg: Config, past: seq<Event>, now: Time, saved: bool)
    requires Ready(Reached(cfg, past))
    ensures var s := Reached(cfg, past);
            var rec := s.proc.mem.rec;
            Step(cfg, s, PlanCall(now, saved)).proc.flight.Idle? <==>
              && !(RootIsDue(cfg, rec, now) && saved) && rec.delivery != RecoveryPending
              && !(rec.delivery == Delivered && rec.slackState != Some(rec.state))
  {
    ReachedInv(cfg, past);
  }

  // ---- Late roots ----

  /**
    A pass over the queue takes out exactly the roots whose edit landed, and they are
    recovered; what failed or was not reached stays queued.
   */
  lemma LateRootsAreRecovered(cfg: Config, past: seq<Event>, outcomes: seq<bool>, saved: bool)
    requires Ready(Reached(cfg, past)) && |outcomes| <= |Reached(cfg, past).proc.mem.rec.lateRoots|
    ensures var s := Reached(cfg, past);
            var s' := Run(cfg, s, [StartLateEdits, LateEditsReturn(outcomes, saved)]);
            var queue := s.proc.mem.rec.lateRoots;
            && Ready(s') && s'.proc.mem.rec == s.proc.mem.rec.(lateRoots := s'.proc.mem.rec.lateRoots)
            && (forall i :: 0 <= i < |outcomes| && outcomes[i] ==>
                  queue[i].root in s'.hist.recovered && queue[i] !in s'.proc.mem.rec.lateRoots)
            && (forall r :: r in queue && r !in s'.proc.mem.rec.lateRoots ==>
                  exists i :: 0 <= i < |outcomes| && outcomes[i] && queue[i] == r)
            && (forall r :: r in s'.proc.mem.rec.lateRoots ==> r in queue)
            && (saved && (exists i :: 0 <= i < |outcomes| && outcomes[i]) ==> s'.disk.rec == s'.proc.mem.rec)
            && (!saved ==> s'.disk == s.disk)
  {
    var s := Reached(cfg, past);
    var queue := s.proc.mem.rec.lateRoots;
    var (edited, failed) := (Late.Attempted(queue, outcomes, true), Late.Attempted(queue, outcomes, false));
    TwoEvents(cfg, s, StartLateEdits, LateEditsReturn(outcomes, saved));
    forall i | 0 <= i < |outcomes| && outcomes[i]
      ensures queue[i] in edited && queue[i].root in (set r | r in edited :: r.root)
    {
    }
    forall r
      ensures r in Late.Rotate(queue, edited, failed) <==> r in queue && r !in edited
    {
      Late.RotateKeeps(queue, edited, failed, r);
    }
  }

  // ---- Roots that land late ----

  /**
    A root that lands after its outage closed is edited back with that outage's own figures:
    it returns to the record while the record still is that outage's, and is queued once
    another has begun.
   */
  lemma ALateRootIsKept(cfg: Config, past: seq<Event>, root: Root, saved: bool)
    requires var s := Reached(cfg, past);
             && CanReturn(s, Landed(root)) && s.proc.flight.plan.Post?
             && s.proc.flight.plan.generation < s.proc.mem.rec.slackGeneration
    ensures var s := Reached(cfg, past);
            var (rec, plan) := (s.proc.mem.rec, s.proc.flight.plan);
            var s' := Step(cfg, s, CallReturns(Landed(root), saved));
            && Ready(s') && plan.generation in s.hist.closedFor && (saved ==> s'.disk.rec == s'.proc.mem.rec)
            && s'.proc.mem.rec ==
               if plan.generation == PostGeneration(rec.outageGeneration) && rec.state == Healthy
               then rec.(root := root, slackState := Some(plan.state), delivery := RecoveryPending)
               else rec.(lateRoots := rec.lateRoots + [LateRoot(root, Millis(s.hist.closedFor[plan.generation]))])
  {
    LateSuccessIsNeverOrphaned(cfg, past, root);
  }

  /** Any other answer that comes after its outage closed says nothing about the record. */
  lemma AStaleAnswerIsDropped(cfg: Config, past: seq<Event>, result: CallResult, saved: bool)
    requires var s := Reached(cfg, past);
             && CanReturn(s, result) && s.proc.flight.plan.generation != s.proc.mem.rec.slackGeneration
             && !(s.proc.flight.plan.Post? && result.Landed?)
    ensures var s := Reached(cfg, past);
            var s' := Step(cfg, s, CallReturns(result, saved));
            Ready(s') && s'.proc.mem.rec == s.proc.mem.rec && s'.disk == s.disk
  {
  }
}
