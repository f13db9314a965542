/**
  Capability verdicts over whole runs of the system, crashes, restarts and failed writes
  included: the two-subject rule for content failures, whose evidence is stored so that
  it survives a restart, and what a shared primary success heals.
 */
module CapabilityTraces {
  import opened Option
  import opened Health
  import opened RollUp
  import opened Sequences
  import opened SlackSystem
  import Late = LateRoots
  import Spec = TrackerSpec

  /** Per capability, the subjects that content-failed it since its own last success. */
  type Evidence = map<Capability, set<string>>

  function Against(ev: Evidence, c: Capability): set<string> {
    if c in ev then ev[c] else {}
  }

  function Collected(ev: Evidence, c: Capability, subject: string, reason: Reason): Evidence {
    if ClassOf(reason) == ClassOk then ev[c := {}]
    else if ClassOf(reason) == ClassContent then ev[c := Against(ev, c) + {subject}]
    else ev
  }

  /** What an event adds to, or withdraws from, the evidence. */
  function Heard(s: System, ev: Evidence, e: Event): Evidence {
    match e
    case FinishCall(c, subject, reason, _, _) =>
      if s.proc.Up? && Spec.Recorded(s.proc.mem, reason) then Collected(ev, c, subject, reason) else ev
    case ProbeReturns(outcome, _, _) =>
      if s.proc.Up? && s.proc.flight.Idle? && !s.proc.mem.sealed && outcome == ProbeOk then ev[Probe := {}] else ev
    case _ => ev
  }

  /** The event commits a write of the store. */
  predicate Writes(cfg: Config, s: System, e: Event) {
    && s.proc.Up?
    && match e
       case FinishCall(_, _, reason, _, saved) => saved && Spec.Recorded(s.proc.mem, reason)
       case ProbeReturns(_, _, saved) => s.proc.flight.Idle? && saved && !s.proc.mem.sealed
       case PlanCall(now, saved) => s.proc.flight.Idle? && Spec.PlanDelivery(cfg, s.proc.mem, now, saved).1.Post?
       case CallReturns(result, saved) =>
         CanReturn(s, result) && saved && Spec.ResultPersists(s.proc.mem, s.proc.flight.plan, result)
       case LateEditsReturn(outcomes, saved) =>
         CanFinishEdits(s, outcomes) && saved &&
         Late.RotationPersists(s.proc.mem.rec.lateRoots, Late.Attempted(s.proc.flight.pending, outcomes, true),
                               Late.Attempted(s.proc.flight.pending, outcomes, false))
       case _ => false
  }

  /**
    A run beside its evidence: `whole` is all of it; `remembered` is what the running
    process heard or found in the store, and `stored` what the last write committed.
   */
  datatype Observed = Observed(s: System, remembered: Evidence, stored: Evidence, whole: Evidence)

  function Next(cfg: Config, o: Observed, e: Event): Observed {
    var heard := if e.Restart? && o.s.proc.Down? then o.stored else Heard(o.s, o.remembered, e);
    Observed(Step(cfg, o.s, e), heard, if Writes(cfg, o.s, e) then heard else o.stored, Heard(o.s, o.whole, e))
  }

  function Trace(cfg: Config, o: Observed, events: seq<Event>): Observed
    decreases |events|
  {
    if events == [] then o else Trace(cfg, Next(cfg, o, events[0]), events[1..])
  }

  /** A run from a fresh database. */
  function Seen(cfg: Config, events: seq<Event>): Observed {
    Trace(cfg, Observed(INITIAL, map[], map[], map[]), events)
  }

  // ---- The invariant ----

  function Elements(s: seq<string>): set<string> {
    set x | x in s
  }

  /** The bounded list holds all the evidence, or else eight pieces of it. */
  predicate Lists(subjects: seq<string>, all: set<string>) {
    && Distinct(subjects) && Elements(subjects) <= all
    && (if |all| <= Spec.MAX_SUBJECTS then Elements(subjects) == all else |subjects| == Spec.MAX_SUBJECTS)
  }

  predicate VerdictOk(r: CapRecord) {
    !r.healthy ==> ClassOf(r.reason) in {ClassDependency, ClassContent}
  }

  predicate CapOk(caps: Caps, ev: Evidence, c: Capability) {
    VerdictOk(Spec.Get(caps, c)) && Lists(Spec.Get(caps, c).subjects, Against(ev, c))
  }

  predicate CapsOk(caps: Caps, ev: Evidence) {
    forall c :: CapOk(caps, ev, c)
  }

  predicate ObservedOk(o: Observed) {
    && AllRolledUp(o.s)
    && CapsOk(o.s.disk.caps, o.stored)
    && (o.s.proc.Up? ==> CapsOk(o.s.proc.mem.caps, o.remembered))
  }

  lemma {:induction false} DistinctCount(s: seq<string>)
    requires Distinct(s)
    ensures |Elements(s)| == |s|
  {
    if s == [] {
    } else {
      DistinctCount(s[1..]);
      assert Elements(s) == {s[0]} + Elements(s[1..]);
      assert s[0] !in Elements(s[1..]);
    }
  }

  /** Two or more are listed exactly when there are two or more. */
  lemma ListedTwice(subjects: seq<string>, all: set<string>)
    requires Lists(subjects, all)
    ensures |subjects| >= 2 <==> |all| >= 2
    ensures |subjects| <= |all|
  {
    DistinctCount(subjects);
    if |all| > Spec.MAX_SUBJECTS {
      assert |subjects| == Spec.MAX_SUBJECTS;
    }
  }

  lemma AddingKeepsLists(subjects: seq<string>, all: set<string>, subject: string)
    requires Lists(subjects, all)
    ensures Lists(Spec.AddSubject(subjects, subject), all + {subject})
  {
    DistinctCount(subjects);
    var longer := subjects + [subject];
    if subject in subjects {
      assert subject in Elements(subjects);
      assert all + {subject} == all;
    } else if |longer| > Spec.MAX_SUBJECTS {
      SubsetCount(Elements(subjects), all);
      var trimmed := longer[|longer| - Spec.MAX_SUBJECTS..];
      assert Elements(trimmed) <= all + {subject};
      if |all| <= Spec.MAX_SUBJECTS {
        assert subject !in Elements(subjects);
        assert |all + {subject}| == |all| + 1;
      } else {
        SubsetCount(all, all + {subject});
      }
    } else {
      assert Elements(longer) == Elements(subjects) + {subject};
      SubsetCount(all, all + {subject});
    }
  }

  lemma SubsetCount(a: set<string>, b: set<string>)
    requires a <= b
    ensures |a| <= |b|
  {
    assert b == a + (b - a);
  }

  /** A call leaves every other capability's evidence alone; at most it withdraws a verdict. */
  lemma CallSparesOthers(caps: Caps, c: Capability, subject: string, reason: Reason, now: Time, x: Capability)
    requires x != c
    ensures var r := Spec.Get(Spec.ObserveCall(caps, c, subject, reason, now), x);
            r == Spec.Get(caps, x) || r == Spec.Cleared(Spec.Get(caps, x))
  {
    if ClassOf(reason) == ClassOk {
      ClearingSpares(Spec.MarkHealthy(caps, c, now), c, x);
    }
  }

  lemma ClearingSpares(caps: Caps, c: Capability, x: Capability)
    ensures var r := Spec.Get(Spec.ClearShared(caps, c), x);
            r == Spec.Get(caps, x) || r == Spec.Cleared(Spec.Get(caps, x))
  {
  }

  lemma CallJudges(caps: Caps, c: Capability, subject: string, reason: Reason, now: Time)
    ensures Spec.Get(Spec.ObserveCall(caps, c, subject, reason, now), c) ==
            match ClassOf(reason)
            case ClassOk => Spec.Get(Spec.MarkHealthy(caps, c, now), c)
            case ClassDependency => Spec.Get(Spec.MarkUnhealthy(caps, c, reason, now), c)
            case ClassContent => Spec.Noted(Spec.Get(caps, c), subject, reason, now)
            case ClassIgnored => Spec.Get(caps, c)
  {
  }

  lemma NotingKeeps(r: CapRecord, all: set<string>, subject: string, reason: Reason, now: Time)
    requires VerdictOk(r) && Lists(r.subjects, all) && ClassOf(reason) == ClassContent
    ensures var r' := Spec.Noted(r, subject, reason, now);
            VerdictOk(r') && Lists(r'.subjects, all + {subject})
  {
    AddingKeepsLists(r.subjects, all, subject);
  }

  lemma CallKeepsOwn(caps: Caps, ev: Evidence, c: Capability, subject: string, reason: Reason, now: Time)
    requires CapOk(caps, ev, c) && ClassOf(reason) != ClassIgnored
    ensures CapOk(Spec.ObserveCall(caps, c, subject, reason, now), Collected(ev, c, subject, reason), c)
  {
    CallJudges(caps, c, subject, reason, now);
    if ClassOf(reason) == ClassContent {
      NotingKeeps(Spec.Get(caps, c), Against(ev, c), subject, reason, now);
    } else if ClassOf(reason) == ClassOk {
      assert Elements([]) == {};
    }
  }

  lemma CallKeeps(caps: Caps, ev: Evidence, c: Capability, subject: string, reason: Reason, now: Time)
    requires CapsOk(caps, ev) && ClassOf(reason) != ClassIgnored
    ensures CapsOk(Spec.ObserveCall(caps, c, subject, reason, now), Collected(ev, c, subject, reason))
  {
    forall x
      ensures CapOk(Spec.ObserveCall(caps, c, subject, reason, now), Collected(ev, c, subject, reason), x)
    {
      assert CapOk(caps, ev, x);
      if x == c {
        CallKeepsOwn(caps, ev, c, subject, reason, now);
      } else {
        CallSparesOthers(caps, c, subject, reason, now, x);
      }
    }
  }

  lemma ProbeKeeps(m: Memory, ev: Evidence, outcome: ProbeOutcome, now: Time)
    requires CapsOk(m.caps, ev)
    ensures CapsOk(Spec.ProbeVerdict(m, outcome, now), if outcome == ProbeOk then ev[Probe := {}] else ev)
  {
    var (caps', ev') := (Spec.ProbeVerdict(m, outcome, now), if outcome == ProbeOk then ev[Probe := {}] else ev);
    forall x
      ensures CapOk(caps', ev', x)
    {
      assert CapOk(m.caps, ev, x);
    }
  }

  /** What an event does to the capabilities in memory. */
  lemma MemoryKeeps(cfg: Config, o: Observed, e: Event)
    requires ObservedOk(o) && o.s.proc.Up? && !e.Crash?
    ensures var o' := Next(cfg, o, e);
            o'.s.proc.Up? && CapsOk(o'.s.proc.mem.caps, o'.remembered)
  {
    var m := o.s.proc.mem;
    match e
    case FinishCall(c, subject, reason, now, saved) =>
      if Spec.Recorded(m, reason) {
        CallKeeps(m.caps, o.remembered, c, subject, reason, now);
        CallVerdict(m, c, subject, reason, now);
      }
    case ProbeReturns(outcome, now, saved) =>
      if o.s.proc.flight.Idle? && !m.sealed {
        ProbeKeeps(m, o.remembered, outcome, now);
        ProbeVerdictRollsUp(m, outcome, now);
      }
    case PlanCall(now, saved) =>
      PlanKeepsVerdict(cfg, m, now, saved);
    case CallReturns(result, saved) =>
      if CanReturn(o.s, result) {
        ResultKeepsVerdict(m, o.s.proc.flight.plan, result);
      }
    case _ =>
  }

  /** A committed write stores the capabilities in memory; nothing else touches the store's. */
  lemma WritesStore(cfg: Config, s: System, e: Event)
    requires AllRolledUp(s)
    ensures var s' := Step(cfg, s, e);
            if Writes(cfg, s, e) then s'.proc.Up? && s'.disk.caps == s'.proc.mem.caps else s'.disk.caps == s.disk.caps
  {
    StepKeepsRolledUp(cfg, s, e);
    var s' := Step(cfg, s, e);
    if Writes(cfg, s, e) {
      assert s'.disk == Spec.Save(s.disk, s'.proc.mem, true);
      assert s'.disk.caps == s.disk.caps + s'.proc.mem.caps;
      assert s.disk.caps.Keys <= s'.disk.caps.Keys;
    }
  }

  lemma NextKeeps(cfg: Config, o: Observed, e: Event)
    requires ObservedOk(o)
    ensures ObservedOk(Next(cfg, o, e))
  {
    StepKeepsRolledUp(cfg, o.s, e);
    WritesStore(cfg, o.s, e);
    if o.s.proc.Up? && !e.Crash? {
      MemoryKeeps(cfg, o, e);
    }
  }

  lemma {:induction false} TraceKeeps(cfg: Config, o: Observed, events: seq<Event>)
    requires ObservedOk(o)
    ensures ObservedOk(Trace(cfg, o, events))
    decreases |events|
  {
    if events == [] {
    } else {
      NextKeeps(cfg, o, events[0]);
      TraceKeeps(cfg, Next(cfg, o, events[0]), events[1..]);
    }
  }

  /** In every run the bounded lists are as good as the remembered and the stored evidence. */
  lemma SeenOk(cfg: Config, events: seq<Event>)
    ensures ObservedOk(Seen(cfg, events)) && Seen(cfg, events).s == Run(cfg, INITIAL, events)
  {
    FirstUnhealthyIs(map[], ROLL_UP_ORDER);
    assert forall c :: CapOk(map[], map[], c);
    TraceKeeps(cfg, Observed(INITIAL, map[], map[], map[]), events);
    TraceRuns(cfg, Observed(INITIAL, map[], map[], map[]), events);
  }

  lemma {:induction false} TraceRuns(cfg: Config, o: Observed, events: seq<Event>)
    ensures Trace(cfg, o, events).s == Run(cfg, o.s, events)
    decreases |events|
  {
    if events == [] {
    } else {
      TraceRuns(cfg, Next(cfg, o, events[0]), events[1..]);
    }
  }

  // ---- What is remembered ----

  /** The event's observation reaches the store, if it makes one. */
  predicate Keeps(e: Event) {
    match e
    case FinishCall(_, _, _, _, saved) => saved
    case ProbeReturns(_, _, saved) => saved
    case _ => true
  }

  /** A process forgets evidence only by dying after an observation that was not stored. */
  lemma RememberedIsWhole(cfg: Config, events: seq<Event>)
    requires (forall e :: e in events ==> !e.Crash?) || (forall e :: e in events ==> Keeps(e))
    ensures var o := Seen(cfg, events); o.s.proc.Up? ==> o.remembered == o.whole
  {
    var start := Observed(INITIAL, map[], map[], map[]);
    if forall e :: e in events ==> !e.Crash? {
      AliveRemembers(cfg, start, events);
    } else {
      StoredRemembers(cfg, start, events);
    }
  }

  lemma {:induction false} AliveRemembers(cfg: Config, o: Observed, events: seq<Event>)
    requires forall e :: e in events ==> !e.Crash?
    requires if o.s.proc.Up? then o.remembered == o.whole else o.stored == o.whole
    ensures var end := Trace(cfg, o, events);
            if end.s.proc.Up? then end.remembered == end.whole else end.stored == end.whole
    decreases |events|
  {
    if events == [] {
    } else {
      assert !events[0].Crash?;
      AliveRemembers(cfg, Next(cfg, o, events[0]), events[1..]);
    }
  }

  lemma {:induction false} StoredRemembers(cfg: Config, o: Observed, events: seq<Event>)
    requires forall e :: e in events ==> Keeps(e)
    requires o.stored == o.whole && (o.s.proc.Up? ==> o.remembered == o.whole)
    ensures var end := Trace(cfg, o, events);
            end.stored == end.whole && (end.s.proc.Up? ==> end.remembered == end.whole)
    decreases |events|
  {
    if events == [] {
    } else {
      assert Keeps(events[0]);
      StoredRemembers(cfg, Next(cfg, o, events[0]), events[1..]);
    }
  }

  // ---- The two-subject rule ----

  /**
    In every run a content failure condemns a healthy capability exactly when, this one
    included, at least two distinct subjects of the remembered evidence content-failed it
    since its own last success: the eight-entry trim never shows, nor does a restart.
   */
  lemma TwoSubjectsCondemn(cfg: Config, events: seq<Event>, c: Capability, subject: string, reason: Reason, now: Time)
    requires ClassOf(reason) == ClassContent
    requires var s := Seen(cfg, events).s;
             s.proc.Up? && !s.proc.mem.sealed && Spec.Get(s.proc.mem.caps, c).healthy
    ensures var o := Seen(cfg, events);
            !Spec.Get(Spec.Finish(o.s.proc.mem, c, subject, reason, now).caps, c).healthy
            <==> |Against(o.remembered, c) + {subject}| >= 2
  {
    SeenOk(cfg, events);
    var o := Seen(cfg, events);
    var (m, ev) := (o.s.proc.mem, o.remembered);
    assert CapOk(m.caps, ev, c);
    AddingKeepsLists(Spec.Get(m.caps, c).subjects, Against(ev, c), subject);
    ListedTwice(Spec.AddSubject(Spec.Get(m.caps, c).subjects, subject), Against(ev, c) + {subject});
    CallVerdict(m, c, subject, reason, now);
    CallJudges(m.caps, c, subject, reason, now);
  }

  // ---- What a success heals ----

  /** In every run, after a real success on a shared primary capability, the roll-up is healthy or content-class. */
  lemma SharedSuccessLeavesOnlyContent(cfg: Config, events: seq<Event>, c: Capability, subject: string, now: Time)
    requires Spec.IsShared(c)
    requires var s := Run(cfg, INITIAL, events); s.proc.Up? && !s.proc.mem.sealed
    ensures var rec := Spec.Finish(Run(cfg, INITIAL, events).proc.mem, c, subject, ReasonOk, now).rec;
            rec.state == Healthy || ClassOf(rec.reason) == ClassContent
  {
    SeenOk(cfg, events);
    var o := Seen(cfg, events);
    var m := o.s.proc.mem;
    CallVerdict(m, c, subject, ReasonOk, now);
    var caps := Spec.ObserveCall(m.caps, c, subject, ReasonOk, now);
    FirstUnhealthyIs(caps, ROLL_UP_ORDER);
    match Spec.FirstUnhealthy(caps, ROLL_UP_ORDER)
    case None =>
    case Some(x) =>
      assert CapOk(m.caps, o.remembered, x);
      SuccessHeals(m.caps, c, subject, now, x);
  }

  /** What a success of c does to x's verdict. */
  lemma SuccessHeals(caps: Caps, c: Capability, subject: string, now: Time, x: Capability)
    requires Spec.Unhealthy(caps, x) || x == c
    ensures var r := Spec.Get(Spec.ObserveCall(caps, c, subject, ReasonOk, now), x);
            if x == c || (Spec.IsShared(c) && x in Spec.RECEIVERS && Spec.DependencyFailed(caps[x])) then r.healthy
            else r == caps[x]
  {
  }

  /**
    Another capability's success heals x exactly when both sit on the shared primary
    path and x's present verdict is dependency-class. "A content verdict is cleared
    only by that capability's own success" holds under that guard alone: a later
    dependency failure overwrites the content verdict.
   */
  lemma HealedByAnotherExactlyWhen(m: Memory, c: Capability, subject: string, now: Time, x: Capability)
    requires !m.sealed && x != c && Spec.Unhealthy(m.caps, x)
    ensures var caps := Spec.Finish(m, c, subject, ReasonOk, now).caps;
            Spec.Get(caps, x).healthy <==>
            Spec.IsShared(c) && x in Spec.RECEIVERS && ClassOf(m.caps[x].reason) == ClassDependency
  {
    CallVerdict(m, c, subject, ReasonOk, now);
    SuccessHeals(m.caps, c, subject, now, x);
  }

  /** One call, as finish sees it. */
  datatype Call = Call(capability: Capability, subject: string, reason: Reason, now: Time)

  function After(m: Memory, calls: seq<Call>): Memory
    decreases |calls|
  {
    if calls == [] then m
    else After(Spec.Finish(m, calls[0].capability, calls[0].subject, calls[0].reason, calls[0].now), calls[1..])
  }

  predicate FailTwice(calls: seq<Call>) {
    calls == [Call(TriageDraft, "a", SchemaViolation, 1), Call(TriageDraft, "b", SchemaViolation, 2)]
  }

  predicate FailAndSucceedElsewhere(calls: seq<Call>) {
    calls == [Call(TriageDraft, "a", Timeout, 3), Call(Assessment, "c", ReasonOk, 4)]
  }

  lemma AfterTwo(m: Memory, a: Call, b: Call)
    ensures After(m, [a, b]) == Spec.Finish(Spec.Finish(m, a.capability, a.subject, a.reason, a.now),
                                            b.capability, b.subject, b.reason, b.now)
  {
    var m1 := Spec.Finish(m, a.capability, a.subject, a.reason, a.now);
    assert [a, b][1..] == [b] && [b][1..] == [];
    assert After(m1, [b]) == Spec.Finish(m1, b.capability, b.subject, b.reason, b.now);
  }

  /**
    A content-class verdict is overwritten by a dependency failure and then healed from
    elsewhere, though the capability itself never succeeded.
   */
  lemma ContentVerdictCanBeHealedFromElsewhere(m: Memory, first: seq<Call>, second: seq<Call>)
    requires !m.sealed && Spec.Get(m.caps, TriageDraft) == FRESH_CAPABILITY
    requires FailTwice(first) && FailAndSucceedElsewhere(second)
    ensures var m2 := After(m, first);
            var condemned, healed := Spec.Get(m2.caps, TriageDraft), Spec.Get(After(m2, second).caps, TriageDraft);
            && !condemned.healthy && ClassOf(condemned.reason) == ClassContent
            && healed.healthy && healed.lastSuccessAt == None
  {
    TwoContentFailuresCondemn(m, first);
    OverwrittenThenHealed(After(m, first), second);
  }

  lemma OverwrittenThenHealed(m: Memory, calls: seq<Call>)
    requires !m.sealed && FailAndSucceedElsewhere(calls)
    ensures var healed := Spec.Get(After(m, calls).caps, TriageDraft);
            healed.healthy && healed.lastSuccessAt == Spec.Get(m.caps, TriageDraft).lastSuccessAt
  {
    AfterTwo(m, Call(TriageDraft, "a", Timeout, 3), Call(Assessment, "c", ReasonOk, 4));
    var m1 := Spec.Finish(m, TriageDraft, "a", Timeout, 3);
    FailedVerdict(m, m1);
    HealedVerdict(m1, Spec.Finish(m1, Assessment, "c", ReasonOk, 4));
  }

  lemma FailedVerdict(m: Memory, m1: Memory)
    requires !m.sealed && m1 == Spec.Finish(m, TriageDraft, "a", Timeout, 3)
    ensures var (r, r1) := (Spec.Get(m.caps, TriageDraft), Spec.Get(m1.caps, TriageDraft));
            !m1.sealed && TriageDraft in m1.caps && Spec.DependencyFailed(r1) && r1.lastSuccessAt == r.lastSuccessAt
  {
    CallVerdict(m, TriageDraft, "a", Timeout, 3);
  }

  lemma HealedVerdict(m: Memory, m1: Memory)
    requires !m.sealed && TriageDraft in m.caps && Spec.DependencyFailed(m.caps[TriageDraft])
    requires m1 == Spec.Finish(m, Assessment, "c", ReasonOk, 4)
    ensures Spec.Get(m1.caps, TriageDraft) == Spec.Cleared(m.caps[TriageDraft])
  {
    CallVerdict(m, Assessment, "c", ReasonOk, 4);
  }

  lemma TwoContentFailuresCondemn(m: Memory, calls: seq<Call>)
    requires !m.sealed && Spec.Get(m.caps, TriageDraft) == FRESH_CAPABILITY && FailTwice(calls)
    ensures var m2 := After(m, calls);
            var condemned := Spec.Get(m2.caps, TriageDraft);
            && !m2.sealed && !condemned.healthy && condemned.reason == SchemaViolation
            && condemned.lastSuccessAt == None
  {
    AfterTwo(m, Call(TriageDraft, "a", SchemaViolation, 1), Call(TriageDraft, "b", SchemaViolation, 2));
    var m1 := Spec.Finish(m, TriageDraft, "a", SchemaViolation, 1);
    ContentNoted(m, m1, "a", 1);
    assert Spec.Get(m1.caps, TriageDraft).subjects == ["a"];
    ContentNoted(m1, Spec.Finish(m1, TriageDraft, "b", SchemaViolation, 2), "b", 2);
  }

  lemma ContentNoted(m: Memory, m1: Memory, subject: string, now: Time)
    requires !m.sealed && m1 == Spec.Finish(m, TriageDraft, subject, SchemaViolation, now)
    ensures !m1.sealed
    ensures Spec.Get(m1.caps, TriageDraft) == Spec.Noted(Spec.Get(m.caps, TriageDraft), subject, SchemaViolation, now)
  {
    CallVerdict(m, TriageDraft, subject, SchemaViolation, now);
  }
}
