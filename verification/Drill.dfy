/**
  The drill: how a scenario's labels are adapted to the target's grouping, and how a
  rerun finds the earlier drill it should collapse into.
 */
module Drill {
  import opened Option
  import opened GroupKeys
  import opened Sequences
  import opened Text

  const CANNED: Labels := map[
    "cluster" := "drill-cluster",
    "namespace" := "drill-shop",
    "service" := "drill-checkout",
    "app" := "drill-checkout",
    "alertname" := "DrillCheckoutIncident",
    "host" := "drill-node-01",
    "instance" := "drill-node-01:9100",
    "severity" := "warning"
  ]

  const RECEIVER_LABELS := ["cluster", "namespace", "service", "host"]

  const SCENARIOS := {"flagship", "storm", "db-outage"}

  /** The labels the target groups by, trimmed, and the table of fictional values. A blank name is none. */
  datatype Grouping = Grouping(names: seq<string>, canned: Labels)

  /** cannedGroupValue, for any table. */
  function Canned(table: Labels, key: string): string {
    if key in table then table[key] else "drill-" + key
  }

  function Entries(configured: seq<string>): seq<string> {
    if configured != [] then configured else RECEIVER_LABELS
  }

  function Trimmed(entries: seq<string>): seq<string> {
    seq(|entries|, i requires 0 <= i < |entries| => TrimSpace(entries[i]))
  }

  function Effective(configured: seq<string>): Grouping {
    Grouping(Trimmed(Entries(configured)), CANNED)
  }

  // ---- Label adaptation ----

  function Named(g: Grouping): set<string> {
    set k | k in g.names && k != ""
  }

  /** The first entry names a label, and no later entry names it again. */
  predicate SaltSurvives(g: Grouping) {
    g.names != [] && g.names[0] != "" && g.names[0] !in g.names[1..]
  }

  predicate IsSalted(g: Grouping, key: string) {
    SaltSurvives(g) && key == g.names[0]
  }

  function Salted(g: Grouping, key: string, scenario: string, salt: string): string {
    Canned(g.canned, key) + "-" + scenario + "-" + salt
  }

  /** What the adapted labels are: canned values, and the salt on the first entry if it survives. */
  function Adapted(g: Grouping, scenario: string, salt: string): Labels {
    map k | k in Named(g) ::
      if IsSalted(g, k) then Salted(g, k, scenario, salt) else Canned(g.canned, k)
  }

  /** The label adaptation of materializeScenario. */
  method AdaptLabels(configured: seq<string>, scenario: string, salt: string) returns (adapted: Labels)
    ensures adapted == Adapted(Effective(configured), scenario, salt)
  {
    adapted := Adapt(Entries(configured), CANNED, scenario, salt);
  }

  /** Its loop: entry 0 is salted, and repeats overwrite. */
  method Adapt(entries: seq<string>, canned: Labels, scenario: string, salt: string) returns (adapted: Labels)
    ensures adapted == Adapted(Grouping(Trimmed(entries), canned), scenario, salt)
  {
    ghost var g := Grouping(Trimmed(entries), canned);
    adapted := map[];
    for i := 0 to |entries|
      invariant adapted == Adapted(Take(g, i), scenario, salt)
    {
      var key := TrimSpace(entries[i]);
      AdaptedNext(g, i, scenario, salt);
      if key != "" {
        var value := Canned(canned, key);
        if i == 0 {
          value := value + "-" + scenario + "-" + salt;
        }
        adapted := adapted[key := value];
      }
    }
    assert Take(g, |entries|) == g;
  }

  /** The grouping by the first n entries. */
  function Take(g: Grouping, n: nat): Grouping
    requires n <= |g.names|
  {
    g.(names := g.names[..n])
  }

  lemma AdaptedNext(g: Grouping, i: nat, scenario: string, salt: string)
    requires i < |g.names|
    ensures Adapted(Take(g, i + 1), scenario, salt)
         == if g.names[i] == "" then Adapted(Take(g, i), scenario, salt)
            else Adapted(Take(g, i), scenario, salt)
                   [g.names[i] := if i == 0 then Salted(g, g.names[i], scenario, salt)
                                  else Canned(g.canned, g.names[i])]
  {
    var (before, after) := (Adapted(Take(g, i), scenario, salt), Adapted(Take(g, i + 1), scenario, salt));
    NamedNext(g, i);
    forall k | k in after
      ensures after[k] == Next(g, i, before, k, scenario, salt)
    {
      ValueNext(g, i, k, scenario, salt);
    }
    OneMore(before, after, g.names[i],
            if i == 0 then Salted(g, g.names[i], scenario, salt) else Canned(g.canned, g.names[i]));
  }

  /** The value of k once entry i has been adapted. */
  function Next(g: Grouping, i: nat, before: Labels, k: string, scenario: string, salt: string): string
    requires i < |g.names|
  {
    if k != g.names[i] then At(before, k) else if i == 0 then Salted(g, k, scenario, salt) else Canned(g.canned, k)
  }

  lemma ValueNext(g: Grouping, i: nat, k: string, scenario: string, salt: string)
    requires i < |g.names| && k in Named(Take(g, i + 1))
    ensures Adapted(Take(g, i + 1), scenario, salt)[k]
         == Next(g, i, Adapted(Take(g, i), scenario, salt), k, scenario, salt)
  {
    NamedNext(g, i);
    SaltedNext(g, i, k);
  }

  lemma OneMore(before: Labels, after: Labels, key: string, value: string)
    requires forall k :: k in after <==> k in before || (k != "" && k == key)
    requires forall k :: k in after ==> after[k] == if k != key then At(before, k) else value
    requires "" !in before
    ensures after == if key == "" then before else before[key := value]
  {
  }

  lemma NamedNext(g: Grouping, i: nat)
    requires i < |g.names|
    ensures forall k :: k in Named(Take(g, i + 1)) <==> k in Named(Take(g, i)) || (k != "" && k == g.names[i])
  {
    var (shorter, longer) := (g.names[..i], g.names[..i + 1]);
    assert longer == shorter + [g.names[i]];
    forall k
      ensures k in Named(Take(g, i + 1)) <==> k in Named(Take(g, i)) || (k != "" && k == g.names[i])
    {
      assert k in longer <==> k in shorter || k == g.names[i];
    }
  }

  lemma SaltedNext(g: Grouping, i: nat, k: string)
    requires i < |g.names|
    ensures IsSalted(Take(g, i + 1), k)
       <==> if i == 0 then k == g.names[0] != "" else IsSalted(Take(g, i), k) && k != g.names[i]
  {
    if i > 0 {
      assert g.names[..i + 1][1..] == g.names[..i][1..] + [g.names[i]];
    }
  }

  /** The entries as configured, or the receiver's own four. */
  function Labelled(configured: seq<string>): seq<string> {
    if configured == [] then ["cluster", "namespace", "service", "host"] else configured
  }

  /** The fictional value of a label: one of eight, or the label's own name behind "drill-". */
  function Fictional(k: string): string {
    match k
    case "cluster" => "drill-cluster"
    case "namespace" => "drill-shop"
    case "service" => "drill-checkout"
    case "app" => "drill-checkout"
    case "alertname" => "DrillCheckoutIncident"
    case "host" => "drill-node-01"
    case "instance" => "drill-node-01:9100"
    case "severity" => "warning"
    case _ => "drill-" + k
  }

  lemma FictionalIsCanned(k: string)
    ensures Canned(CANNED, k) == Fictional(k)
  {
  }

  /**
    The adapted labels, entry by entry: every non-blank trimmed entry is a label with its
    fictional value, and the scenario and salt follow on that of the first entry unless it
    is blank or comes again.
   */
  lemma AdaptedEntryByEntry(configured: seq<string>, scenario: string, salt: string, k: string)
    ensures var (entries, adapted) := (Labelled(configured), Adapted(Effective(configured), scenario, salt));
            && (k in adapted <==> k != "" && exists i :: 0 <= i < |entries| && TrimSpace(entries[i]) == k)
            && (k in adapted ==>
                  adapted[k] == if TrimSpace(entries[0]) == k
                                   && forall i :: 1 <= i < |entries| ==> TrimSpace(entries[i]) != k
                                then Fictional(k) + "-" + scenario + "-" + salt
                                else Fictional(k))
  {
    var (entries, g) := (Labelled(configured), Effective(configured));
    FictionalIsCanned(k);
    assert |g.names| == |entries| && forall i :: 0 <= i < |entries| ==> g.names[i] == TrimSpace(entries[i]);
    if k in g.names {
      var i :| 0 <= i < |g.names| && g.names[i] == k;
      assert TrimSpace(entries[i]) == k;
    }
    forall i | 1 <= i < |entries| && TrimSpace(entries[i]) == k
      ensures k in g.names[1..]
    {
      assert g.names[1..][i - 1] == k;
    }
    if k in g.names[1..] {
      var i :| 0 <= i < |g.names[1..]| && g.names[1..][i] == k;
      assert TrimSpace(entries[i + 1]) == k;
    }
  }

  // ---- The rerun matcher ----

  /** What the matcher reads of an incident; times are instants in nanoseconds. */
  datatype Candidate = Candidate(id: string, groupKey: string, status: string, drill: bool, lastAlertAt: int)

  datatype Match = Match(id: string, salt: string)

  /** The first label named, or "". */
  function FirstName(names: seq<string>): string {
    if names == [] then "" else if names[0] != "" then names[0] else FirstName(names[1..])
  }

  function FirstLabel(g: Grouping): string {
    FirstName(g.names)
  }

  /** A judged drill with an alert inside the collapse window. */
  predicate Eligible(c: Candidate, now: int, window: int) {
    c.drill && (c.status == "analyzed" || c.status == "resolved") && now - c.lastAlertAt <= window
  }

  /** Every label named, other than the salted one, has its canned value. */
  predicate OthersMatch(labels: Labels, g: Grouping, salted: string) {
    forall k :: k in g.names && k != "" && k != salted ==> At(labels, k) == Canned(g.canned, k)
  }

  function Prefix(g: Grouping, scenario: string): string {
    Canned(g.canned, FirstLabel(g)) + "-" + scenario + "-"
  }

  /** The salt a rerun of the scenario would take over from labels with these values. */
  function SaltIn(labels: Labels, g: Grouping, scenario: string): Option<string> {
    var key := FirstLabel(g);
    if OthersMatch(labels, g, key) && key in labels && Prefix(g, scenario) < labels[key]
    then Some(labels[key][|Prefix(g, scenario)|..])
    else None
  }

  function SaltOf(c: Candidate, g: Grouping, scenario: string, now: int, window: int): Option<string> {
    if Eligible(c, now, window) then SaltIn(Parse(c.groupKey), g, scenario) else None
  }

  /** The salt of each candidate that matches. */
  function Salts(cands: seq<Candidate>, g: Grouping, scenario: string, now: int, window: int): seq<Option<string>> {
    seq(|cands|, i requires 0 <= i < |cands| => SaltOf(cands[i], g, scenario, now, window))
  }

  /** Candidate i matches, none is later, and none before it in the list is as late. */
  predicate Wins(cands: seq<Candidate>, salts: seq<Option<string>>, i: nat)
    requires i < |cands| == |salts|
  {
    && salts[i].Some?
    && forall j :: 0 <= j < |cands| && salts[j].Some? ==>
         cands[j].lastAlertAt < cands[i].lastAlertAt || (i <= j && cands[j].lastAlertAt == cands[i].lastAlertAt)
  }

  predicate Leads(cands: seq<Candidate>, salts: seq<Option<string>>, best: Option<nat>)
    requires |cands| == |salts|
  {
    match best
    case None => forall i :: 0 <= i < |salts| ==> salts[i].None?
    case Some(i) => i < |cands| && Wins(cands, salts, i)
  }

  /** What drillRerunSalt must answer: the winner's id and salt, or nothing when nothing can match. */
  ghost predicate Answers(cands: seq<Candidate>, g: Grouping, scenario: string, now: int, window: int,
                          answer: Option<Match>) {
    var salts := Salts(cands, g, scenario, now, window);
    match answer
    case None => FirstLabel(g) == "" || scenario == "" || Leads(cands, salts, None)
    case Some(m) =>
      && FirstLabel(g) != "" && scenario != ""
      && exists i :: 0 <= i < |cands| && Wins(cands, salts, i) && m == Match(cands[i].id, salts[i].value)
  }

  method FirstGroupLabel(entries: seq<string>) returns (key: string)
    ensures key == FirstName(Trimmed(entries))
  {
    ghost var names := Trimmed(entries);
    assert names[0..] == names;
    for i := 0 to |entries|
      invariant FirstName(names) == FirstName(names[i..])
    {
      assert names[i..][1..] == names[i + 1..];
      key := TrimSpace(entries[i]);
      if key != "" {
        return;
      }
    }
    return "";
  }

  method NonSaltedLabelsMatch(labels: Labels, entries: seq<string>, salted: string) returns (all: bool)
    ensures all == OthersMatch(labels, Grouping(Trimmed(entries), CANNED), salted)
  {
    ghost var g := Grouping(Trimmed(entries), CANNED);
    for i := 0 to |entries|
      invariant OthersMatch(labels, Take(g, i), salted)
    {
      var key := TrimSpace(entries[i]);
      assert g.names[i] == key && key in g.names;
      if key != "" && key != salted && At(labels, key) != Canned(CANNED, key) {
        return false;
      }
      OthersNext(labels, g, i, salted);
    }
    assert Take(g, |entries|) == g;
    return true;
  }

  lemma OthersNext(labels: Labels, g: Grouping, i: nat, salted: string)
    requires i < |g.names| && OthersMatch(labels, Take(g, i), salted)
    requires g.names[i] == "" || g.names[i] == salted || At(labels, g.names[i]) == Canned(g.canned, g.names[i])
    ensures OthersMatch(labels, Take(g, i + 1), salted)
  {
    var (shorter, longer) := (g.names[..i], g.names[..i + 1]);
    assert longer == shorter + [g.names[i]];
  }

  /**
    When an incident's salt is reused: it is a drill, analyzed or resolved, with an alert no
    longer ago than the window; its key gives every label its fictional value except the
    first one, whose value goes on with the scenario and a salt that is not empty.
   */
  lemma ASaltIsReusedExactlyWhen(c: Candidate, configured: seq<string>, scenario: string, now: int, window: int,
                                 salt: string)
    ensures SaltOf(c, Effective(configured), scenario, now, window) == Some(salt) <==>
              var (labels, first) := (Parse(c.groupKey), FirstLabel(Effective(configured)));
              && c.drill && c.status in {"analyzed", "resolved"} && c.lastAlertAt >= now - window
              && first in labels && salt != "" && labels[first] == Fictional(first) + "-" + scenario + "-" + salt
              && forall i :: 0 <= i < |Labelled(configured)| ==>
                   var k := TrimSpace(Labelled(configured)[i]);
                   k == "" || k == first || (k in labels && labels[k] == Fictional(k))
  {
    var (labels, g, entries) := (Parse(c.groupKey), Effective(configured), Labelled(configured));
    var first := FirstLabel(g);
    FictionalIsCanned(first);
    OthersEntryByEntry(labels, configured, first);
    var (head, begin) := (Canned(g.canned, first), "-" + scenario + "-");
    assert Prefix(g, scenario) == head + begin;
    if first in labels {
      assert head + "-" + scenario + "-" + salt == Prefix(g, scenario) + salt;
      if labels[first] == Prefix(g, scenario) + salt {
        assert labels[first][|Prefix(g, scenario)|..] == salt;
      }
    }
  }

  lemma OthersEntryByEntry(labels: Labels, configured: seq<string>, first: string)
    ensures OthersMatch(labels, Effective(configured), first) <==>
              forall i :: 0 <= i < |Labelled(configured)| ==>
                var k := TrimSpace(Labelled(configured)[i]);
                k == "" || k == first || (k in labels && labels[k] == Fictional(k))
  {
    var (g, entries) := (Effective(configured), Labelled(configured));
    assert |g.names| == |entries|;
    forall i | 0 <= i < |entries|
      ensures g.names[i] == TrimSpace(entries[i]) && g.names[i] in g.names
      ensures g.names[i] != "" ==> Canned(g.canned, g.names[i]) == Fictional(g.names[i]) != ""
    {
      FictionalIsCanned(g.names[i]);
    }
  }

  /** The checks of drillRerunSalt's loop body on one candidate. */
  method ReusableSalt(c: Candidate, entries: seq<string>, salted: string, scenario: string, now: int, window: int)
    returns (salt: Option<string>)
    requires salted == FirstName(Trimmed(entries))
    ensures salt == SaltOf(c, Grouping(Trimmed(entries), CANNED), scenario, now, window)
    ensures salt.Some? ==> c.drill && c.status in {"analyzed", "resolved"} && now - c.lastAlertAt <= window
  {
    var prefix := Canned(CANNED, salted) + "-" + scenario + "-";
    if !c.drill || (c.status != "analyzed" && c.status != "resolved") {
      return None;
    }
    if now - c.lastAlertAt > window {
      return None;
    }
    var labels := ParseGroupKey(c.groupKey);
    var others := NonSaltedLabelsMatch(labels, entries, salted);
    if !others {
      return None;
    }
    if salted !in labels || !(prefix <= labels[salted]) {
      return None;
    }
    var rest := labels[salted][|prefix|..];
    return if rest == "" then None else Some(rest);
  }

  method DrillRerunSalt(cands: seq<Candidate>, configured: seq<string>, scenario: string, now: int, window: int)
    returns (answer: Option<Match>)
    ensures Answers(cands, Effective(configured), scenario, now, window, answer)
    ensures answer.Some? ==>
              exists c :: c in cands && c.id == answer.value.id && c.drill && c.status in {"analyzed", "resolved"}
                          && now - c.lastAlertAt <= window
  {
    var entries := Entries(configured);
    ghost var g := Effective(configured);
    var salted := FirstGroupLabel(entries);
    if salted == "" || scenario == "" {
      return None;
    }
    ghost var salts := Salts(cands, g, scenario, now, window);
    var best, found, bestSalt := 0, false, "";
    for i := 0 to |cands|
      invariant Leads(cands[..i], salts[..i], if found then Some(best) else None)
      invariant found ==>
                  && best < i && salts[best] == Some(bestSalt)
                  && cands[best].drill && cands[best].status in {"analyzed", "resolved"}
                  && now - cands[best].lastAlertAt <= window
    {
      var salt := ReusableSalt(cands[i], entries, salted, scenario, now, window);
      assert salt == salts[i];
      if salt.Some? && (!found || cands[i].lastAlertAt > cands[best].lastAlertAt) {
        TakesOver(cands, salts, i, if found then Some(best) else None);
        best, bestSalt, found := i, salt.value, true;
      } else {
        StaysAhead(cands, salts, i, if found then Some(best) else None);
      }
    }
    assert cands[..|cands|] == cands && salts[..|cands|] == salts;
    return if found then Some(Match(cands[best].id, bestSalt)) else None;
  }

  lemma TakesOver(cands: seq<Candidate>, salts: seq<Option<string>>, i: nat, best: Option<nat>)
    requires i < |cands| == |salts| && Leads(cands[..i], salts[..i], best) && salts[i].Some?
    requires best.Some? ==> cands[best.value].lastAlertAt < cands[i].lastAlertAt
    ensures Wins(cands[..i + 1], salts[..i + 1], i)
  {
    var (before, seen) := (cands[..i], salts[..i]);
    assert forall j :: 0 <= j < i ==> before[j] == cands[..i + 1][j] && seen[j] == salts[..i + 1][j];
  }

  lemma StaysAhead(cands: seq<Candidate>, salts: seq<Option<string>>, i: nat, best: Option<nat>)
    requires i < |cands| == |salts| && Leads(cands[..i], salts[..i], best)
    requires salts[i].Some? ==> best.Some? && cands[i].lastAlertAt <= cands[best.value].lastAlertAt
    ensures Leads(cands[..i + 1], salts[..i + 1], best)
  {
    var (before, seen) := (cands[..i], salts[..i]);
    assert forall j :: 0 <= j < i ==> before[j] == cands[..i + 1][j] && seen[j] == salts[..i + 1][j];
  }

  // ---- What a match means ----

  /** What configuration validation lets through: trimmed, non-blank labels without repeats, or none at all. */
  predicate Validated(configured: seq<string>) {
    Distinct(configured) && forall e :: e in configured ==> e != "" && TrimSpace(e) == e
  }

  /** The names are trimmed and distinct, none blank, and there is one. */
  predicate Sound(g: Grouping) {
    g.names != [] && Distinct(g.names) && forall k :: k in g.names ==> k != "" && TrimSpace(k) == k
  }

  /** The names hold nothing that printing uses. */
  predicate PlainNames(g: Grouping) {
    forall k :: k in g.names ==> ',' !in k && '=' !in k
  }

  /** The table's values are not empty and hold no comma. */
  predicate PlainTable(g: Grouping) {
    forall k :: k in g.canned ==> g.canned[k] != "" && ',' !in g.canned[k]
  }

  /** Whatever is configured, the drill groups soundly, so its salt survives adaptation. */
  lemma ValidatedKeepsTheSalt(configured: seq<string>)
    requires Validated(configured)
    ensures var g := Effective(configured);
            Sound(g) && PlainTable(g) && SaltSurvives(g) && g.names == Entries(configured)
  {
    TableIsPlain();
    if configured == [] {
      ReceiverLabelsAreSound();
    }
    TrimmedAlready(Entries(configured));
    SoundKeepsTheSalt(Effective(configured));
  }

  /** Keys can be parsed back exactly when no configured label holds a comma or "=". */
  lemma EffectiveIsPlain(configured: seq<string>)
    requires Validated(configured)
    ensures PlainNames(Effective(configured)) <==> forall e :: e in configured ==> ',' !in e && '=' !in e
  {
    ValidatedKeepsTheSalt(configured);
    assert forall e :: e in RECEIVER_LABELS ==> ',' !in e && '=' !in e;
  }

  lemma TableIsPlain()
    ensures forall k :: k in CANNED ==> CANNED[k] != "" && ',' !in CANNED[k]
  {
  }

  lemma ReceiverLabelsAreSound()
    ensures Validated(RECEIVER_LABELS)
  {
    TrimmedStays("cluster");
    TrimmedStays("namespace");
    TrimmedStays("service");
    TrimmedStays("host");
  }

  lemma TrimmedAlready(entries: seq<string>)
    requires forall e :: e in entries ==> TrimSpace(e) == e
    ensures Trimmed(entries) == entries
  {
  }

  lemma SoundKeepsTheSalt(g: Grouping)
    requires Sound(g)
    ensures SaltSurvives(g)
  {
    assert g.names[0] in g.names;
  }

  lemma AdaptedIsCanonical(g: Grouping, scenario: string, salt: string)
    requires Sound(g) && PlainNames(g) && PlainTable(g) && ',' !in scenario && ',' !in salt
    ensures Canonical(Adapted(g, scenario, salt))
  {
    forall k | k in Named(g)
      ensures ',' !in Canned(g.canned, k)
    {
      assert ',' !in "drill-" + k;
    }
  }

  /**
    The correlator files a drill's alerts under the key of its adapted labels: the
    configured labels select exactly those from the alert, whatever else it carries, and
    without configured labels the payload's group labels are those.
   */
  lemma AlertsAreFiledUnderAdapted(configured: seq<string>, alert: Labels, scenario: string, salt: string)
    requires Validated(configured) && configured != []
    requires var adapted := Adapted(Effective(configured), scenario, salt);
             forall k :: k in adapted ==> k in alert && alert[k] == adapted[k]
    ensures RenderSelected(alert, configured) == IncidentKey(Adapted(Effective(configured), scenario, salt))
  {
    var adapted := Adapted(Effective(configured), scenario, salt);
    ValidatedKeepsTheSalt(configured);
    assert forall k :: k in configured ==> k in adapted;
    SelectedIsIncidentKey(alert, configured);
    assert Picked(alert, configured) == adapted;
  }

  lemma {:induction false} FirstNameIsNamed(names: seq<string>)
    ensures FirstName(names) != "" ==> FirstName(names) in names
  {
    if names != [] && names[0] == "" {
      FirstNameIsNamed(names[1..]);
    }
  }

  /**
    A drill's own labels match a later run of a scenario, with salt s, exactly when the
    salt survived adaptation and the two runs' salted endings are the same text.
   */
  lemma OwnLabelsMatchExactlyWhen(g: Grouping, drilled: string, salt: string, scenario: string, s: string)
    ensures SaltIn(Adapted(g, drilled, salt), g, scenario) == Some(s)
       <==> SaltSurvives(g) && s != "" && drilled + "-" + salt == scenario + "-" + s
  {
    var (labels, key) := (Adapted(g, drilled, salt), FirstLabel(g));
    FirstNameIsNamed(g.names);
    OthersAreCanned(g, drilled, salt);
    if key in labels && SaltSurvives(g) {
      var base := Canned(g.canned, key) + "-";
      EndingsAgree(base, drilled + "-" + salt, scenario + "-", s);
      assert labels[key] == base + (drilled + "-" + salt);
      assert Prefix(g, scenario) == base + (scenario + "-");
    }
  }

  lemma OthersAreCanned(g: Grouping, scenario: string, salt: string)
    ensures OthersMatch(Adapted(g, scenario, salt), g, FirstLabel(g))
  {
  }

  /** After a common head, "head+begin is a proper prefix, leaving s" is a matter of the tails. */
  lemma EndingsAgree(head: string, tail: string, begin: string, s: string)
    ensures head + begin < head + tail && (head + tail)[|head + begin|..] == s <==> s != "" && tail == begin + s
  {
    var (whole, prefix) := (head + tail, head + begin);
    if tail == begin + s {
      assert whole == prefix + s;
    }
    if prefix < whole {
      assert whole == prefix + whole[|prefix|..];
      assert whole[|head|..] == tail && prefix[|head|..] == begin;
      assert tail == begin + whole[|prefix|..];
    }
  }

  /** The built-in scenarios never share a salted ending. */
  lemma BuiltInsStayApart(a: string, x: string, b: string, y: string)
    requires a in SCENARIOS && b in SCENARIOS && a + "-" + x == b + "-" + y
    ensures a == b && x == y
  {
    var text := a + "-" + x;
    assert text[0] == a[0] && (b + "-" + y)[0] == b[0];
    assert a == b;
    assert x == text[|a| + 1..] && y == text[|b| + 1..];
  }

  /** Two scenario keys can be mistaken for each other exactly when one followed by "-" begins the other's. */
  lemma ScenariosMixExactlyWhen(a: string, b: string)
    requires a != b
    ensures (exists x, y :: x != "" && y != "" && a + "-" + x == b + "-" + y)
       <==> a + "-" <= b + "-" || b + "-" <= a + "-"
  {
    if a + "-" <= b + "-" {
      Mixes(a, b);
    } else if b + "-" <= a + "-" {
      Mixes(b, a);
    }
    if x: string, y: string :| x != "" && y != "" && a + "-" + x == b + "-" + y {
      ShorterBegins(a, x, b, y);
    }
  }

  lemma ShorterBegins(a: string, x: string, b: string, y: string)
    requires a + "-" + x == b + "-" + y
    ensures a + "-" <= b + "-" || b + "-" <= a + "-"
  {
    var text := a + "-" + x;
    assert text[..|a| + 1] == a + "-" && text[..|b| + 1] == b + "-";
    if |a| <= |b| {
      assert text[..|b| + 1][..|a| + 1] == text[..|a| + 1];
    } else {
      assert text[..|a| + 1][..|b| + 1] == text[..|b| + 1];
    }
  }

  lemma Mixes(a: string, b: string)
    requires a + "-" <= b + "-" && a != b
    ensures exists x, y :: x != "" && y != "" && a + "-" + x == b + "-" + y
    ensures exists x, y :: x != "" && y != "" && b + "-" + x == a + "-" + y
  {
    var y := "1";
    var x := (b + "-")[|a| + 1..] + y;
    assert (b + "-") == (a + "-") + (b + "-")[|a| + 1..];
    assert a + "-" + x == b + "-" + y;
  }

  /** A finished drill run: the scenario and salt whose adapted labels made the incident's key. */
  datatype DrillRun = DrillRun(scenario: string, salt: string)

  /** An incident that the correlator opened for that run's alerts. */
  ghost predicate MadeBy(c: Candidate, run: DrillRun, g: Grouping) {
    && run.scenario in SCENARIOS && run.salt != "" && ',' !in run.salt
    && c.groupKey == IncidentKey(Adapted(g, run.scenario, run.salt))
  }

  lemma MadeSalt(g: Grouping, run: DrillRun, scenario: string)
    requires run.scenario in SCENARIOS && scenario in SCENARIOS && run.salt != ""
    ensures SaltIn(Adapted(g, run.scenario, run.salt), g, scenario)
         == if SaltSurvives(g) && run.scenario == scenario then Some(run.salt) else None
  {
    OwnLabelsMatchExactlyWhen(g, run.scenario, run.salt, scenario, run.salt);
    var found := SaltIn(Adapted(g, run.scenario, run.salt), g, scenario);
    if found.Some? {
      OwnLabelsMatchExactlyWhen(g, run.scenario, run.salt, scenario, found.value);
      BuiltInsStayApart(run.scenario, run.salt, scenario, found.value);
    }
  }

  predicate Own(c: Candidate, run: DrillRun, scenario: string, now: int, window: int) {
    Eligible(c, now, window) && run.scenario == scenario
  }

  /** Labels that parse from a key match only a grouping all of whose names they hold. */
  lemma MatchHoldsEveryName(labels: Labels, g: Grouping, scenario: string)
    requires PlainTable(g) && SaltIn(labels, g, scenario).Some?
    ensures forall k :: k in Named(g) ==> k in labels
  {
    forall k | k in Named(g)
      ensures k in labels
    {
      assert Canned(g.canned, k) != "";
    }
  }

  lemma ParsedLabelsAreCanonical(groupKey: string)
    ensures Canonical(Parse(groupKey))
  {
    ParsedIsCanonical(Split(groupKey));
  }

  lemma MadeMatch(c: Candidate, run: DrillRun, g: Grouping, scenario: string, now: int, window: int)
    requires Sound(g) && PlainTable(g) && MadeBy(c, run, g) && scenario in SCENARIOS
    ensures SaltOf(c, g, scenario, now, window)
         == if PlainNames(g) && Own(c, run, scenario, now, window) then Some(run.salt) else None
  {
    ParsedLabelsAreCanonical(c.groupKey);
    if PlainNames(g) {
      SoundKeepsTheSalt(g);
      NoCommaInScenarios(run.scenario);
      AdaptedIsCanonical(g, run.scenario, run.salt);
      IncidentRoundTripExactlyWhenCanonical(Adapted(g, run.scenario, run.salt));
      MadeSalt(g, run, scenario);
    } else if SaltIn(Parse(c.groupKey), g, scenario).Some? {
      MatchHoldsEveryName(Parse(c.groupKey), g, scenario);
      assert PlainNames(g);
    }
  }

  lemma NoCommaInScenarios(scenario: string)
    requires scenario in SCENARIOS
    ensures ',' !in scenario
  {
  }

  /** Eligible, of this scenario, and no eligible drill of this scenario is later. */
  predicate LatestOwn(cands: seq<Candidate>, runs: seq<DrillRun>, i: nat, scenario: string, now: int, window: int)
    requires i < |cands| == |runs|
  {
    && Own(cands[i], runs[i], scenario, now, window)
    && forall j :: 0 <= j < |cands| && Own(cands[j], runs[j], scenario, now, window) ==>
         cands[j].lastAlertAt <= cands[i].lastAlertAt
  }

  /**
    Given only incidents that drills made under the current grouping, the answer is the
    latest eligible drill of the rerun's own scenario, never another scenario's, and the
    rerun with its salt gets exactly that incident's key. There is no answer just when
    there is no such drill, or a configured label holds a comma or "=".
   */
  lemma RerunReusesTheLatestOwnSalt(cands: seq<Candidate>, runs: seq<DrillRun>, configured: seq<string>,
                                    scenario: string, now: int, window: int, answer: Option<Match>)
    requires |runs| == |cands| && Validated(configured) && scenario in SCENARIOS
    requires forall i :: 0 <= i < |cands| ==> MadeBy(cands[i], runs[i], Effective(configured))
    ensures Answers(cands, Effective(configured), scenario, now, window, answer) ==>
              (answer.Some? <==>
                (PlainNames(Effective(configured))
                 && exists i :: 0 <= i < |cands| && Own(cands[i], runs[i], scenario, now, window)))
    ensures Answers(cands, Effective(configured), scenario, now, window, answer) && answer.Some? ==>
              exists i :: (0 <= i < |cands| && LatestOwn(cands, runs, i, scenario, now, window)
                           && answer.value == Match(cands[i].id, runs[i].salt)
                           && IncidentKey(Adapted(Effective(configured), scenario, answer.value.salt))
                              == cands[i].groupKey)
  {
    var g := Effective(configured);
    var salts := Salts(cands, g, scenario, now, window);
    ValidatedKeepsTheSalt(configured);
    MadeSalts(cands, runs, g, scenario, now, window);
    NoScenarioIsEmpty(scenario);
    assert FirstLabel(g) == g.names[0];
    if Answers(cands, g, scenario, now, window, answer) && answer.Some? {
      var i :| 0 <= i < |cands| && Wins(cands, salts, i) && answer.value == Match(cands[i].id, salts[i].value);
      WinnerIsLatestOwn(cands, runs, salts, i, PlainNames(g), scenario, now, window);
      assert MadeBy(cands[i], runs[i], g);
    }
  }

  lemma MadeSalts(cands: seq<Candidate>, runs: seq<DrillRun>, g: Grouping, scenario: string, now: int, window: int)
    requires |runs| == |cands| && Sound(g) && PlainTable(g) && scenario in SCENARIOS
    requires forall i :: 0 <= i < |cands| ==> MadeBy(cands[i], runs[i], g)
    ensures forall i :: 0 <= i < |cands| ==>
              Salts(cands, g, scenario, now, window)[i]
              == if PlainNames(g) && Own(cands[i], runs[i], scenario, now, window) then Some(runs[i].salt) else None
  {
    forall i | 0 <= i < |cands|
      ensures SaltOf(cands[i], g, scenario, now, window)
           == if PlainNames(g) && Own(cands[i], runs[i], scenario, now, window) then Some(runs[i].salt) else None
    {
      assert MadeBy(cands[i], runs[i], g);
      MadeMatch(cands[i], runs[i], g, scenario, now, window);
    }
  }

  lemma NoScenarioIsEmpty(scenario: string)
    requires scenario in SCENARIOS
    ensures scenario != ""
  {
  }

  lemma WinnerIsLatestOwn(cands: seq<Candidate>, runs: seq<DrillRun>, salts: seq<Option<string>>, i: nat,
                          plain: bool, scenario: string, now: int, window: int)
    requires i < |cands| == |runs| == |salts| && Wins(cands, salts, i)
    requires forall j :: 0 <= j < |cands| ==>
               salts[j] == if plain && Own(cands[j], runs[j], scenario, now, window) then Some(runs[j].salt) else None
    ensures plain && LatestOwn(cands, runs, i, scenario, now, window) && salts[i] == Some(runs[i].salt)
  {
  }

  /**
    The point of a match is that the rerun collapses into the incident found. For any
    incident that matches, whatever its key and whatever made it, that happens exactly
    when the key is what the correlator prints for its labels and those are exactly the
    labels grouped by now.
   */
  lemma AMatchCollapsesExactlyWhen(groupKey: string, configured: seq<string>, scenario: string)
    requires Validated(configured) && SaltIn(Parse(groupKey), Effective(configured), scenario).Some?
    ensures var (labels, g) := (Parse(groupKey), Effective(configured));
            IncidentKey(Adapted(g, scenario, SaltIn(labels, g, scenario).value)) == groupKey
            <==> groupKey == IncidentKey(labels) && labels.Keys == Named(g)
  {
    var (labels, g) := (Parse(groupKey), Effective(configured));
    var s := SaltIn(labels, g, scenario).value;
    ValidatedKeepsTheSalt(configured);
    ParsedLabelsAreCanonical(groupKey);
    AMatchIsPlain(labels, g, scenario);
    AdaptedIsCanonical(g, scenario, s);
    IncidentRoundTripExactlyWhenCanonical(Adapted(g, scenario, s));
    AdaptedAgain(labels, g, scenario);
  }

  lemma AMatchIsPlain(labels: Labels, g: Grouping, scenario: string)
    requires Canonical(labels) && Sound(g) && PlainTable(g) && SaltIn(labels, g, scenario).Some?
    ensures PlainNames(g) && ',' !in scenario && ',' !in SaltIn(labels, g, scenario).value
  {
    MatchHoldsEveryName(labels, g, scenario);
    var value := labels[FirstLabel(g)];
    assert value == Prefix(g, scenario) + SaltIn(labels, g, scenario).value;
    assert forall c :: c in scenario ==> c in Prefix(g, scenario);
  }

  /** On the labels named now, the labels that matched are the rerun's. */
  lemma AdaptedAgain(labels: Labels, g: Grouping, scenario: string)
    requires SaltSurvives(g) && SaltIn(labels, g, scenario).Some?
    ensures Adapted(g, scenario, SaltIn(labels, g, scenario).value) == labels <==> labels.Keys == Named(g)
  {
    var again := Adapted(g, scenario, SaltIn(labels, g, scenario).value);
    forall k | k in Named(g) && k in labels
      ensures again[k] == labels[k]
    {
      AdaptedAgainAt(labels, g, scenario, k);
    }
  }

  lemma AdaptedAgainAt(labels: Labels, g: Grouping, scenario: string, k: string)
    requires SaltSurvives(g) && SaltIn(labels, g, scenario).Some? && k in Named(g) && k in labels
    ensures Adapted(g, scenario, SaltIn(labels, g, scenario).value)[k] == labels[k]
  {
    var s := SaltIn(labels, g, scenario).value;
    if k == g.names[0] {
      assert labels[k] == Prefix(g, scenario) + s == Salted(g, k, scenario, s);
    }
  }

  /**
    It can fail: once a label is dropped from the grouping, a drill made before still
    matches, but the rerun gets a key of its own.
   */
  lemma DroppingALabelMissesTheDrill(a: string, b: string, scenario: string, salt: string)
    requires Validated([a, b]) && PlainNames(Effective([a, b])) && ',' !in scenario && ',' !in salt && salt != ""
    ensures
      var groupKey := IncidentKey(Adapted(Effective([a, b]), scenario, salt));
      && SaltIn(Parse(groupKey), Effective([a]), scenario) == Some(salt)
      && IncidentKey(Adapted(Effective([a]), scenario, salt)) != groupKey
  {
    var (wide, narrow) := (Effective([a, b]), Effective([a]));
    assert a in [a, b] && b in [a, b] && a == [a, b][0] && b == [a, b][1];
    ValidatedKeepsTheSalt([a, b]);
    ValidatedKeepsTheSalt([a]);
    var made := Adapted(wide, scenario, salt);
    AdaptedIsCanonical(wide, scenario, salt);
    IncidentRoundTripExactlyWhenCanonical(made);
    DroppedStillMatches(wide, narrow, scenario, salt);
    AMatchCollapsesExactlyWhen(IncidentKey(made), [a], scenario);
    assert b in made && b !in Named(narrow);
  }

  lemma DroppedStillMatches(wide: Grouping, narrow: Grouping, scenario: string, salt: string)
    requires Sound(wide) && Sound(narrow) && wide.canned == narrow.canned && salt != ""
    requires narrow.names == [wide.names[0]]
    ensures SaltIn(Adapted(wide, scenario, salt), narrow, scenario) == Some(salt)
  {
    var a := wide.names[0];
    SoundKeepsTheSalt(wide);
    assert a in wide.names && FirstLabel(narrow) == a;
    assert Adapted(wide, scenario, salt)[a] == Prefix(narrow, scenario) + salt;
  }
}
