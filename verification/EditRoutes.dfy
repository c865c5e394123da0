/** The edit routes' plan table, the construction of a rename plan, and the rules a plan is judged by. */
module EditRoutes {
  import opened Common
  import opened Conformance
  import opened EditPlans

  datatype Error =
    | WorkspaceNotFound | PermissionDenied | PreconditionFailed | ProviderFailed
    | PlanNotFound | PlanExpired | StaleDocument

  datatype Result<T> = Ok(value: T) | Err(error: Error)

  // ----- Building a rename plan -------------------------------------------------------------------

  function TotalEdits(changes: seq<Change>): int {
    if changes == [] then 0 else TotalEdits(changes[..|changes| - 1]) + changes[|changes| - 1].editCount
  }

  predicate WithinBudget(described: seq<Change>) {
    |described| <= MAX_PLAN_DOCUMENTS && TotalEdits(described) <= MAX_PLAN_EDITS
  }

  predicate InScope(described: seq<Change>, w: Workspace) {
    forall i :: 0 <= i < |described| ==> WithinAnyRoot(described[i].uri, w)
  }

  /** Each document's revision, as read one after another; `None` when a document cannot be read. */
  predicate Readable(described: seq<Change>, revisionOf: nat -> Option<Revision>) {
    forall i :: 0 <= i < |described| ==> revisionOf(i).Some?
  }

  /** One precondition for each document the edit touches, in the edit's own order. */
  ghost predicate Guards(preconditions: seq<Precondition>, described: seq<Change>,
                         revisionOf: nat -> Option<Revision>) {
    && |preconditions| == |described|
    && forall i :: 0 <= i < |described| ==>
         preconditions[i].uri == described[i].uri && revisionOf(i) == Some(preconditions[i].revision)
  }

  method CountEdits(described: seq<Change>) returns (total: int)
    ensures total == TotalEdits(described)
  {
    total := 0;
    for i := 0 to |described|
      invariant total == TotalEdits(described[..i])
    {
      assert described[..i + 1][..i] == described[..i];
      total := total + described[i].editCount;
    }
    assert described[..|described|] == described;
  }

  /** A rename edit becomes a plan exactly when it is non-empty, within budget, in scope and readable. */
  method BuildRename(w: Workspace, described: seq<Change>, revisionOf: nat -> Option<Revision>)
    returns (r: Result<seq<Precondition>>)
    ensures r.Ok? <==>
      described != [] && WithinBudget(described) && InScope(described, w) && Readable(described, revisionOf)
    ensures r.Ok? ==> Guards(r.value, described, revisionOf)
    ensures r == Err(PermissionDenied) <==> described != [] && WithinBudget(described) && !InScope(described, w)
    ensures r == Err(ProviderFailed) <==> described == []
    ensures r.Err? ==> r.error in {PermissionDenied, ProviderFailed, PreconditionFailed}
  {
    hide WithinAnyRoot, TotalEdits;
    if described == [] { return Err(ProviderFailed); }
    var total := CountEdits(described);
    if |described| > MAX_PLAN_DOCUMENTS || total > MAX_PLAN_EDITS { return Err(PreconditionFailed); }
    for i := 0 to |described|
      invariant forall j :: 0 <= j < i ==> WithinAnyRoot(described[j].uri, w)
    {
      if !WithinAnyRoot(described[i].uri, w) { return Err(PermissionDenied); }
    }
    var collected: seq<Precondition> := [];
    for i := 0 to |described|
      invariant |collected| == i
      invariant forall j :: 0 <= j < i ==>
                  collected[j].uri == described[j].uri && revisionOf(j) == Some(collected[j].revision)
    {
      var revision := revisionOf(i);
      if revision.None? { return Err(PreconditionFailed); }
      collected := collected + [Precondition(described[i].uri, revision.value)];
    }
    return Ok(collected);
  }

  // ----- The checker ------------------------------------------------------------------------------

  function HeadRules(plan: Plan, subject: Subject): seq<string> {
    Rule(plan.adapterId != subject.adapterId, "plan.bound-to-adapter")
    + Rule(plan.sessionId != subject.sessionId, "plan.bound-to-session")
    + Rule(plan.workspaceId != subject.workspace.workspaceId, "plan.bound-to-workspace")
    + Rule(plan.expiresAt.NotATimestamp?, "plan.expiry-is-a-timestamp")
    + Rule(|plan.changes| == 0, "plan.changes-something")
  }

  function ChangeRules(c: Change, w: Workspace, changed: set<string>): seq<string> {
    Rule(c.uri in changed, "plan.one-entry-per-document")
    + Rule(!WithinAnyRoot(c.uri, w), "plan.changes-within-a-root")
    + Rule(c.editCount < 1, "plan.change-counts-an-edit")
  }

  function PreconditionRules(p: Precondition, w: Workspace, changed: set<string>): seq<string> {
    Rule(p.revision.workspaceEpoch != w.workspaceEpoch, "plan.precondition-current-epoch")
    + Rule(p.uri !in changed, "plan.precondition-covers-a-change")
  }

  function Changed(changes: seq<Change>): set<string> { set i | 0 <= i < |changes| :: changes[i].uri }

  function AllChangeRules(changes: seq<Change>, w: Workspace): seq<string> {
    if changes == [] then []
    else
      var earlier := changes[..|changes| - 1];
      AllChangeRules(earlier, w) + ChangeRules(changes[|changes| - 1], w, Changed(earlier))
  }

  function AllPreconditionRules(ps: seq<Precondition>, w: Workspace, changed: set<string>): seq<string> {
    if ps == [] then []
    else AllPreconditionRules(ps[..|ps| - 1], w, changed) + PreconditionRules(ps[|ps| - 1], w, changed)
  }

  function PlanRules(plan: Plan, subject: Subject): seq<string> {
    HeadRules(plan, subject) + AllChangeRules(plan.changes, subject.workspace)
    + AllPreconditionRules(plan.preconditions, subject.workspace, Changed(plan.changes))
  }

  method CheckEditPlan(plan: Plan, subject: Subject) returns (violations: seq<string>)
    ensures violations == PlanRules(plan, subject)
  {
    hide HeadRules, ChangeRules, PreconditionRules;
    violations := HeadRules(plan, subject);
    var changed: set<string> := {};
    for i := 0 to |plan.changes|
      invariant changed == Changed(plan.changes[..i])
      invariant violations == HeadRules(plan, subject) + AllChangeRules(plan.changes[..i], subject.workspace)
    {
      assert plan.changes[..i + 1][..i] == plan.changes[..i];
      violations := violations + ChangeRules(plan.changes[i], subject.workspace, changed);
      changed := changed + {plan.changes[i].uri};
      ChangedSnoc(plan.changes, i);
    }
    assert plan.changes[..|plan.changes|] == plan.changes;
    ghost var before := violations;
    for i := 0 to |plan.preconditions|
      invariant violations == before + AllPreconditionRules(plan.preconditions[..i], subject.workspace, changed)
    {
      assert plan.preconditions[..i + 1][..i] == plan.preconditions[..i];
      violations := violations + PreconditionRules(plan.preconditions[i], subject.workspace, changed);
    }
    assert plan.preconditions[..|plan.preconditions|] == plan.preconditions;
  }

  lemma ChangedSnoc(changes: seq<Change>, i: nat)
    requires i < |changes|
    ensures Changed(changes[..i + 1]) == Changed(changes[..i]) + {changes[i].uri}
  {}

  ghost predicate SoundChanges(changes: seq<Change>, w: Workspace) {
    && (forall i, j :: 0 <= i < j < |changes| ==> changes[i].uri != changes[j].uri)
    && InScope(changes, w) && forall i :: 0 <= i < |changes| ==> changes[i].editCount >= 1
  }

  ghost predicate SoundPreconditions(ps: seq<Precondition>, w: Workspace, changed: set<string>) {
    forall i :: 0 <= i < |ps| ==> ps[i].revision.workspaceEpoch == w.workspaceEpoch && ps[i].uri in changed
  }

  lemma SoundSnoc(earlier: seq<Change>, last: Change, w: Workspace)
    ensures SoundChanges(earlier + [last], w) <==>
              SoundChanges(earlier, w) && last.uri !in Changed(earlier) && WithinAnyRoot(last.uri, w)
                && last.editCount >= 1
  {
    hide WithinAnyRoot;
    var all := earlier + [last];
    assert all[|earlier|] == last && forall i :: 0 <= i < |earlier| ==> all[i] == earlier[i];
    if SoundChanges(all, w) {
      assert forall i :: 0 <= i < |earlier| ==> all[i].uri != all[|earlier|].uri;
    }
  }

  lemma {:induction false} ChangesAreCleanIff(changes: seq<Change>, w: Workspace)
    ensures AllChangeRules(changes, w) == [] <==> SoundChanges(changes, w)
  {
    hide WithinAnyRoot, SoundChanges, Changed;
    if changes == [] {
      assert SoundChanges([], w) by { NoChangesAreSound(w); }
    } else {
      var earlier, last := changes[..|changes| - 1], changes[|changes| - 1];
      assert changes == earlier + [last];
      ChangesAreCleanIff(earlier, w);
      SoundSnoc(earlier, last, w);
    }
  }

  lemma NoChangesAreSound(w: Workspace)
    ensures SoundChanges([], w)
  {}

  lemma {:induction false} PreconditionsAreCleanIff(ps: seq<Precondition>, w: Workspace, changed: set<string>)
    ensures AllPreconditionRules(ps, w, changed) == [] <==> SoundPreconditions(ps, w, changed)
  {
    if ps != [] {
      PreconditionsAreCleanIff(ps[..|ps| - 1], w, changed);
    }
  }

  /** The checker passes exactly the plans that keep every promise a plan makes. */
  lemma PlanIsCleanIff(plan: Plan, subject: Subject)
    ensures PlanRules(plan, subject) == [] <==>
              && plan.adapterId == subject.adapterId && plan.sessionId == subject.sessionId
              && plan.workspaceId == subject.workspace.workspaceId
              && plan.expiresAt.At? && plan.changes != []
              && SoundChanges(plan.changes, subject.workspace)
              && SoundPreconditions(plan.preconditions, subject.workspace, Changed(plan.changes))
  {
    ChangesAreCleanIff(plan.changes, subject.workspace);
    PreconditionsAreCleanIff(plan.preconditions, subject.workspace, Changed(plan.changes));
  }

  // ----- Which rules are reported -----------------------------------------------------------------

  predicate HeadBreaks(plan: Plan, subject: Subject, rule: string) {
    || (rule == "plan.bound-to-adapter" && plan.adapterId != subject.adapterId)
    || (rule == "plan.bound-to-session" && plan.sessionId != subject.sessionId)
    || (rule == "plan.bound-to-workspace" && plan.workspaceId != subject.workspace.workspaceId)
    || (rule == "plan.expiry-is-a-timestamp" && plan.expiresAt.NotATimestamp?)
    || (rule == "plan.changes-something" && plan.changes == [])
  }

  predicate ChangeBreaks(c: Change, w: Workspace, earlier: set<string>, rule: string) {
    || (rule == "plan.one-entry-per-document" && c.uri in earlier)
    || (rule == "plan.changes-within-a-root" && !WithinAnyRoot(c.uri, w))
    || (rule == "plan.change-counts-an-edit" && c.editCount < 1)
  }

  predicate PreconditionBreaks(p: Precondition, w: Workspace, changed: set<string>, rule: string) {
    || (rule == "plan.precondition-current-epoch" && p.revision.workspaceEpoch != w.workspaceEpoch)
    || (rule == "plan.precondition-covers-a-change" && p.uri !in changed)
  }

  ghost predicate SomeChangeBreaks(changes: seq<Change>, w: Workspace, rule: string) {
    exists i :: 0 <= i < |changes| && ChangeBreaks(changes[i], w, Changed(changes[..i]), rule)
  }

  lemma SomeBreaksSnoc(earlier: seq<Change>, last: Change, w: Workspace, rule: string)
    ensures SomeChangeBreaks(earlier + [last], w, rule) <==>
              SomeChangeBreaks(earlier, w, rule) || ChangeBreaks(last, w, Changed(earlier), rule)
  {
    hide ChangeBreaks, Changed;
    var all := earlier + [last];
    assert forall i :: 0 <= i < |earlier| ==> all[i] == earlier[i] && all[..i] == earlier[..i];
    assert all[|earlier|] == last && all[..|earlier|] == earlier;
    if i :| 0 <= i < |earlier| && ChangeBreaks(earlier[i], w, Changed(earlier[..i]), rule) {
      assert ChangeBreaks(all[i], w, Changed(all[..i]), rule);
    }
  }

  lemma {:induction false} ChangesReportIff(changes: seq<Change>, w: Workspace, rule: string)
    ensures rule in AllChangeRules(changes, w) <==> SomeChangeBreaks(changes, w, rule)
  {
    hide ChangeRules, ChangeBreaks, Changed;
    if changes != [] {
      var n := |changes| - 1;
      assert changes == changes[..n] + [changes[n]];
      ChangesReportIff(changes[..n], w, rule);
      ChangeReports(changes[n], w, Changed(changes[..n]), rule);
      SomeBreaksSnoc(changes[..n], changes[n], w, rule);
    }
  }

  lemma ChangeReports(c: Change, w: Workspace, earlier: set<string>, rule: string)
    ensures rule in ChangeRules(c, w, earlier) <==> ChangeBreaks(c, w, earlier, rule)
  {
    hide WithinAnyRoot;
  }

  lemma {:induction false} PreconditionsReportIff(ps: seq<Precondition>, w: Workspace, changed: set<string>,
                                                  rule: string)
    ensures rule in AllPreconditionRules(ps, w, changed) <==>
      exists i :: 0 <= i < |ps| && PreconditionBreaks(ps[i], w, changed, rule)
  {
    if ps != [] { PreconditionsReportIff(ps[..|ps| - 1], w, changed, rule); }
  }

  /** A rule is reported of a plan exactly when its head, one of its changes or one of its preconditions breaks it. */
  lemma PlanReportsIff(plan: Plan, subject: Subject, rule: string)
    ensures rule in PlanRules(plan, subject) <==>
      || HeadBreaks(plan, subject, rule)
      || SomeChangeBreaks(plan.changes, subject.workspace, rule)
      || (exists i :: 0 <= i < |plan.preconditions|
                      && PreconditionBreaks(plan.preconditions[i], subject.workspace, Changed(plan.changes), rule))
  {
    ChangesReportIff(plan.changes, subject.workspace, rule);
    PreconditionsReportIff(plan.preconditions, subject.workspace, Changed(plan.changes), rule);
    hide AllChangeRules, AllPreconditionRules, SomeChangeBreaks, PreconditionBreaks;
  }

  /**
   A rename plan passes the checker exactly when the edit named each document once, counted at least
   one edit in each, and the workspace's epoch did not move while the revisions were read.
   */
  lemma RenamePlanPassesIff(p: Prepared, planId: string, now: int, revisionOf: nat -> Option<Revision>,
                            subject: Subject)
    requires p.changes != [] && InScope(p.changes, p.workspace) && Guards(p.preconditions, p.changes, revisionOf)
    requires subject.adapterId == p.adapterId && subject.sessionId == p.sessionId && subject.workspace == p.workspace
    ensures PlanRules(Dated(p, planId, now).plan, subject) == [] <==>
              && (forall i, j :: 0 <= i < j < |p.changes| ==> p.changes[i].uri != p.changes[j].uri)
              && (forall i :: 0 <= i < |p.changes| ==> p.changes[i].editCount >= 1)
              && (forall i :: 0 <= i < |p.changes| ==> revisionOf(i).value.workspaceEpoch == p.workspace.workspaceEpoch)
  {
    hide WithinAnyRoot;
    PlanIsCleanIff(Dated(p, planId, now).plan, subject);
    forall i | 0 <= i < |p.changes| ensures p.preconditions[i].uri in Changed(p.changes) {
      assert p.changes[i].uri in Changed(p.changes);
    }
  }

  // ----- The plan table ---------------------------------------------------------------------------

  class VscodeEditRoutes {
    var plans: map<string, Stored>
    var tasks: map<nat, Task>
    var nextTask: nat
    var current: Option<Current>
    ghost var issued: set<string>
    ghost var applied: seq<Task>

    ghost function View(): State reads this { State(plans, tasks, nextTask, current, issued, applied) }

    constructor ()
      ensures View() == EditPlans.EMPTY
    {
      plans, tasks, nextTask, current, issued, applied := map[], map[], 0, None, {}, [];
    }

    method SweepExpiredPlans(now: int)
      modifies this
      ensures View() == old(View()).(plans := Sweep(old(plans), now))
    {
      var ids := plans.Keys;
      while ids != {}
        invariant ids <= old(plans.Keys) && plans.Keys <= old(plans.Keys)
        invariant View() == old(View()).(plans := plans)
        invariant forall id :: id in old(plans) ==>
            (id in plans <==> id in ids || now < old(plans)[id].expiresAt)
              && (id in plans ==> plans[id] == old(plans)[id])
        decreases ids
      {
        var id :| id in ids;
        if plans[id].expiresAt <= now { plans := plans - {id}; }
        ids := ids - {id};
      }
      assert plans == Sweep(old(plans), now);
    }

    /** Afterwards no stored plan names the document. */
    method DropDocument(uri: string)
      modifies this
      ensures View() == Step(old(View()), InvalidateDocument(uri))
      ensures forall id :: id in plans ==> uri !in plans[id].uris
    {
      var ids := plans.Keys;
      while ids != {}
        invariant ids <= old(plans.Keys) && plans.Keys <= old(plans.Keys)
        invariant View() == old(View()).(plans := plans)
        invariant forall id :: id in old(plans) ==>
            (id in plans <==> id in ids || uri !in old(plans)[id].uris) && (id in plans ==> plans[id] == old(plans)[id])
        decreases ids
      {
        var id :| id in ids;
        if uri in plans[id].uris { plans := plans - {id}; }
        ids := ids - {id};
      }
      assert plans == Untouched(old(plans), uri);
    }

    method DropAll()
      modifies this
      ensures View() == Step(old(View()), InvalidateAll)
    {
      plans := map[];
    }

    /** The end of every preparation; the plan stays stored even when its response is too large to send. */
    method StorePlan(prepared: Prepared, planId: string, now: int, fits: bool) returns (r: Result<Plan>)
      modifies this
      ensures View() == Step(old(View()), Store(prepared, planId, now))
      ensures r.Ok? <==> |Sweep(old(plans), now)| < MAX_LIVE_PLANS && fits
      ensures r.Ok? ==> planId in plans && r.value == plans[planId].plan
      ensures |Sweep(old(plans), now)| >= MAX_LIVE_PLANS ==> r == Err(PreconditionFailed)
    {
      SweepExpiredPlans(now);
      if |plans| >= MAX_LIVE_PLANS { return Err(PreconditionFailed); }
      var stored := Dated(prepared, planId, now);
      plans := plans[planId := stored];
      issued := issued + {planId};
      r := if fits then Ok(stored.plan) else Err(ProviderFailed);
    }

    method ConsumePlan(request: ApplyRequest, now: int) returns (r: Result<Stored>)
      modifies this
      ensures var (left, consumed) := Consume(old(plans), request, now);
        View() == old(View()).(plans := left) && r == if consumed.Some? then Ok(consumed.value) else Err(PlanNotFound)
    {
      SweepExpiredPlans(now);
      if request.planId !in plans || plans[request.planId].plan.workspaceId != request.workspaceId
         || plans[request.planId].sessionId != request.sessionId
      {
        return Err(PlanNotFound);
      }
      r := Ok(plans[request.planId]);
      plans := plans - {request.planId};
    }

    /** Goes on to the next precondition, or applies the edit when there is none left. */
    method Continue(id: nat, task: Task)
      modifies this
      ensures View() == Proceed(old(View()), id, task)
    {
      if |task.observed| < |task.stored.plan.preconditions| {
        tasks := tasks[id := task];
      } else {
        tasks, applied := tasks - {id}, applied + [task];
      }
    }

    /** The first part of an application, up to its first read. A plan of another epoch is consumed all the same. */
    method ApplyPlan(request: ApplyRequest, now: int) returns (r: Result<nat>)
      modifies this
      ensures View() == Step(old(View()), Apply(request, now))
      ensures r.Ok? ==> r.value == old(nextTask)
      ensures
        var w, id := old(current), request.planId;
        var stored := id in old(plans) && now < old(plans)[id].expiresAt
                      && old(plans)[id].plan.workspaceId == request.workspaceId
                      && old(plans)[id].sessionId == request.sessionId;
        if w.None? || w.value.workspace.workspaceId != request.workspaceId then r == Err(WorkspaceNotFound)
        else if !w.value.trusted then r == Err(PermissionDenied)
        else if !stored then r == Err(PlanNotFound)
        else if old(plans)[id].workspaceEpoch != w.value.workspace.workspaceEpoch then r == Err(PlanExpired)
        else r.Ok?
    {
      if current.None? || current.value.workspace.workspaceId != request.workspaceId { return Err(WorkspaceNotFound); }
      if !current.value.trusted { return Err(PermissionDenied); }
      var consumed := ConsumePlan(request, now);
      if consumed.Err? { return Err(consumed.error); }
      if consumed.value.workspaceEpoch != current.value.workspace.workspaceEpoch { return Err(PlanExpired); }
      r := Ok(nextTask);
      nextTask := nextTask + 1;
      Continue(r.value, Task(consumed.value, request, now, current.value, []));
    }

    /** What follows one read; every failure abandons the application, whose plan is already spent. */
    method ResumeApply(id: nat, revision: Option<Revision>) returns (failure: Option<Error>)
      requires id in tasks && |tasks[id].observed| < |tasks[id].stored.plan.preconditions|
      modifies this
      ensures View() == Step(old(View()), Read(id, revision))
      ensures
        var task := old(tasks[id]);
        var planned := task.stored.plan.preconditions[|task.observed|].revision.contentHash;
        failure == if revision.None? then Some(PreconditionFailed)
                   else if revision.value.contentHash != planned then Some(StaleDocument) else None
    {
      var task := tasks[id];
      if revision.None? {
        tasks := tasks - {id};
        return Some(PreconditionFailed);
      }
      if revision.value.contentHash != task.stored.plan.preconditions[|task.observed|].revision.contentHash {
        tasks := tasks - {id};
        return Some(StaleDocument);
      }
      Continue(id, task.(observed := task.observed + [revision.value]));
      failure := None;
    }

    method DiscardPlan(planId: string, workspaceId: string) returns (r: Result<string>)
      modifies this
      ensures View() == Step(old(View()), Discard(planId, workspaceId))
      ensures r.Ok? <==> planId in old(plans) && old(plans)[planId].plan.workspaceId == workspaceId
      ensures r == Ok(planId) || r == Err(PlanNotFound)
    {
      if planId !in plans || plans[planId].plan.workspaceId != workspaceId { return Err(PlanNotFound); }
      plans := plans - {planId};
      r := Ok(planId);
    }
  }
}
