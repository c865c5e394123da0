/**
 Two-phase edits: plans are stored when prepared and consumed when applied, and applying one suspends
 at every precondition it reads, so any other request may run between the checks.
 */
module EditPlans {
  import opened Common
  import opened Conformance

  const MAX_PLAN_DOCUMENTS: nat := 500
  const MAX_PLAN_EDITS: int := 10_000
  const PLAN_LIFETIME_MS: int := 120_000
  const MAX_LIVE_PLANS: nat := 32

  datatype Revision = Revision(workspaceEpoch: int, contentHash: string)
  datatype Precondition = Precondition(uri: string, revision: Revision)
  datatype Change = Change(uri: string, editCount: int)
  /** A date in text, as the moment it names. */
  datatype Timestamp = At(ms: int) | NotATimestamp

  datatype Operation = Rename | Reformat | QuickFix
  datatype Plan = Plan(
    planId: string, adapterId: string, sessionId: string, workspaceId: string, expiresAt: Timestamp,
    operation: Operation, preconditions: seq<Precondition>, changes: seq<Change>)
  datatype Stored = Stored(plan: Plan, edit: nat, sessionId: string, workspaceEpoch: int, expiresAt: int,
                           uris: seq<string>)

  /** What a preparation hands to the store, before the plan is named and dated. */
  datatype Prepared = Prepared(
    adapterId: string, sessionId: string, workspace: Workspace, operation: Operation,
    preconditions: seq<Precondition>, changes: seq<Change>, edit: nat)

  datatype Current = Current(workspace: Workspace, trusted: bool)
  datatype ApplyRequest = ApplyRequest(planId: string, workspaceId: string, sessionId: string)

  /** An application under way: what was consumed, when, in which workspace, and the revisions read so far. */
  datatype Task = Task(stored: Stored, request: ApplyRequest, consumedAt: int, workspace: Current,
                       observed: seq<Revision>)

  /** `issued` and `applied` record the plan identifiers minted and the tasks that called `applyEdit`. */
  datatype State = State(
    plans: map<string, Stored>, tasks: map<nat, Task>, nextTask: nat, current: Option<Current>,
    issued: set<string>, applied: seq<Task>)

  function Uris(changes: seq<Change>): seq<string> { seq(|changes|, i requires 0 <= i < |changes| => changes[i].uri) }

  function Dated(p: Prepared, planId: string, now: int): Stored {
    var expiresAt := now + PLAN_LIFETIME_MS;
    Stored(
      Plan(planId, p.adapterId, p.sessionId, p.workspace.workspaceId, At(expiresAt), p.operation, p.preconditions,
           p.changes),
      p.edit, p.sessionId, p.workspace.workspaceEpoch, expiresAt, Uris(p.changes))
  }

  // ----- The store --------------------------------------------------------------------------------

  function Sweep(plans: map<string, Stored>, now: int): map<string, Stored> {
    map id | id in plans && now < plans[id].expiresAt :: plans[id]
  }

  function Untouched(plans: map<string, Stored>, uri: string): map<string, Stored> {
    map id | id in plans && uri !in plans[id].uris :: plans[id]
  }

  function Consume(plans: map<string, Stored>, r: ApplyRequest, now: int): (map<string, Stored>, Option<Stored>) {
    var live := Sweep(plans, now);
    if r.planId !in live || live[r.planId].plan.workspaceId != r.workspaceId || live[r.planId].sessionId != r.sessionId
    then (live, None)
    else (live - {r.planId}, Some(live[r.planId]))
  }

  predicate Writable(current: Option<Current>, workspaceId: string) {
    current.Some? && current.value.workspace.workspaceId == workspaceId && current.value.trusted
  }

  /** Once every precondition has been read and matched the edit is applied; until then the task waits. */
  function Proceed(s: State, id: nat, task: Task): State {
    if |task.observed| < |task.stored.plan.preconditions| then s.(tasks := s.tasks[id := task])
    else s.(tasks := s.tasks - {id}, applied := s.applied + [task])
  }

  datatype Event =
    | Store(prepared: Prepared, planId: string, now: int)
    | Apply(request: ApplyRequest, now: int)
    | Read(id: nat, revision: Option<Revision>)
    | Cancel(id: nat)
    | Discard(planId: string, workspaceId: string)
    | InvalidateDocument(uri: string)
    | InvalidateAll
    | WorkspaceBecomes(current: Option<Current>)

  function Begin(s: State, r: ApplyRequest, now: int): State {
    if !Writable(s.current, r.workspaceId) then s
    else
      var (left, consumed) := Consume(s.plans, r, now);
      if consumed.None? || consumed.value.workspaceEpoch != s.current.value.workspace.workspaceEpoch
      then s.(plans := left)
      else Proceed(s.(plans := left, nextTask := s.nextTask + 1), s.nextTask,
                   Task(consumed.value, r, now, s.current.value, []))
  }

  /** The next precondition's document was read: absent, changed, or as it was when the plan was made. */
  function Resume(s: State, id: nat, revision: Option<Revision>): State {
    if id !in s.tasks then s
    else
      var task := s.tasks[id];
      var k := |task.observed|;
      if k < |task.stored.plan.preconditions| && revision.Some?
         && revision.value.contentHash == task.stored.plan.preconditions[k].revision.contentHash
      then Proceed(s, id, task.(observed := task.observed + [revision.value]))
      else s.(tasks := s.tasks - {id})
  }

  function Step(s: State, e: Event): State {
    match e
    case Store(prepared, planId, now) =>
      var live := Sweep(s.plans, now);
      if |live| >= MAX_LIVE_PLANS then s.(plans := live)
      else s.(plans := live[planId := Dated(prepared, planId, now)], issued := s.issued + {planId})
    case Apply(request, now) => Begin(s, request, now)
    case Read(id, revision) => Resume(s, id, revision)
    case Cancel(id) => s.(tasks := s.tasks - {id})
    case Discard(planId, workspaceId) =>
      if planId in s.plans && s.plans[planId].plan.workspaceId == workspaceId then s.(plans := s.plans - {planId})
      else s
    case InvalidateDocument(uri) => s.(plans := Untouched(s.plans, uri))
    case InvalidateAll => s.(plans := map[])
    case WorkspaceBecomes(current) => s.(current := current)
  }

  function Run(s: State, es: seq<Event>): State {
    if es == [] then s else Step(Run(s, es[..|es| - 1]), es[|es| - 1])
  }

  const EMPTY := State(map[], map[], 0, None, {}, [])

  // ----- What every step keeps --------------------------------------------------------------------

  /** The plan was unexpired when consumed, by its own session, in its own trusted workspace and epoch. */
  ghost predicate Entitled(t: Task) {
    && t.consumedAt < t.stored.expiresAt && t.stored.plan.expiresAt == At(t.stored.expiresAt)
    && t.request.planId == t.stored.plan.planId
    && t.request.sessionId == t.stored.sessionId == t.stored.plan.sessionId
    && t.request.workspaceId == t.stored.plan.workspaceId == t.workspace.workspace.workspaceId
    && t.workspace.trusted && t.workspace.workspace.workspaceEpoch == t.stored.workspaceEpoch
  }

  /** Each revision read so far carries the hash the plan was made against. */
  ghost predicate Matched(t: Task) {
    && |t.observed| <= |t.stored.plan.preconditions|
    && forall i :: 0 <= i < |t.observed| ==>
       t.observed[i].contentHash == t.stored.plan.preconditions[i].revision.contentHash
  }

  ghost predicate Complete(t: Task) { Entitled(t) && Matched(t) && |t.observed| == |t.stored.plan.preconditions| }

  ghost predicate StoreInv(plans: map<string, Stored>, issued: set<string>) {
    && |plans| <= MAX_LIVE_PLANS && plans.Keys <= issued
    && forall id :: id in plans ==>
         && plans[id].plan.planId == id && plans[id].plan.sessionId == plans[id].sessionId
         && plans[id].plan.expiresAt == At(plans[id].expiresAt) && plans[id].uris == Uris(plans[id].plan.changes)
  }

  function PlanOf(t: Task): string { t.stored.plan.planId }

  ghost predicate TasksInv(s: State) {
    && (forall k :: k in s.tasks ==> k < s.nextTask && Entitled(s.tasks[k]) && Matched(s.tasks[k]))
    && (forall k :: k in s.tasks ==> PlanOf(s.tasks[k]) in s.issued && PlanOf(s.tasks[k]) !in s.plans)
    && (forall k, l :: k in s.tasks && l in s.tasks && k != l ==> PlanOf(s.tasks[k]) != PlanOf(s.tasks[l]))
  }

  ghost predicate AppliedInv(s: State) {
    && (forall i :: 0 <= i < |s.applied| ==> Complete(s.applied[i]))
    && (forall i :: 0 <= i < |s.applied| ==> PlanOf(s.applied[i]) in s.issued && PlanOf(s.applied[i]) !in s.plans)
    && (forall i, k :: 0 <= i < |s.applied| && k in s.tasks ==> PlanOf(s.applied[i]) != PlanOf(s.tasks[k]))
    && (forall i, j :: 0 <= i < j < |s.applied| ==> PlanOf(s.applied[i]) != PlanOf(s.applied[j]))
  }

  /** A plan is stored, being applied, or applied, and only one of these; live plans are at most 32. */
  ghost predicate Inv(s: State) { StoreInv(s.plans, s.issued) && TasksInv(s) && AppliedInv(s) }

  ghost predicate FreshId(s: State, e: Event) { e.Store? ==> e.planId !in s.issued }

  lemma FewerPlans(s: State, plans: map<string, Stored>)
    requires Inv(s) && plans.Keys <= s.plans.Keys && forall id :: id in plans ==> plans[id] == s.plans[id]
    ensures Inv(s.(plans := plans))
  {
    SmallerMap(plans, s.plans);
  }

  lemma SmallerMap(a: map<string, Stored>, b: map<string, Stored>)
    requires a.Keys <= b.Keys
    ensures |a| <= |b|
  {
    SubsetSize(a.Keys, b.Keys);
    assert |a.Keys| == |a| && |b.Keys| == |b|;
  }

  /** A task whose plan is known to no other task, to no application and not to the store. */
  ghost predicate Alone(s: State, id: nat, task: Task) {
    && id < s.nextTask && PlanOf(task) in s.issued && PlanOf(task) !in s.plans
    && (forall k :: k in s.tasks && k != id ==> PlanOf(s.tasks[k]) != PlanOf(task))
    && (forall i :: 0 <= i < |s.applied| ==> PlanOf(s.applied[i]) != PlanOf(task))
  }

  lemma ProceedKeepsInv(s: State, id: nat, task: Task)
    requires Inv(s) && Entitled(task) && Matched(task) && Alone(s, id, task)
    ensures Inv(Proceed(s, id, task))
  {
    hide StoreInv, Entitled;
    if |task.observed| < |task.stored.plan.preconditions| {
      hide Complete, Matched, PlanOf;
    } else {
      assert Complete(task);
      hide Complete, Matched, PlanOf;
      FewerTasks(s, id);
    }
  }

  lemma OneMorePlan(plans: map<string, Stored>, issued: set<string>, id: string, stored: Stored)
    requires StoreInv(plans, issued) && |plans| < MAX_LIVE_PLANS && id !in issued
    requires
      && stored.plan.planId == id && stored.plan.sessionId == stored.sessionId
      && stored.plan.expiresAt == At(stored.expiresAt) && stored.uris == Uris(stored.plan.changes)
    ensures StoreInv(plans[id := stored], issued + {id})
  {}

  lemma StoreKeepsInv(s: State, prepared: Prepared, planId: string, now: int)
    requires Inv(s) && planId !in s.issued
    ensures Inv(Step(s, Store(prepared, planId, now)))
  {
    hide Entitled, Matched, Complete, PlanOf, StoreInv;
    var live := Sweep(s.plans, now);
    FewerPlans(s, live);
    if |live| < MAX_LIVE_PLANS { OneMorePlan(live, s.issued, planId, Dated(prepared, planId, now)); }
  }

  lemma ConsumedIsAlone(s: State, r: ApplyRequest, now: int, left: map<string, Stored>, task: Task)
    requires Inv(s) && Consume(s.plans, r, now) == (left, Some(task.stored))
    ensures task.stored == s.plans[r.planId] && now < task.stored.expiresAt
    ensures Alone(s.(plans := left, nextTask := s.nextTask + 1), s.nextTask, task)
  {}

  lemma NextTaskKeepsInv(s: State)
    requires Inv(s)
    ensures Inv(s.(nextTask := s.nextTask + 1))
  {}

  lemma BeginKeepsInv(s: State, r: ApplyRequest, now: int)
    requires Inv(s)
    ensures Inv(Begin(s, r, now))
  {
    hide Proceed, Alone, Inv;
    var (left, consumed) := Consume(s.plans, r, now);
    FewerPlans(s, left);
    if Writable(s.current, r.workspaceId) && consumed.Some?
       && consumed.value.workspaceEpoch == s.current.value.workspace.workspaceEpoch
    {
      var task := Task(consumed.value, r, now, s.current.value, []);
      ConsumedIsAlone(s, r, now, left, task);
      NextTaskKeepsInv(s.(plans := left));
      assert Entitled(task) by { StoredAreTheirOwn(s, r.planId); }
      ProceedKeepsInv(s.(plans := left, nextTask := s.nextTask + 1), s.nextTask, task);
    }
  }

  lemma StoredAreTheirOwn(s: State, id: string)
    requires Inv(s) && id in s.plans
    ensures s.plans[id].plan.planId == id && s.plans[id].plan.sessionId == s.plans[id].sessionId
    ensures s.plans[id].plan.expiresAt == At(s.plans[id].expiresAt)
            && s.plans[id].uris == Uris(s.plans[id].plan.changes)
  {}

  lemma StepKeepsInv(s: State, e: Event)
    requires Inv(s) && FreshId(s, e)
    ensures Inv(Step(s, e))
  {
    hide Inv, Begin, Proceed;
    match e
    case Store(prepared, planId, now) => StoreKeepsInv(s, prepared, planId, now);
    case Apply(request, now) => BeginKeepsInv(s, request, now);
    case Read(id, revision) => ResumeKeepsInv(s, id, revision);
    case Cancel(id) => FewerTasks(s, id);
    case Discard(planId, _) => FewerPlans(s, s.plans - {planId});
    case InvalidateDocument(uri) => FewerPlans(s, Untouched(s.plans, uri));
    case InvalidateAll => FewerPlans(s, map[]);
    case WorkspaceBecomes(current) => MovingKeepsInv(s, current);
  }

  lemma FewerTasks(s: State, id: nat)
    requires Inv(s)
    ensures Inv(s.(tasks := s.tasks - {id}))
  {}

  lemma MovingKeepsInv(s: State, current: Option<Current>)
    requires Inv(s)
    ensures Inv(s.(current := current))
  {}

  lemma TaskIsAlone(s: State, id: nat, task: Task)
    requires Inv(s) && id in s.tasks && PlanOf(task) == PlanOf(s.tasks[id])
    ensures Alone(s, id, task) && Entitled(s.tasks[id]) && Matched(s.tasks[id])
  {}

  lemma ResumeKeepsInv(s: State, id: nat, revision: Option<Revision>)
    requires Inv(s)
    ensures Inv(Resume(s, id, revision))
  {
    hide Inv, Proceed, Alone;
    FewerTasks(s, id);
    if id in s.tasks && revision.Some? {
      var task := s.tasks[id];
      var k := |task.observed|;
      if k < |task.stored.plan.preconditions|
         && revision.value.contentHash == task.stored.plan.preconditions[k].revision.contentHash {
        var read := task.(observed := task.observed + [revision.value]);
        TaskIsAlone(s, id, read);
        ProceedKeepsInv(s, id, read);
      }
    }
  }

  ghost predicate FreshIds(s: State, es: seq<Event>) {
    forall k :: 0 <= k < |es| ==> FreshId(Run(s, es[..k]), es[k])
  }

  lemma {:induction false} RunKeepsInv(s: State, es: seq<Event>, k: nat)
    requires Inv(s) && FreshIds(s, es) && k <= |es|
    ensures Inv(Run(s, es[..k]))
  {
    if k > 0 {
      RunKeepsInv(s, es, k - 1);
      assert es[..k][..k - 1] == es[..k - 1];
      StepKeepsInv(Run(s, es[..k - 1]), es[k - 1]);
    }
  }

  /**
   Over any run with fresh identifiers `applyEdit` runs at most once for a plan, and only for a plan
   consumed unexpired by its own session in its own trusted workspace and epoch, after each of its
   preconditions was read in that same application and found to carry the planned hash.
   */
  lemma AppliedOnceAndEntitled(es: seq<Event>)
    requires FreshIds(EMPTY, es)
    ensures
      var t := Run(EMPTY, es);
      && |t.plans| <= MAX_LIVE_PLANS
      && (forall i :: 0 <= i < |t.applied| ==> Complete(t.applied[i]))
      && (forall i, j :: 0 <= i < j < |t.applied| ==> PlanOf(t.applied[i]) != PlanOf(t.applied[j]))
  {
    RunKeepsInv(EMPTY, es, |es|);
    assert es[..|es|] == es;
  }

  /** Issued, and neither stored nor being applied, nor applied so far. */
  ghost predicate Gone(s: State, id: string) {
    && id in s.issued && id !in s.plans
    && (forall k :: k in s.tasks ==> PlanOf(s.tasks[k]) != id)
    && (forall i :: 0 <= i < |s.applied| ==> PlanOf(s.applied[i]) != id)
  }

  lemma GoneWhileOthersBegin(s: State, r: ApplyRequest, now: int, id: string)
    requires Inv(s) && Gone(s, id)
    ensures Gone(Begin(s, r, now), id)
  {}

  lemma GoneWhileOthersResume(s: State, k: nat, revision: Option<Revision>, id: string)
    requires Gone(s, id)
    ensures Gone(Resume(s, k, revision), id)
  {}

  lemma GoneStays(s: State, e: Event, id: string)
    requires Inv(s) && FreshId(s, e) && Gone(s, id)
    ensures Gone(Step(s, e), id)
  {
    hide Inv, Begin, Resume, PlanOf;
    match e
    case Apply(r, now) => GoneWhileOthersBegin(s, r, now, id);
    case Read(k, revision) => GoneWhileOthersResume(s, k, revision, id);
    case _ =>
  }

  /** Consuming hands out the plan asked for, which is not one that is no longer stored. */
  lemma OthersAreConsumed(s: State, r: ApplyRequest, now: int, id: string)
    requires Inv(s) && id !in Sweep(s.plans, now)
    ensures var consumed := Consume(s.plans, r, now).1; consumed.Some? ==> consumed.value.plan.planId != id
    ensures forall k, w :: Consume(s.plans, r, now).1 == Some(k) ==> PlanOf(Task(k, r, now, w, [])) != id
  {}

  lemma {:induction false} GoneForever(s: State, es: seq<Event>, id: string)
    requires Inv(s) && FreshIds(s, es) && Gone(s, id)
    ensures Gone(Run(s, es), id)
  {
    if es != [] {
      var before := es[..|es| - 1];
      forall k | 0 <= k < |before| ensures FreshId(Run(s, before[..k]), before[k]) {
        assert before[..k] == es[..k] && before[k] == es[k];
      }
      GoneForever(s, before, id);
      RunKeepsInv(s, es, |es| - 1);
      GoneStays(Run(s, before), es[|es| - 1], id);
    }
  }

  /** A plan that an invalidation, a discard or an expiry removed is never applied afterwards. */
  lemma RemovedPlansAreNeverApplied(s: State, e: Event, es: seq<Event>, id: string)
    requires Inv(s) && FreshIds(s, [e] + es) && id in s.plans && id !in Step(s, e).plans
    requires
      || e.InvalidateAll? || (e.InvalidateDocument? && e.uri in Uris(s.plans[id].plan.changes))
      || e == Discard(id, s.plans[id].plan.workspaceId)
      || (e.Store? && s.plans[id].expiresAt <= e.now) || (e.Apply? && s.plans[id].expiresAt <= e.now)
    ensures forall i :: 0 <= i < |Run(Step(s, e), es).applied| ==> PlanOf(Run(Step(s, e), es).applied[i]) != id
  {
    assert ([e] + es)[..0] == [] && FreshId(Run(s, ([e] + es)[..0]), ([e] + es)[0]);
    StepKeepsInv(s, e);
    RemovedIsGone(s, e, id);
    hide Step, Inv, FreshId, PlanOf;
    forall k | 0 <= k < |es| ensures FreshId(Run(Step(s, e), es[..k]), es[k]) {
      assert ([e] + es)[..k + 1] == [e] + es[..k] && ([e] + es)[k + 1] == es[k];
      RunCons(s, e, es[..k]);
    }
    GoneForever(Step(s, e), es, id);
  }

  lemma RemovedIsGone(s: State, e: Event, id: string)
    requires Inv(s) && FreshId(s, e) && id in s.plans && id !in Step(s, e).plans
    requires !e.Apply? || s.plans[id].expiresAt <= e.now
    ensures Gone(Step(s, e), id)
  {
    hide Entitled, Matched, Complete, Uris, PlanOf;
    if e.Apply? { OthersAreConsumed(s, e.request, e.now, id); }
  }

  lemma {:induction false} RunCons(s: State, e: Event, es: seq<Event>)
    ensures Run(s, [e] + es) == Run(Step(s, e), es)
  {
    hide Step;
    if es == [] {
      assert [e] + es == [e] && [e][..0] == [];
    } else {
      assert ([e] + es)[..|es|] == [e] + es[..|es| - 1];
      RunCons(s, e, es[..|es| - 1]);
    }
  }
}
