/**
 When a plan is stored, and when its edit is applied: told from the requests, readings and
 invalidations that came, whatever came in between.
 */
module EditRuns {
  import opened Common
  import opened EditPlans

  // ----- The store --------------------------------------------------------------------------------

  /** A preparation finds room: fewer than 32 of the plans stored are still unexpired. */
  ghost predicate StoresNow(s: State, e: Event, id: string) {
    && e.Store? && e.planId == id
    && |set other | other in s.plans && e.now < s.plans[other].expiresAt| < 32
  }

  /** The caller's workspace is the one open, and trusted. */
  predicate MayWrite(s: State, r: ApplyRequest) {
    && s.current.Some? && s.current.value.trusted
    && s.current.value.workspace.workspaceId == r.workspaceId
  }

  /** A request for the plan by its own session, in its own workspace. */
  predicate AsksFor(r: ApplyRequest, id: string, p: Stored) {
    r.planId == id && r.workspaceId == p.plan.workspaceId && r.sessionId == p.plan.sessionId
  }

  /** What takes a stored plan out: its expiry, found by another request, its own use, or a withdrawal. */
  predicate TakesOut(s: State, e: Event, id: string, p: Stored) {
    match e
    case Store(_, _, now) => p.expiresAt <= now
    case Apply(r, now) => MayWrite(s, r) && (p.expiresAt <= now || AsksFor(r, id, p))
    case Discard(planId, workspaceId) => planId == id && workspaceId == p.plan.workspaceId
    case InvalidateDocument(uri) => exists i :: 0 <= i < |p.plan.changes| && p.plan.changes[i].uri == uri
    case InvalidateAll => true
    case _ => false
  }

  /** The plan as prepared, named, and good for two minutes. */
  ghost predicate AsPrepared(p: Stored, prepared: Prepared, id: string, now: int) {
    && p.plan == Plan(id, prepared.adapterId, prepared.sessionId, prepared.workspace.workspaceId, At(now + 120_000),
                      prepared.operation, prepared.preconditions, prepared.changes)
    && p.edit == prepared.edit && p.sessionId == prepared.sessionId && p.expiresAt == now + 120_000
    && p.workspaceEpoch == prepared.workspace.workspaceEpoch
    && |p.uris| == |prepared.changes| && forall i :: 0 <= i < |p.uris| ==> p.uris[i] == prepared.changes[i].uri
  }

  lemma StoreStepIff(s: State, e: Event, id: string)
    requires Inv(s) && FreshId(s, e)
    ensures id in s.plans ==> (id in Step(s, e).plans <==> !TakesOut(s, e, id, s.plans[id]))
    ensures id in s.plans && id in Step(s, e).plans ==> Step(s, e).plans[id] == s.plans[id]
    ensures id !in s.plans ==> (id in Step(s, e).plans <==> StoresNow(s, e, id))
    ensures id !in s.plans && id in Step(s, e).plans ==> AsPrepared(Step(s, e).plans[id], e.prepared, id, e.now)
    ensures Step(s, e).current == if e.WorkspaceBecomes? then e.current else s.current
  {
    hide TasksInv, AppliedInv, Proceed;
    match e
    case Store(_, _, now) => SweepKeeps(s.plans, now);
    case Apply(r, now) => ApplyTakesOut(s, r, now, id);
    case InvalidateDocument(uri) =>
      if id in s.plans { NamesIff(s.plans[id], uri); }
    case Read(n, revision) => ReadingSparesTheStore(s, n, revision);
    case _ =>
  }

  lemma ReadingSparesTheStore(s: State, n: nat, revision: Option<Revision>)
    ensures Step(s, Read(n, revision)).plans == s.plans && Step(s, Read(n, revision)).current == s.current
  {}

  lemma SweepKeeps(plans: map<string, Stored>, now: int)
    ensures Sweep(plans, now).Keys == set other | other in plans && now < plans[other].expiresAt
    ensures |Sweep(plans, now)| == |set other | other in plans && now < plans[other].expiresAt|
  {
    assert Sweep(plans, now).Keys == set other | other in plans && now < plans[other].expiresAt;
    assert |Sweep(plans, now).Keys| == |Sweep(plans, now)|;
  }

  lemma NamesIff(p: Stored, uri: string)
    requires p.uris == Uris(p.plan.changes)
    ensures uri in p.uris <==> exists i :: 0 <= i < |p.plan.changes| && p.plan.changes[i].uri == uri
  {
    if uri in p.uris { var i :| 0 <= i < |p.uris| && p.uris[i] == uri; assert p.plan.changes[i].uri == uri; }
    forall i | 0 <= i < |p.plan.changes| ensures p.plan.changes[i].uri in p.uris { assert p.uris[i] in p.uris; }
  }

  lemma ApplyTakesOut(s: State, r: ApplyRequest, now: int, id: string)
    requires StoreInv(s.plans, s.issued)
    ensures
      var t := Step(s, Apply(r, now));
      && (id in t.plans <==> id in s.plans && !TakesOut(s, Apply(r, now), id, s.plans[id]))
      && (id in t.plans ==> t.plans[id] == s.plans[id]) && t.current == s.current
  {}

  /** Stored as the j-th event of the run, and never taken out since. */
  ghost predicate StoredSince(es: seq<Event>, j: nat, id: string, p: Stored) {
    && j < |es| && StoresNow(Run(EMPTY, es[..j]), es[j], id) && AsPrepared(p, es[j].prepared, id, es[j].now)
    && forall m :: j < m < |es| ==> !TakesOut(Run(EMPTY, es[..m]), es[m], id, p)
  }

  lemma SincePrefix(es: seq<Event>, before: seq<Event>, e: Event, j: nat, id: string, p: Stored)
    requires es == before + [e] && j < |before|
    ensures StoredSince(es, j, id, p) <==> StoredSince(before, j, id, p) && !TakesOut(Run(EMPTY, before), e, id, p)
  {
    hide TakesOut, StoresNow, Run, AsPrepared;
    assert forall m :: 0 <= m <= |before| ==> es[..m] == before[..m];
    assert before[..|before|] == before && es[|before|] == e;
    assert forall m :: 0 <= m < |before| ==> es[m] == before[m];
    if StoredSince(es, j, id, p) {
      forall m | j < m < |before| ensures !TakesOut(Run(EMPTY, before[..m]), before[m], id, p) {
        assert !TakesOut(Run(EMPTY, es[..m]), es[m], id, p);
      }
      assert !TakesOut(Run(EMPTY, es[..|before|]), es[|before|], id, p);
    }
    if StoredSince(before, j, id, p) && !TakesOut(Run(EMPTY, before), e, id, p) {
      forall m | j < m < |es| ensures !TakesOut(Run(EMPTY, es[..m]), es[m], id, p) {
        if m < |before| { assert !TakesOut(Run(EMPTY, before[..m]), before[m], id, p); }
      }
    }
  }

  lemma StoredJustNow(es: seq<Event>, before: seq<Event>, e: Event, id: string, p: Stored)
    requires es == before + [e]
    ensures StoredSince(es, |before|, id, p) <==>
      StoresNow(Run(EMPTY, before), e, id) && AsPrepared(p, e.prepared, id, e.now)
  {
    hide TakesOut, StoresNow, Run, AsPrepared;
    assert es[..|before|] == before && es[|before|] == e;
  }

  lemma PreparedAlike(p: Stored, q: Stored, prepared: Prepared, id: string, now: int)
    requires AsPrepared(p, prepared, id, now) && AsPrepared(q, prepared, id, now)
    ensures p == q
  {
    assert p.uris == q.uris;
  }

  lemma FreshBefore(es: seq<Event>, before: seq<Event>, e: Event)
    requires es == before + [e] && FreshIds(EMPTY, es)
    ensures FreshIds(EMPTY, before) && Inv(Run(EMPTY, before)) && FreshId(Run(EMPTY, before), e)
    ensures Run(EMPTY, es) == Step(Run(EMPTY, before), e)
  {
    assert es[..|before|] == before && es[|before|] == e;
    forall k | 0 <= k < |before| ensures FreshId(Run(EMPTY, before[..k]), before[k]) {
      assert before[..k] == es[..k] && before[k] == es[k];
    }
    RunKeepsInv(EMPTY, es, |before|);
    hide Step, Inv, FreshId;
  }

  lemma {:induction false} StoredHasItsSource(es: seq<Event>, id: string) returns (j: nat)
    requires FreshIds(EMPTY, es) && id in Run(EMPTY, es).plans
    ensures StoredSince(es, j, id, Run(EMPTY, es).plans[id])
  {
    hide Step, TakesOut, StoresNow, AsPrepared, Inv, FreshId, FreshIds;
    var before, e := es[..|es| - 1], es[|es| - 1];
    assert es == before + [e];
    FreshBefore(es, before, e);
    hide Run, StoredSince;
    StoreStepIff(Run(EMPTY, before), e, id);
    if id in Run(EMPTY, before).plans {
      j := StoredHasItsSource(before, id);
      SincePrefix(es, before, e, j, id, Run(EMPTY, es).plans[id]);
    } else {
      j := |before|;
      StoredJustNow(es, before, e, id, Run(EMPTY, es).plans[id]);
    }
  }

  lemma {:induction false} SourceIsStored(es: seq<Event>, j: nat, id: string, p: Stored)
    requires FreshIds(EMPTY, es) && StoredSince(es, j, id, p)
    ensures id in Run(EMPTY, es).plans && Run(EMPTY, es).plans[id] == p
  {
    hide Step, TakesOut, StoresNow, AsPrepared, Inv, FreshId, FreshIds;
    var before, e := es[..|es| - 1], es[|es| - 1];
    assert es == before + [e] && j <= |before|;
    FreshBefore(es, before, e);
    hide Run, StoredSince;
    if j < |before| {
      SincePrefix(es, before, e, j, id, p);
      SourceIsStored(before, j, id, p);
      StoreStepIff(Run(EMPTY, before), e, id);
    } else {
      StoredJustNow(es, before, e, id, p);
      StoredAsPrepared(Run(EMPTY, before), e, id, p);
    }
  }

  /**
   In any run a plan is stored exactly when some preparation stored it as it stands, with fewer than
   32 unexpired plans beside it, and nothing has taken it out since.
   */
  lemma StoredIff(es: seq<Event>, id: string, p: Stored)
    requires FreshIds(EMPTY, es)
    ensures id in Run(EMPTY, es).plans && Run(EMPTY, es).plans[id] == p <==> exists j :: StoredSince(es, j, id, p)
  {
    if id in Run(EMPTY, es).plans && Run(EMPTY, es).plans[id] == p { var j := StoredHasItsSource(es, id); }
    forall j | StoredSince(es, j, id, p) ensures id in Run(EMPTY, es).plans && Run(EMPTY, es).plans[id] == p {
      SourceIsStored(es, j, id, p);
    }
  }

  lemma StoredAsPrepared(s: State, e: Event, id: string, p: Stored)
    requires Inv(s) && FreshId(s, e) && StoresNow(s, e, id) && AsPrepared(p, e.prepared, id, e.now)
    ensures id in Step(s, e).plans && Step(s, e).plans[id] == p
  {
    assert id !in s.plans;
    hide Step, Inv, AsPrepared;
    StoreStepIff(s, e, id);
    PreparedAlike(p, Step(s, e).plans[id], e.prepared, id, e.now);
  }

  // ----- The application --------------------------------------------------------------------------

  /** A request that begins an application: unexpired, in the epoch the plan was made in. */
  predicate Begins(s: State, e: Event, id: string) {
    && e.Apply? && id in s.plans && AsksFor(e.request, id, s.plans[id]) && MayWrite(s, e.request)
    && e.now < s.plans[id].expiresAt && s.current.value.workspace.workspaceEpoch == s.plans[id].workspaceEpoch
  }

  /** A reading made for the application, or its cancellation. */
  predicate Addressed(e: Event, n: nat) { (e.Read? || e.Cancel?) && e.id == n }

  function Answers(es: seq<Event>, n: nat): seq<Event> {
    if es == [] then []
    else Answers(es[..|es| - 1], n) + if Addressed(es[|es| - 1], n) then [es[|es| - 1]] else []
  }

  /** The i-th answer is a reading that finds the document as the i-th precondition has it. */
  predicate AsPlanned(answers: seq<Event>, planned: seq<Precondition>, i: nat)
    requires i < |answers| && i < |planned|
  {
    answers[i].Read? && answers[i].revision.Some?
    && answers[i].revision.value.contentHash == planned[i].revision.contentHash
  }

  predicate Succeeds(answers: seq<Event>, planned: seq<Precondition>) {
    |planned| <= |answers| && forall i :: 0 <= i < |planned| ==> AsPlanned(answers, planned, i)
  }

  predicate Waits(answers: seq<Event>, planned: seq<Precondition>) {
    |answers| < |planned| && forall i :: 0 <= i < |answers| ==> AsPlanned(answers, planned, i)
  }

  ghost predicate Applied(s: State, p: Stored) { exists i :: 0 <= i < |s.applied| && s.applied[i].stored == p }

  /** Where an application stands after its answers so far. */
  ghost predicate Stands(s: State, n: nat, p: Stored, answers: seq<Event>) {
    && n < s.nextTask
    && if Succeeds(answers, p.plan.preconditions) then Applied(s, p)
       else if Waits(answers, p.plan.preconditions) then
         n in s.tasks && s.tasks[n].stored == p && |s.tasks[n].observed| == |answers|
       else Gone(s, p.plan.planId)
  }

  lemma BeginningStands(s: State, e: Event, id: string)
    requires Inv(s) && Begins(s, e, id)
    ensures Stands(Step(s, e), s.nextTask, s.plans[id], []) && s.plans[id].plan.planId == id
  {
    var t := Step(s, e);
    if s.plans[id].plan.preconditions == [] { assert t.applied[|s.applied|].stored == s.plans[id]; }
    hide Inv, Gone;
  }

  lemma AppliedStays(s: State, e: Event, p: Stored)
    requires Applied(s, p)
    ensures Applied(Step(s, e), p)
  {
    var i :| 0 <= i < |s.applied| && s.applied[i].stored == p;
    assert Step(s, e).applied[i] == s.applied[i];
  }

  lemma OthersLeaveIt(s: State, e: Event, n: nat)
    requires n in s.tasks && n < s.nextTask && !Addressed(e, n)
    ensures n in Step(s, e).tasks && Step(s, e).tasks[n] == s.tasks[n] && n < Step(s, e).nextTask
  {}

  lemma NextTaskGrows(s: State, e: Event)
    ensures s.nextTask <= Step(s, e).nextTask
  {}

  /** The answer an application was waiting for, as planned or not. */
  lemma AnswerMovesIt(s: State, e: Event, n: nat, p: Stored, answers: seq<Event>)
    requires Inv(s) && n in s.tasks && s.tasks[n].stored == p && |s.tasks[n].observed| == |answers|
    requires Waits(answers, p.plan.preconditions) && Addressed(e, n) && n < s.nextTask
    ensures Stands(Step(s, e), n, p, answers + [e])
  {
    hide Inv, Gone, Step;
    var more, t, k := answers + [e], Step(s, e), |answers|;
    assert more[k] == e;
    var planned := p.plan.preconditions;
    assert forall i :: 0 <= i < k ==> (AsPlanned(more, planned, i) <==> AsPlanned(answers, planned, i));
    if AsPlanned(more, planned, k) {
      PlannedAnswer(s, n, e.revision.value);
    } else {
      OtherAnswer(s, e, n);
      DroppedIsGone(s, n);
    }
    NextTaskGrows(s, e);
  }

  lemma PlannedAnswer(s: State, n: nat, revision: Revision)
    requires n in s.tasks
    requires var k := |s.tasks[n].observed|; var planned := s.tasks[n].stored.plan.preconditions;
      k < |planned| && revision.contentHash == planned[k].revision.contentHash
    ensures
      var t := Step(s, Read(n, Some(revision))); var task := s.tasks[n];
      if |task.observed| + 1 < |task.stored.plan.preconditions| then
        n in t.tasks && t.tasks[n].stored == task.stored && |t.tasks[n].observed| == |task.observed| + 1
      else Applied(t, task.stored)
  {
    var t := Step(s, Read(n, Some(revision)));
    assert |t.applied| > |s.applied| ==> t.applied[|s.applied|].stored == s.tasks[n].stored;
  }

  lemma OtherAnswer(s: State, e: Event, n: nat)
    requires n in s.tasks && Addressed(e, n)
    requires var k := |s.tasks[n].observed|; var planned := s.tasks[n].stored.plan.preconditions;
      k < |planned| && (e.Cancel? || e.revision.None?
                        || e.revision.value.contentHash != planned[k].revision.contentHash)
    ensures Step(s, e) == s.(tasks := s.tasks - {n})
  {}

  lemma DroppedIsGone(s: State, n: nat)
    requires Inv(s) && n in s.tasks
    ensures Gone(s.(tasks := s.tasks - {n}), PlanOf(s.tasks[n]))
  {}

  lemma StandsOn(s: State, e: Event, n: nat, p: Stored, answers: seq<Event>)
    requires Inv(s) && FreshId(s, e) && Stands(s, n, p, answers)
    ensures Stands(Step(s, e), n, p, if Addressed(e, n) then answers + [e] else answers)
  {
    hide Inv, Step, Gone, FreshId;
    NextTaskGrows(s, e);
    var planned := p.plan.preconditions;
    var more := if Addressed(e, n) then answers + [e] else answers;
    assert forall i :: 0 <= i < |answers| && i < |planned| ==>
      (AsPlanned(more, planned, i) <==> AsPlanned(answers, planned, i));
    if Succeeds(answers, planned) {
      AppliedStays(s, e, p);
    } else if Waits(answers, planned) {
      if Addressed(e, n) { AnswerMovesIt(s, e, n, p, answers); } else { OthersLeaveIt(s, e, n); }
    } else {
      GoneStays(s, e, p.plan.planId);
    }
  }

  lemma AnswersSnoc(es: seq<Event>, e: Event, n: nat)
    ensures Answers(es + [e], n) == if Addressed(e, n) then Answers(es, n) + [e] else Answers(es, n)
  {
    assert (es + [e])[..|es|] == es;
  }

  lemma {:induction false} ApplicationStands(es: seq<Event>, k: nat, id: string, p: Stored)
    requires FreshIds(EMPTY, es) && k < |es| && Begins(Run(EMPTY, es[..k]), es[k], id)
    requires id in Run(EMPTY, es[..k]).plans && Run(EMPTY, es[..k]).plans[id] == p
    ensures var n := Run(EMPTY, es[..k]).nextTask;
      Stands(Run(EMPTY, es), n, p, Answers(es[k + 1..], n)) && p.plan.planId == id
  {
    hide Step, Begins, Inv, FreshId, FreshIds, Stands;
    var before, e := es[..|es| - 1], es[|es| - 1];
    assert es == before + [e];
    FreshBefore(es, before, e);
    if k == |before| {
      assert es[k + 1..] == [];
      BeginningStands(Run(EMPTY, before), e, id);
    } else {
      assert es[..k] == before[..k] && es[k + 1..] == before[k + 1..] + [e];
      var n := Run(EMPTY, es[..k]).nextTask;
      AnswersSnoc(before[k + 1..], e, n);
      ApplicationStands(before, k, id, p);
      StandsOn(Run(EMPTY, before), e, n, p, Answers(before[k + 1..], n));
    }
  }

  /** Being applied or applied. */
  ghost predicate Known(s: State, id: string) {
    (exists n :: n in s.tasks && PlanOf(s.tasks[n]) == id)
    || (exists i :: 0 <= i < |s.applied| && PlanOf(s.applied[i]) == id)
  }

  lemma KnownOnlyByBeginning(s: State, e: Event, id: string)
    requires Inv(s) && Known(Step(s, e), id)
    ensures Known(s, id) || Begins(s, e, id)
  {
    hide AppliedInv, StoreInv, Begins;
    match e
    case Apply(r, now) => KnownByApply(s, r, now, id);
    case Read(n, revision) => KnownByRead(s, n, revision, id);
    case _ =>
  }

  lemma KnownByApply(s: State, r: ApplyRequest, now: int, id: string)
    requires StoreInv(s.plans, s.issued) && Known(Step(s, Apply(r, now)), id)
    ensures Known(s, id) || Begins(s, Apply(r, now), id)
  {}

  lemma KnownByRead(s: State, n: nat, revision: Option<Revision>, id: string)
    requires Known(Step(s, Read(n, revision)), id)
    ensures Known(s, id)
  {}

  lemma {:induction false} KnownWasBegun(es: seq<Event>, id: string) returns (k: nat)
    requires FreshIds(EMPTY, es) && Known(Run(EMPTY, es), id)
    ensures k < |es| && Begins(Run(EMPTY, es[..k]), es[k], id)
  {
    hide Step, Begins, Inv, FreshId, FreshIds;
    assert es != [];
    var before, e := es[..|es| - 1], es[|es| - 1];
    assert es == before + [e];
    FreshBefore(es, before, e);
    KnownOnlyByBeginning(Run(EMPTY, before), e, id);
    if Known(Run(EMPTY, before), id) {
      k := KnownWasBegun(before, id);
      assert es[..k] == before[..k];
    } else {
      k := |before|;
    }
  }

  /** Begun by the k-th event of the run, and answered for every precondition in turn. */
  ghost predicate AnsweredThrough(es: seq<Event>, k: nat, p: Stored) {
    && k < |es|
    && var s := Run(EMPTY, es[..k]);
       && Begins(s, es[k], p.plan.planId) && s.plans[p.plan.planId] == p
       && Succeeds(Answers(es[k + 1..], s.nextTask), p.plan.preconditions)
  }

  /** An application that is over or under way is not also gone, and there is no second one. */
  lemma OneFate(s: State, n: nat, p: Stored, q: Stored, answers: seq<Event>)
    requires Inv(s) && Stands(s, n, p, answers) && Applied(s, q) && p.plan.planId == q.plan.planId
    ensures p == q && Succeeds(answers, p.plan.preconditions)
  {
    var i :| 0 <= i < |s.applied| && s.applied[i].stored == q;
    assert PlanOf(s.applied[i]) == p.plan.planId;
    hide Succeeds, Waits;
  }

  /**
   Over any run a plan's edit is applied exactly when its own session asked for it, unexpired and in
   its own trusted workspace and epoch, and what came first for that application were readings that
   found every precondition as planned, in order, before any cancellation or other reading of it.
   */
  lemma AppliedIff(es: seq<Event>, p: Stored)
    requires FreshIds(EMPTY, es)
    ensures Applied(Run(EMPTY, es), p) <==> exists k :: AnsweredThrough(es, k, p)
  {
    hide Step, Inv, FreshId, FreshIds, Succeeds, Stands;
    if Applied(Run(EMPTY, es), p) {
      var i :| 0 <= i < |Run(EMPTY, es).applied| && Run(EMPTY, es).applied[i].stored == p;
      assert PlanOf(Run(EMPTY, es).applied[i]) == p.plan.planId;
      var k := KnownWasBegun(es, p.plan.planId);
      var s := Run(EMPTY, es[..k]);
      var q := s.plans[p.plan.planId];
      ApplicationStands(es, k, p.plan.planId, q);
      EveryRunKeepsInv(es);
      OneFate(Run(EMPTY, es), s.nextTask, q, p, Answers(es[k + 1..], s.nextTask));
      assert AnsweredThrough(es, k, p);
    }
    forall k: nat | AnsweredThrough(es, k, p) ensures Applied(Run(EMPTY, es), p) {
      ApplicationStands(es, k, p.plan.planId, p);
      SucceededStands(Run(EMPTY, es), Run(EMPTY, es[..k]).nextTask, p,
                      Answers(es[k + 1..], Run(EMPTY, es[..k]).nextTask));
    }
  }

  lemma SucceededStands(s: State, n: nat, p: Stored, answers: seq<Event>)
    requires Stands(s, n, p, answers) && Succeeds(answers, p.plan.preconditions)
    ensures Applied(s, p)
  {}

  lemma EveryRunKeepsInv(es: seq<Event>)
    requires FreshIds(EMPTY, es)
    ensures Inv(Run(EMPTY, es))
  {
    RunKeepsInv(EMPTY, es, |es|);
    assert es[..|es|] == es;
  }
}
