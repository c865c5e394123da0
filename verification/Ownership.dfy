/**
 The daemon's lock file: any number of processes that link, read, judge, rename and unlink one path,
 interleaved at every system call. `link`, `rename` and `unlink` are atomic and a process identifier
 is never reused, so a process that has died stays dead.
 */
module Ownership {
  import opened Common

  const MAX_ACQUISITION_ATTEMPTS: nat := 8

  datatype Owner = Owner(pid: nat, startedAt: string)
  datatype Content = Record(owner: Owner) | Malformed
  datatype Refusal = AlreadyRunning | OwnershipInvalid | Faulted

  /** Where a process stands between two system calls. */
  datatype Phase =
    | Publishing(attempt: nat)
    | Linked
    | Occupied(attempt: nat)
    | Judging(attempt: nat, existing: Owner)
    | Stale(attempt: nat, existing: Owner)
    | Holding
    | Unlinking
    | Released
    | Refused(reason: Refusal)

  datatype State = State(lock: Option<Content>, alive: set<nat>, phases: map<Owner, Phase>)

  datatype Verb = Link | Chmod | Read | Judge | Rename | Recheck | Unlink | Fault
  datatype Event = Act(me: Owner, verb: Verb) | Die(pid: nat)

  function NextAttempt(attempt: nat): Phase {
    if attempt + 1 < MAX_ACQUISITION_ATTEMPTS then Publishing(attempt + 1) else Refused(AlreadyRunning)
  }

  /** What one system call does to the lock and to its caller; out of place it does nothing. */
  function Call(verb: Verb, me: Owner, phase: Phase, lock: Option<Content>, alive: set<nat>): (Option<Content>, Phase) {
    match (verb, phase)
    case (Link, Publishing(attempt)) =>
      if lock.None? then (Some(Record(me)), Linked) else (lock, Occupied(attempt))
    case (Chmod, Linked) => (lock, if lock.None? then Refused(Faulted) else Holding)
    case (Read, Occupied(attempt)) =>
      (lock, match lock
             case None => NextAttempt(attempt)
             case Some(Malformed) => Refused(OwnershipInvalid)
             case Some(Record(existing)) => Judging(attempt, existing))
    case (Judge, Judging(attempt, existing)) =>
      (lock, if existing.pid in alive then Refused(AlreadyRunning) else Stale(attempt, existing))
    case (Rename, Stale(attempt, _)) => (None, NextAttempt(attempt))
    case (Recheck, Holding) => (lock, if lock == Some(Record(me)) then Unlinking else Released)
    case (Unlink, Unlinking) => (None, Released)
    case (Fault, Holding) => (lock, phase)
    case (Fault, Unlinking) => (lock, Released)
    case (Fault, Released) => (lock, phase)
    case (Fault, Refused(_)) => (lock, phase)
    case (Fault, _) => (lock, Refused(Faulted))
    case _ => (lock, phase)
  }

  function Step(s: State, e: Event): State {
    match e
    case Die(pid) => s.(alive := s.alive - {pid})
    case Act(me, verb) =>
      if me.pid !in s.alive || me !in s.phases then s
      else
        var (lock, phase) := Call(verb, me, s.phases[me], s.lock, s.alive);
        s.(lock := lock, phases := s.phases[me := phase])
  }

  function Run(s: State, es: seq<Event>): State {
    if es == [] then s else Step(Run(s, es[..|es| - 1]), es[|es| - 1])
  }

  lemma {:induction false} RunConcat(s: State, a: seq<Event>, b: seq<Event>)
    ensures Run(s, a + b) == Run(Run(s, a), b)
  {
    if b == [] {
      assert a + b == a;
    } else {
      assert (a + b)[..|a + b| - 1] == a + b[..|b| - 1];
      RunConcat(s, a, b[..|b| - 1]);
    }
  }

  // ----- Safety -----------------------------------------------------------------------------------

  predicate Owning(phase: Phase) { phase.Linked? || phase.Holding? || phase.Unlinking? }

  predicate LiveOwner(s: State, me: Owner) { me in s.phases && me.pid in s.alive && Owning(s.phases[me]) }

  /** The lock holds the record of every live owner, and whoever was judged dead is dead. */
  ghost predicate Safe(s: State) {
    && (forall me :: LiveOwner(s, me) ==> s.lock == Some(Record(me)))
    && (forall me :: me in s.phases && s.phases[me].Stale? ==> s.phases[me].existing.pid !in s.alive)
  }

  predicate Renames(s: State, e: Event) {
    e.Act? && e.verb.Rename? && e.me in s.phases && e.me.pid in s.alive && s.phases[e.me].Stale?
  }

  /** A takeover that moves a live owner's record aside. */
  predicate Displaces(s: State, e: Event) {
    Renames(s, e) && s.lock.Some? && s.lock.value.Record? && LiveOwner(s, s.lock.value.owner)
  }

  /** The rename finds the record that was read and judged, or nothing: reading and renaming as one step. */
  predicate TakesWhatItJudged(s: State, e: Event) {
    Renames(s, e) ==> s.lock.None? || s.lock == Some(Record(s.phases[e.me].existing))
  }

  /** Of a state in which the lock records its live owner: exactly a takeover of that record ends this. */
  lemma SafeExactlyUnlessDisplaced(s: State, e: Event)
    requires Safe(s)
    ensures Safe(Step(s, e)) <==> !Displaces(s, e)
  {
    var t := Step(s, e);
    if Displaces(s, e) {
      var o := s.lock.value.owner;
      assert LiveOwner(t, o) && t.lock.None?;
    } else {
      forall me | LiveOwner(t, me) ensures t.lock == Some(Record(me)) {
        if e.Act? && e.me != me {
          assert LiveOwner(s, me);
          assert !LiveOwner(s, e.me);
        } else {
          assert LiveOwner(s, me) || s.phases[me].Publishing?;
        }
      }
    }
  }

  ghost predicate Undisturbed(s: State, es: seq<Event>) {
    forall k :: 0 <= k < |es| ==> !Displaces(Run(s, es[..k]), es[k])
  }

  ghost predicate TakeoversAreAtomic(s: State, es: seq<Event>) {
    forall k :: 0 <= k < |es| ==> TakesWhatItJudged(Run(s, es[..k]), es[k])
  }

  lemma {:induction false} SafeRun(s: State, es: seq<Event>, k: nat)
    requires Safe(s) && k <= |es| && Undisturbed(s, es)
    ensures Safe(Run(s, es[..k]))
  {
    if k > 0 {
      SafeRun(s, es, k - 1);
      assert es[..k][..k - 1] == es[..k - 1];
      SafeExactlyUnlessDisplaced(Run(s, es[..k - 1]), es[k - 1]);
    }
  }

  /** The lock records every live owner throughout a run exactly when no takeover in it displaces one. */
  lemma SafeThroughoutIffUndisturbed(s: State, es: seq<Event>)
    requires Safe(s)
    ensures (forall k :: 0 <= k <= |es| ==> Safe(Run(s, es[..k]))) <==> Undisturbed(s, es)
  {
    if Undisturbed(s, es) {
      forall k | 0 <= k <= |es| ensures Safe(Run(s, es[..k])) { SafeRun(s, es, k); }
    } else {
      var k :| 0 <= k < |es| && Displaces(Run(s, es[..k]), es[k]);
      assert es[..k + 1][..k] == es[..k];
      if Safe(Run(s, es[..k])) { SafeExactlyUnlessDisplaced(Run(s, es[..k]), es[k]); }
      assert !Safe(Run(s, es[..k])) || !Safe(Run(s, es[..k + 1]));
    }
  }

  // ----- Exclusion itself -------------------------------------------------------------------------

  ghost predicate Exclusive(s: State) { forall a, b :: LiveOwner(s, a) && LiveOwner(s, b) ==> a == b }

  predicate Publishes(s: State, e: Event) {
    e.Act? && e.verb.Link? && e.me in s.phases && e.me.pid in s.alive && s.phases[e.me].Publishing? && s.lock.None?
  }

  /** A record is published although somebody still owns the lock. */
  ghost predicate Supplants(s: State, e: Event) { Publishes(s, e) && exists o :: LiveOwner(s, o) }

  lemma ExclusionEndsExactlyWhenSupplanted(s: State, e: Event)
    requires Exclusive(s)
    ensures Exclusive(Step(s, e)) <==> !Supplants(s, e)
  {
    var t := Step(s, e);
    if Supplants(s, e) {
      var o :| LiveOwner(s, o);
      assert LiveOwner(t, o) && LiveOwner(t, e.me);
    } else {
      forall a | LiveOwner(t, a) ensures LiveOwner(s, a) || (Publishes(s, e) && a == e.me) {}
    }
  }

  /** The j-th event takes the record of `o`, then a live owner, aside. */
  predicate DisplacedAt(s: State, es: seq<Event>, j: nat, o: Owner)
    requires j < |es|
  {
    Displaces(Run(s, es[..j]), es[j]) && Run(s, es[..j]).lock == Some(Record(o))
  }

  /** The k-th event publishes while an owner that an earlier takeover displaced is still a live owner. */
  ghost predicate PublishesOverDisplaced(s: State, es: seq<Event>, k: nat)
    requires k < |es|
  {
    && Publishes(Run(s, es[..k]), es[k])
    && exists j, o :: 0 <= j < k && DisplacedAt(s, es, j, o) && LiveOwner(Run(s, es[..k]), o)
  }

  ghost predicate ExclusiveUpTo(s: State, es: seq<Event>, n: nat)
    requires n <= |es|
  {
    forall k :: 0 <= k <= n ==> Exclusive(Run(s, es[..k]))
  }

  ghost predicate RecordedOrDisplaced(s: State, es: seq<Event>, k: nat, o: Owner)
    requires k <= |es|
  {
    Run(s, es[..k]).lock == Some(Record(o)) || exists j :: 0 <= j < k && DisplacedAt(s, es, j, o)
  }

  /** While a run is exclusive, a live owner leaves the lock only by a takeover of its own record. */
  lemma OwnerLeavesByTakeover(s: State, e: Event, o: Owner)
    requires Exclusive(s) && LiveOwner(Step(s, e), o)
    ensures LiveOwner(s, o) || Step(s, e).lock == Some(Record(o))
    ensures s.lock == Some(Record(o)) && LiveOwner(s, o) ==> Step(s, e).lock == s.lock || Displaces(s, e)
  {
    if e.Act? { assert LiveOwner(s, e.me) && LiveOwner(s, o) ==> e.me == o; }
  }

  lemma {:induction false} OwnersAreRecordedOrDisplaced(s: State, es: seq<Event>, k: nat, o: Owner)
    requires Safe(s) && k <= |es| && ExclusiveUpTo(s, es, k) && LiveOwner(Run(s, es[..k]), o)
    ensures RecordedOrDisplaced(s, es, k, o)
  {
    hide Step, Safe, Displaces, Exclusive;
    if k == 0 {
      StartsRecorded(s, o);
      assert es[..0] == [];
    } else {
      var before := Run(s, es[..k - 1]);
      assert es[..k][..k - 1] == es[..k - 1];
      OwnerLeavesByTakeover(before, es[k - 1], o);
      if LiveOwner(before, o) {
        OwnersAreRecordedOrDisplaced(s, es, k - 1, o);
        assert before.lock == Some(Record(o)) && Displaces(before, es[k - 1]) ==> DisplacedAt(s, es, k - 1, o);
      }
    }
  }

  lemma StartsRecorded(s: State, o: Owner)
    requires Safe(s) && LiveOwner(s, o)
    ensures s.lock == Some(Record(o))
  {}

  /**
   From a start in which the lock records its owner: at most one live owner at every moment of a run
   of any number of contenders, exactly when no record is ever published while an owner that an
   earlier takeover displaced still owns.
   */
  lemma ExclusiveThroughoutIff(s: State, es: seq<Event>)
    requires Safe(s)
    ensures ExclusiveUpTo(s, es, |es|) <==> forall k :: 0 <= k < |es| ==> !PublishesOverDisplaced(s, es, k)
  {
    if ExclusiveUpTo(s, es, |es|) {
      forall k | 0 <= k < |es| ensures !PublishesOverDisplaced(s, es, k) {
        assert es[..k + 1][..k] == es[..k];
        assert Exclusive(Run(s, es[..k])) && Exclusive(Run(s, es[..k + 1]));
        ExclusionEndsExactlyWhenSupplanted(Run(s, es[..k]), es[k]);
      }
    }
    if forall k :: 0 <= k < |es| ==> !PublishesOverDisplaced(s, es, k) { StaysExclusive(s, es, |es|); }
  }

  lemma SupplantingNeedsADisplacement(s: State, es: seq<Event>, k: nat)
    requires Safe(s) && k < |es| && ExclusiveUpTo(s, es, k) && Supplants(Run(s, es[..k]), es[k])
    ensures PublishesOverDisplaced(s, es, k)
  {
    hide Step, Displaces, LiveOwner;
    var o :| LiveOwner(Run(s, es[..k]), o);
    OwnersAreRecordedOrDisplaced(s, es, k, o);
  }

  lemma {:induction false} StaysExclusive(s: State, es: seq<Event>, n: nat)
    requires Safe(s) && n <= |es| && forall k :: 0 <= k < n ==> !PublishesOverDisplaced(s, es, k)
    ensures ExclusiveUpTo(s, es, n)
  {
    hide Step, Displaces, LiveOwner;
    if n == 0 {
      assert es[..0] == [];
      SafeIsExclusive(s);
    } else {
      StaysExclusive(s, es, n - 1);
      var before := Run(s, es[..n - 1]);
      assert es[..n][..n - 1] == es[..n - 1] && Exclusive(before);
      if Supplants(before, es[n - 1]) { SupplantingNeedsADisplacement(s, es, n - 1); }
      ExclusionEndsExactlyWhenSupplanted(before, es[n - 1]);
    }
  }

  lemma SafeIsExclusive(s: State)
    requires Safe(s)
    ensures Exclusive(s)
  {}

  // ----- Takeovers as one step --------------------------------------------------------------------

  /** The record a takeover judged belongs to a dead process, so taking just that one is harmless. */
  lemma JudgedIsDead(s: State, e: Event)
    requires Safe(s) && TakesWhatItJudged(s, e)
    ensures !Displaces(s, e)
  {}

  lemma {:induction false} AtomicTakeoversDisturbNoOne(s: State, es: seq<Event>, k: nat)
    requires Safe(s) && TakeoversAreAtomic(s, es) && k <= |es|
    ensures Safe(Run(s, es[..k])) && Undisturbed(s, es[..k])
  {
    hide Step, Safe, Displaces;
    if k > 0 {
      AtomicTakeoversDisturbNoOne(s, es, k - 1);
      var before := Run(s, es[..k - 1]);
      assert es[..k][..k - 1] == es[..k - 1];
      assert TakesWhatItJudged(before, es[k - 1]);
      JudgedIsDead(before, es[k - 1]);
      SafeExactlyUnlessDisplaced(before, es[k - 1]);
      forall j | 0 <= j < k ensures !Displaces(Run(s, es[..k][..j]), es[..k][j]) {
        assert es[..k][..j] == es[..j];
        if j < k - 1 { assert es[..k - 1][..j] == es[..j] && es[..k - 1][j] == es[j]; }
      }
    }
  }

  /** With takeovers taken as one step there is one live owner, and its record in the lock. */
  lemma OneLiveOwner(s: State, es: seq<Event>, a: Owner, b: Owner)
    requires Safe(s) && TakeoversAreAtomic(s, es)
    ensures LiveOwner(Run(s, es), a) && LiveOwner(Run(s, es), b) ==> a == b
    ensures LiveOwner(Run(s, es), a) ==> Run(s, es).lock == Some(Record(a))
  {
    AtomicTakeoversDisturbNoOne(s, es, |es|);
    assert es[..|es|] == es;
  }

  ghost predicate Removes(s: State, e: Event) {
    e.Act? && e.verb.Unlink? && e.me in s.phases && e.me.pid in s.alive && s.phases[e.me].Unlinking?
  }

  /** In a run that displaces no live owner nobody unlinks a record but its own. */
  lemma ReleaseRemovesOnlyItsOwn(s: State, es: seq<Event>, k: nat)
    requires Safe(s) && Undisturbed(s, es) && k < |es| && Removes(Run(s, es[..k]), es[k])
    ensures Run(s, es[..k]).lock == Some(Record(es[k].me))
  {
    SafeRun(s, es, k);
    assert LiveOwner(Run(s, es[..k]), es[k].me);
  }

  // ----- Between the recheck and the unlink -------------------------------------------------------

  /** An event of some other process. */
  predicate Foreign(e: Event, me: Owner) { if e.Act? then e.me != me else e.pid != me.pid }

  ghost predicate Unlinks(s: State, me: Owner) { me in s.phases && s.phases[me].Unlinking? && me.pid in s.alive }

  predicate Clears(s: State, e: Event) { s.lock.Some? && Step(s, e).lock.None? }

  lemma ForeignStep(s: State, e: Event, me: Owner)
    requires Unlinks(s, me) && Foreign(e, me)
    ensures Unlinks(Step(s, e), me)
    ensures Step(s, e).lock == s.lock || Step(s, e).lock.None?
            || (s.lock.None? && Publishes(s, e) && Step(s, e).lock == Some(Record(e.me)))
    ensures Step(s, e).lock == Some(Record(me)) ==> s.lock == Some(Record(me))
  {}

  /** While the record is still there, nothing has been disturbed; once it is not, a takeover took it. */
  lemma {:induction false} RecordLeavesByTakeover(s: State, es: seq<Event>, me: Owner)
    requires Safe(s) && Unlinks(s, me) && forall e :: e in es ==> Foreign(e, me)
    ensures Unlinks(Run(s, es), me)
    ensures Run(s, es).lock == Some(Record(me)) ==> Safe(Run(s, es))
    ensures Run(s, es).lock != Some(Record(me)) ==> exists j :: 0 <= j < |es| && DisplacedAt(s, es, j, me)
  {
    hide Step, Safe, Displaces, Unlinks;
    if es == [] {
      UnlinkerIsRecorded(s, me);
    } else {
      var before, e := es[..|es| - 1], es[|es| - 1];
      assert es == before + [e] && e in es;
      RecordLeavesByTakeover(s, before, me);
      var u := Run(s, before);
      ForeignStep(u, e, me);
      if u.lock == Some(Record(me)) {
        SafeExactlyUnlessDisplaced(u, e);
        OnlyTakeoverTakes(u, e, me);
        assert Displaces(u, e) ==> DisplacedAt(s, es, |before|, me);
      } else {
        var j :| 0 <= j < |before| && DisplacedAt(s, before, j, me);
        assert before[..j] == es[..j] && before[j] == es[j];
        assert DisplacedAt(s, es, j, me);
      }
    }
  }

  lemma UnlinkerIsRecorded(s: State, me: Owner)
    requires Safe(s) && Unlinks(s, me)
    ensures s.lock == Some(Record(me))
  {
    assert LiveOwner(s, me);
  }

  lemma OnlyTakeoverTakes(s: State, e: Event, me: Owner)
    requires Safe(s) && Unlinks(s, me) && Foreign(e, me) && s.lock == Some(Record(me))
    ensures Step(s, e).lock == s.lock <==> !Displaces(s, e)
  {
    assert LiveOwner(s, me);
    assert e.Act? ==> !LiveOwner(s, e.me);
  }

  /** After a takeover of `me`'s record another was published, and nothing has cleared the lock since. */
  ghost predicate Replaced(s: State, es: seq<Event>, me: Owner) {
    exists j, k :: 0 <= j < k < |es| && DisplacedAt(s, es, j, me) && PublishedAndKept(s, es, k)
  }

  ghost predicate PublishedAndKept(s: State, es: seq<Event>, k: nat)
    requires k < |es|
  {
    Publishes(Run(s, es[..k]), es[k]) && forall m :: k < m < |es| ==> !Clears(Run(s, es[..m]), es[m])
  }

  /**
   A process that has rechecked its record, from a state in which the lock records its owner, then
   finds another's there to unlink exactly when meanwhile a takeover moved its record aside and
   another was published and is still there.
   */
  lemma UnlinkHitsAnotherIff(s: State, es: seq<Event>, me: Owner)
    requires Safe(s) && Unlinks(s, me) && forall e :: e in es ==> Foreign(e, me)
    ensures Run(s, es).lock.Some? && Run(s, es).lock != Some(Record(me)) <==> Replaced(s, es, me)
  {
    if Run(s, es).lock.Some? && Run(s, es).lock != Some(Record(me)) { AnotherWasPublished(s, es, me); }
    if Replaced(s, es, me) {
      var j, k :| 0 <= j < k < |es| && DisplacedAt(s, es, j, me) && PublishedAndKept(s, es, k);
      PublishedStays(s, es, me, k);
    }
  }

  lemma {:induction false} AnotherWasPublished(s: State, es: seq<Event>, me: Owner)
    requires Safe(s) && Unlinks(s, me) && forall e :: e in es ==> Foreign(e, me)
    requires Run(s, es).lock.Some? && Run(s, es).lock != Some(Record(me))
    ensures Replaced(s, es, me)
  {
    hide Step, Safe, Displaces, Unlinks, Clears, Publishes;
    if es == [] {
      UnlinkerIsRecorded(s, me);
    } else {
      var before, e := es[..|es| - 1], es[|es| - 1];
      assert es == before + [e] && e in es;
      RecordLeavesByTakeover(s, before, me);
      var u := Run(s, before);
      ForeignStep(u, e, me);
      if u.lock.None? {
        var j :| 0 <= j < |before| && DisplacedAt(s, before, j, me);
        assert before[..j] == es[..j] && before[j] == es[j];
        assert DisplacedAt(s, es, j, me) && PublishedAndKept(s, es, |before|);
      } else {
        AnotherWasPublished(s, before, me);
        var j, k :| 0 <= j < k < |before| && DisplacedAt(s, before, j, me) && PublishedAndKept(s, before, k);
        KeptLonger(s, before, e, es, j, k, me);
      }
    }
  }

  lemma KeptLonger(s: State, before: seq<Event>, e: Event, es: seq<Event>, j: nat, k: nat, me: Owner)
    requires es == before + [e] && j < k < |before| && DisplacedAt(s, before, j, me) && PublishedAndKept(s, before, k)
    requires Run(s, before).lock.Some? && Step(Run(s, before), e).lock.Some?
    ensures DisplacedAt(s, es, j, me) && PublishedAndKept(s, es, k)
  {
    hide Step, Displaces, Publishes;
    assert before[..j] == es[..j] && before[..k] == es[..k];
    forall m | k < m < |es| ensures !Clears(Run(s, es[..m]), es[m]) {
      if m < |before| { assert before[..m] == es[..m] && before[m] == es[m]; } else { assert es[..m] == before; }
    }
  }

  lemma KeptBefore(s: State, before: seq<Event>, e: Event, es: seq<Event>, k: nat)
    requires es == before + [e] && k < |before| && PublishedAndKept(s, es, k)
    ensures PublishedAndKept(s, before, k) && !Clears(Run(s, before), e)
  {
    hide Step, Publishes, Clears;
    assert es[..|before|] == before && before[..k] == es[..k];
    forall m | k < m < |before| ensures !Clears(Run(s, before[..m]), before[m]) {
      assert before[..m] == es[..m] && before[m] == es[m];
    }
  }

  lemma {:induction false} PublishedStays(s: State, es: seq<Event>, me: Owner, k: nat)
    requires Safe(s) && Unlinks(s, me) && forall e :: e in es ==> Foreign(e, me)
    requires k < |es| && PublishedAndKept(s, es, k)
    ensures Run(s, es).lock == Some(Record(es[k].me)) && es[k].me != me
  {
    hide Step, Safe, Displaces, Unlinks, Foreign, Publishes;
    var before, e := es[..|es| - 1], es[|es| - 1];
    assert es == before + [e] && e in es;
    if k == |before| {
      PublishedIsThere(Run(s, before), e, me);
    } else {
      KeptBefore(s, before, e, es, k);
      PublishedStays(s, before, me, k);
      RecordLeavesByTakeover(s, before, me);
      ForeignStep(Run(s, before), e, me);
    }
  }

  lemma PublishedIsThere(s: State, e: Event, me: Owner)
    requires Publishes(s, e) && Foreign(e, me)
    ensures Step(s, e).lock == Some(Record(e.me)) && e.me != me
  {}

  lemma StepKeepsHolder(s: State, e: Event, me: Owner)
    requires me in s.phases && s.phases[me].Holding? && me.pid in s.alive && e != Die(me.pid) && e != Act(me, Recheck)
    ensures me in Step(s, e).phases && Step(s, e).phases[me].Holding? && me.pid in Step(s, e).alive
  {}

  /** Whatever the others do, a live holder that does not release keeps the lock. */
  lemma {:induction false} HolderKeepsTheLock(s: State, es: seq<Event>, me: Owner)
    requires Safe(s) && TakeoversAreAtomic(s, es)
    requires me in s.phases && s.phases[me].Holding? && me.pid in s.alive
    requires forall e :: e in es ==> e != Die(me.pid) && e != Act(me, Recheck)
    ensures me in Run(s, es).phases && Run(s, es).phases[me].Holding? && me.pid in Run(s, es).alive
    ensures Run(s, es).lock == Some(Record(me))
  {
    hide Step, Safe, TakesWhatItJudged;
    if es != [] {
      var before := es[..|es| - 1];
      forall k | 0 <= k < |before| ensures TakesWhatItJudged(Run(s, before[..k]), before[k]) {
        assert before[..k] == es[..k] && before[k] == es[k];
      }
      forall e | e in before ensures e in es { assert es == before + [es[|es| - 1]]; }
      HolderKeepsTheLock(s, before, me);
      assert es[|es| - 1] in es;
      StepKeepsHolder(Run(s, before), es[|es| - 1], me);
    }
    OneLiveOwner(s, es, me, me);
  }

  // ----- The hypothesis is needed -----------------------------------------------------------------

  lemma Then(s: State, es: seq<Event>, e: Event)
    ensures Run(s, es + [e]) == Step(Run(s, es), e)
  {}

  lemma Unfold(s: State, es: seq<Event>)
    ensures Run(s, es[..0]) == s && Run(s, es[..|es|]) == Run(s, es)
    ensures forall k :: 0 <= k < |es| ==> Run(s, es[..k + 1]) == Step(Run(s, es[..k]), es[k])
  {
    assert es[..|es|] == es;
    forall k | 0 <= k < |es| ensures Run(s, es[..k + 1]) == Step(Run(s, es[..k]), es[k]) {
      assert es[..k + 1] == es[..k] + [es[k]];
      Then(s, es[..k], es[k]);
    }
  }

  function Each(a: Owner, b: Owner, verb: Verb): seq<Event> { [Act(a, verb), Act(b, verb)] }

  function Judged(a: Owner, b: Owner): seq<Event> { Each(a, b, Link) + Each(a, b, Read) + Each(a, b, Judge) }

  lemma RunEach(s: State, a: Owner, b: Owner, verb: Verb)
    ensures Run(s, Each(a, b, verb)) == Step(Step(s, Act(a, verb)), Act(b, verb))
  {
    Unfold(s, Each(a, b, verb));
    assert Run(s, Each(a, b, verb)[..1]) == Step(s, Act(a, verb));
  }

  lemma BothJudgeTheSameOwner(s: State, a: Owner, b: Owner, dead: Owner)
    requires a != b && {a.pid, b.pid} <= s.alive && dead.pid !in s.alive && s.lock == Some(Record(dead))
    requires {a, b} <= s.phases.Keys && s.phases[a] == s.phases[b] == Publishing(0)
    ensures Run(s, Judged(a, b)) == s.(phases := s.phases[a := Stale(0, dead)][b := Stale(0, dead)])
  {
    hide Run;
    RunConcat(s, Each(a, b, Link) + Each(a, b, Read), Each(a, b, Judge));
    RunConcat(s, Each(a, b, Link), Each(a, b, Read));
    var linked := s.(phases := s.phases[a := Occupied(0)][b := Occupied(0)]);
    var read := s.(phases := s.phases[a := Judging(0, dead)][b := Judging(0, dead)]);
    RunEach(s, a, b, Link);
    assert Run(s, Each(a, b, Link)) == linked;
    RunEach(linked, a, b, Read);
    assert Run(linked, Each(a, b, Read)) == read;
    RunEach(read, a, b, Judge);
  }

  function TakenOver(me: Owner): seq<Event> { [Act(me, Rename), Act(me, Link), Act(me, Chmod)] }

  /** Whoever has judged an owner stale takes the lock, whatever record it then holds. */
  lemma TakeoverSucceeds(s: State, me: Owner)
    requires me.pid in s.alive && me in s.phases && s.phases[me].Stale?
             && s.phases[me].attempt + 1 < MAX_ACQUISITION_ATTEMPTS
    ensures Run(s, TakenOver(me)) == s.(lock := Some(Record(me)), phases := s.phases[me := Holding])
  {
    hide Run;
    var es := TakenOver(me);
    Unfold(s, es);
    var renamed := s.(lock := None, phases := s.phases[me := NextAttempt(s.phases[me].attempt)]);
    assert Run(s, es[..1]) == renamed;
    assert Run(s, es[..2]) == s.(lock := Some(Record(me)), phases := renamed.phases[me := Linked]);
  }

  /**
   Two contenders that both judge the same dead owner both end up holding the lock: the second moves
   the first one's record aside.
   */
  lemma SplitTakeoverLetsTwoHold(s: State, a: Owner, b: Owner, dead: Owner)
    requires Safe(s) && a != b && {a.pid, b.pid} <= s.alive && dead.pid !in s.alive && s.lock == Some(Record(dead))
    requires {a, b} <= s.phases.Keys && s.phases[a] == s.phases[b] == Publishing(0)
    ensures
      var t := Run(s, Judged(a, b) + TakenOver(a) + TakenOver(b));
      LiveOwner(t, a) && LiveOwner(t, b) && t.phases[a].Holding? && t.phases[b].Holding? && !Exclusive(t)
  {
    hide Run, Safe;
    BothJudgeTheSameOwner(s, a, b, dead);
    RunConcat(s, Judged(a, b), TakenOver(a));
    RunConcat(s, Judged(a, b) + TakenOver(a), TakenOver(b));
    TakeoverSucceeds(Run(s, Judged(a, b)), a);
    TakeoverSucceeds(Run(s, Judged(a, b) + TakenOver(a)), b);
  }

  // ----- Why a contender is refused ---------------------------------------------------------------

  /** What a contender may meet: an occupied path at an attempt, a live owner, a bad record, a lock gone. */
  datatype Met = Taken(attempt: nat) | Living | Bad | Gone

  predicate Meets(s: State, e: Event, me: Owner, what: Met) {
    && e.Act? && e.me == me && me in s.phases && me.pid in s.alive
    && match what
       case Taken(attempt) => e.verb.Link? && s.phases[me] == Publishing(attempt) && s.lock.Some?
       case Living => e.verb.Judge? && s.phases[me].Judging? && s.phases[me].existing.pid in s.alive
       case Bad => e.verb.Read? && s.phases[me].Occupied? && s.lock == Some(Malformed)
       case Gone => e.verb.Chmod? && s.phases[me].Linked? && s.lock.None?
  }

  ghost predicate HasMet(s: State, es: seq<Event>, me: Owner, what: Met) {
    exists k :: 0 <= k < |es| && Meets(Run(s, es[..k]), es[k], me, what)
  }

  lemma HasMetSnoc(s: State, es: seq<Event>, me: Owner, what: Met)
    requires es != []
    ensures HasMet(s, es[..|es| - 1], me, what) || Meets(Run(s, es[..|es| - 1]), es[|es| - 1], me, what) ==>
            HasMet(s, es, me, what)
  {
    var before := es[..|es| - 1];
    if HasMet(s, before, me, what) {
      var k :| 0 <= k < |before| && Meets(Run(s, before[..k]), before[k], me, what);
      assert before[..k] == es[..k] && before[k] == es[k];
    }
  }

  ghost predicate MetTaken(s: State, es: seq<Event>, me: Owner, attempts: nat) {
    forall b: nat :: b < attempts ==> HasMet(s, es, me, Taken(b))
  }

  /** A contender has the attempts behind it, and the grounds of its refusal, to show for where it stands. */
  ghost predicate Accounted(s: State, es: seq<Event>, me: Owner, phase: Phase) {
    match phase
    case Publishing(a) => MetTaken(s, es, me, a)
    case Occupied(a) => MetTaken(s, es, me, a + 1)
    case Judging(a, _) => MetTaken(s, es, me, a + 1)
    case Stale(a, _) => MetTaken(s, es, me, a + 1)
    case Refused(AlreadyRunning) => HasMet(s, es, me, Living) || MetTaken(s, es, me, MAX_ACQUISITION_ATTEMPTS)
    case Refused(OwnershipInvalid) => HasMet(s, es, me, Bad)
    case Refused(Faulted) => HasMet(s, es, me, Gone)
    case _ => true
  }

  /**
   Whatever the others do, a contender that suffers no fault is refused as already running only after
   finding an owner alive or the path taken at each of eight attempts, as invalid only after reading
   a malformed record, and otherwise only because its lock was gone before its mode was set.
   */
  lemma {:induction false} RefusalsAreAccounted(s: State, es: seq<Event>, me: Owner)
    requires me in s.phases && s.phases[me] == Publishing(0) && Act(me, Fault) !in es
    ensures me in Run(s, es).phases && Accounted(s, es, me, Run(s, es).phases[me])
    ensures Run(s, es).phases[me].Publishing? ==> Run(s, es).phases[me].attempt < MAX_ACQUISITION_ATTEMPTS
  {
    if es != [] {
      var before, e := es[..|es| - 1], es[|es| - 1];
      assert es == before + [e] && e in es;
      RefusalsAreAccounted(s, before, me);
      forall what ensures HasMet(s, before, me, what) || Meets(Run(s, before), e, me, what) ==>
        HasMet(s, es, me, what) {
        HasMetSnoc(s, es, me, what);
      }
      hide HasMet;
      StepIsAccounted(s, before, e, me, es);
    }
  }

  lemma StepIsAccounted(s: State, before: seq<Event>, e: Event, me: Owner, es: seq<Event>)
    requires me in Run(s, before).phases && Accounted(s, before, me, Run(s, before).phases[me]) && e != Act(me, Fault)
    requires forall what :: HasMet(s, before, me, what) || Meets(Run(s, before), e, me, what) ==>
             HasMet(s, es, me, what)
    ensures me in Step(Run(s, before), e).phases && Accounted(s, es, me, Step(Run(s, before), e).phases[me])
  {
    hide Run, HasMet;
    var u := Run(s, before);
    if e.Act? && e.me == me && me.pid in u.alive && u.phases[me].Publishing? && e.verb.Link? && u.lock.Some? {
      assert Meets(u, e, me, Taken(u.phases[me].attempt));
    }
  }

  // ----- A contender on its own -------------------------------------------------------------------

  predicate Takeable(lock: Option<Content>, alive: set<nat>) {
    lock.None? || (lock.value.Record? && lock.value.owner.pid !in alive)
  }

  /** How an undisturbed acquisition stands, when `lock` was there at its start. */
  ghost predicate Undecided(lock: Option<Content>, alive: set<nat>, me: Owner, t: State) {
    && me in t.phases && t.alive == alive && me.pid in alive
    && match t.phases[me]
       case Publishing(a) => (a == 0 && t.lock == lock) || (a == 1 && t.lock.None? && Takeable(lock, alive))
       case Occupied(a) => a == 0 && t.lock == lock && lock.Some?
       case Judging(a, o) => a == 0 && t.lock == lock == Some(Record(o))
       case Stale(a, o) => a == 0 && t.lock == lock == Some(Record(o)) && o.pid !in alive
       case Linked => t.lock == Some(Record(me)) && Takeable(lock, alive)
       case Holding => t.lock == Some(Record(me)) && Takeable(lock, alive)
       case Refused(_) => !Takeable(lock, alive)
       case _ => true
  }

  lemma StaysUndecided(lock: Option<Content>, alive: set<nat>, me: Owner, t: State, verb: Verb)
    requires Undecided(lock, alive, me, t) && verb != Fault
    ensures Undecided(lock, alive, me, Step(t, Act(me, verb)))
  {}

  /**
   A contender that nobody disturbs ends up holding only a lock that was free or whose owner was dead,
   and refused only otherwise.
   */
  lemma {:induction false} AloneItIsDecided(s: State, es: seq<Event>, me: Owner)
    requires me in s.phases && s.phases[me] == Publishing(0) && me.pid in s.alive
    requires forall e :: e in es ==> e.Act? && e.me == me && e.verb != Fault
    ensures Undecided(s.lock, s.alive, me, Run(s, es))
  {
    if es != [] {
      var before, e := es[..|es| - 1], es[|es| - 1];
      assert es == before + [e] && e in es;
      AloneItIsDecided(s, before, me);
      StaysUndecided(s.lock, s.alive, me, Run(s, before), e.verb);
    }
  }

  // ----- The acquisition loop ---------------------------------------------------------------------

  /** `later` continues `earlier` by calls of `me`, without fault, and events of the others. */
  ghost predicate Continues(earlier: seq<Event>, later: seq<Event>, me: Owner, others: nat -> seq<Event>) {
    earlier <= later && forall k :: |earlier| <= k < |later| ==> OwnOrOthers(later[k], me, others)
  }

  ghost predicate OwnOrOthers(e: Event, me: Owner, others: nat -> seq<Event>) {
    (e.Act? && e.me == me && e.verb != Fault) || exists n :: e in others(n)
  }

  lemma ContinuesByCall(earlier: seq<Event>, later: seq<Event>, me: Owner, others: nat -> seq<Event>, verb: Verb)
    requires Continues(earlier, later, me, others) && verb != Fault
    ensures Continues(earlier, later + [Act(me, verb)], me, others)
  {
    assert OwnOrOthers(Act(me, verb), me, others);
  }

  lemma ContinuesByOthers(earlier: seq<Event>, later: seq<Event>, me: Owner, others: nat -> seq<Event>, n: nat)
    requires Continues(earlier, later, me, others)
    ensures Continues(earlier, later + others(n), me, others)
  {
    forall e | e in others(n) ensures OwnOrOthers(e, me, others) {}
  }

  /** What the new part of a history says of its outcome. */
  lemma AcquisitionIsAccounted(origin: State, earlier: seq<Event>, later: seq<Event>, me: Owner,
                               others: nat -> seq<Event>)
    requires Continues(earlier, later, me, others) && forall n, e :: e in others(n) ==> Foreign(e, me)
    requires
      var s := Run(origin, earlier);
      me in s.phases && s.phases[me] == Publishing(0) && me.pid in s.alive
    ensures
      var s, es := Run(origin, earlier), later[|earlier|..];
      && Run(origin, later) == Run(s, es) && me in Run(s, es).phases && Accounted(s, es, me, Run(s, es).phases[me])
      && ((forall n :: others(n) == []) ==> Undecided(s.lock, s.alive, me, Run(s, es)))
  {
    hide Step, Accounted, Undecided, Run;
    var s, es := Run(origin, earlier), later[|earlier|..];
    assert later == earlier + es;
    RunConcat(origin, earlier, es);
    forall e | e in es ensures OwnOrOthers(e, me, others) {
      var k :| 0 <= k < |es| && es[k] == e;
      assert later[|earlier| + k] == e;
    }
    assert !Foreign(Act(me, Fault), me);
    RefusalsAreAccounted(s, es, me);
    if forall n :: others(n) == [] { AloneItIsDecided(s, es, me); }
  }

  /** The record, the live processes and where each caller stands; `history` replays from `origin`. */
  class LockFile {
    var lock: Option<Content>
    var alive: set<nat>
    var phases: map<Owner, Phase>
    ghost const origin: State
    ghost var history: seq<Event>

    ghost function View(): State reads this { State(lock, alive, phases) }

    ghost predicate Valid() reads this { View() == Run(origin, history) }

    constructor (lock: Option<Content>, alive: set<nat>, contenders: set<Owner>)
      ensures Valid() && history == [] && origin == State(lock, alive, map me | me in contenders :: Publishing(0))
    {
      this.lock, this.alive, this.phases := lock, alive, map me | me in contenders :: Publishing(0);
      origin := State(lock, alive, map me | me in contenders :: Publishing(0));
      history := [];
    }

    ghost predicate At(me: Owner, phase: Phase) reads this { me in phases && phases[me] == phase && me.pid in alive }

    /** `link` of a fully written temporary file; false is `EEXIST`. */
    method LinkRecord(me: Owner, attempt: nat) returns (linked: bool)
      requires Valid() && At(me, Publishing(attempt))
      modifies this
      ensures Valid() && history == old(history) + [Act(me, Link)]
      ensures At(me, if linked then Linked else Occupied(attempt))
    {
      linked := lock.None?;
      phases := phases[me := if linked then Linked else Occupied(attempt)];
      if linked { lock := Some(Record(me)); }
      Then(origin, history, Act(me, Link));
      history := history + [Act(me, Link)];
    }

    method SetMode(me: Owner) returns (found: bool)
      requires Valid() && At(me, Linked)
      modifies this
      ensures Valid() && history == old(history) + [Act(me, Chmod)]
      ensures At(me, if found then Holding else Refused(Faulted))
    {
      found := lock.Some?;
      phases := phases[me := if found then Holding else Refused(Faulted)];
      Then(origin, history, Act(me, Chmod));
      history := history + [Act(me, Chmod)];
    }

    method ReadOwner(me: Owner, attempt: nat) returns (content: Option<Content>)
      requires Valid() && At(me, Occupied(attempt))
      modifies this
      ensures Valid() && history == old(history) + [Act(me, Read)] && content == lock
      ensures At(me, match content
                     case None => NextAttempt(attempt)
                     case Some(Malformed) => Refused(OwnershipInvalid)
                     case Some(Record(existing)) => Judging(attempt, existing))
    {
      content := lock;
      phases := phases[me := match content
                             case None => NextAttempt(attempt)
                             case Some(Malformed) => Refused(OwnershipInvalid)
                             case Some(Record(existing)) => Judging(attempt, existing)];
      Then(origin, history, Act(me, Read));
      history := history + [Act(me, Read)];
    }

    method IsProcessAlive(me: Owner, attempt: nat, existing: Owner) returns (living: bool)
      requires Valid() && At(me, Judging(attempt, existing))
      modifies this
      ensures Valid() && history == old(history) + [Act(me, Judge)]
      ensures At(me, if living then Refused(AlreadyRunning) else Stale(attempt, existing))
    {
      living := existing.pid in alive;
      phases := phases[me := if living then Refused(AlreadyRunning) else Stale(attempt, existing)];
      Then(origin, history, Act(me, Judge));
      history := history + [Act(me, Judge)];
    }

    /** `rename` to a fresh stale name; a lock already gone is not an error. */
    method MoveAside(me: Owner, attempt: nat, existing: Owner)
      requires Valid() && At(me, Stale(attempt, existing))
      modifies this
      ensures Valid() && history == old(history) + [Act(me, Rename)]
      ensures At(me, NextAttempt(attempt))
    {
      lock := None;
      phases := phases[me := NextAttempt(attempt)];
      Then(origin, history, Act(me, Rename));
      history := history + [Act(me, Rename)];
    }

    /** Whatever the other processes do between two calls of `me`. */
    method Interleave(me: Owner, es: seq<Event>)
      requires Valid() && me in phases && me.pid in alive && forall e :: e in es ==> Foreign(e, me)
      modifies this
      ensures Valid() && history == old(history) + es && At(me, old(phases[me]))
    {
      hide Run;
      var phase := phases[me];
      for i := 0 to |es|
        invariant Valid() && history == old(history) + es[..i] && At(me, phase)
      {
        var next := Step(State(lock, alive, phases), es[i]);
        assert es[i] in es && es[..i + 1] == es[..i] + [es[i]];
        Then(origin, history, es[i]);
        lock, alive, phases := next.lock, next.alive, next.phases;
        history := history + [es[i]];
      }
    }

    /** The first half of an attempt: publishing, with the others running before and after. */
    method Publish(me: Owner, attempt: nat, others: nat -> seq<Event>, ghost start: seq<Event>) returns (linked: bool)
      requires Valid() && At(me, Publishing(attempt)) && forall n, e :: e in others(n) ==> Foreign(e, me)
      requires Continues(start, history, me, others)
      modifies this
      ensures Valid() && Continues(start, history, me, others)
      ensures At(me, if linked then Linked else Occupied(attempt))
    {
      hide Run, Step, Valid, Foreign, Continues;
      ContinuesByOthers(start, history, me, others, 4 * attempt);
      Interleave(me, others(4 * attempt));
      ContinuesByCall(start, history, me, others, Link);
      linked := LinkRecord(me, attempt);
      ContinuesByOthers(start, history, me, others, 4 * attempt + 1);
      Interleave(me, others(4 * attempt + 1));
    }

    /** The second half where the path was taken: reading, judging and, if its owner is dead, moving it aside. */
    method Inspect(me: Owner, attempt: nat, others: nat -> seq<Event>, ghost start: seq<Event>) returns (refused: bool)
      requires Valid() && At(me, Occupied(attempt)) && forall n, e :: e in others(n) ==> Foreign(e, me)
      requires Continues(start, history, me, others)
      modifies this
      ensures Valid() && Continues(start, history, me, others)
      ensures if refused then me in phases && phases[me].Refused? else At(me, NextAttempt(attempt))
    {
      hide Run, Step, Valid, Foreign, NextAttempt, Continues;
      ContinuesByCall(start, history, me, others, Read);
      var content := ReadOwner(me, attempt);
      if content.None? { return false; }
      if content.value.Malformed? { return true; }
      refused := JudgeAndMove(me, attempt, content.value.owner, others, start);
    }

    method JudgeAndMove(me: Owner, attempt: nat, existing: Owner, others: nat -> seq<Event>, ghost start: seq<Event>)
      returns (living: bool)
      requires Valid() && At(me, Judging(attempt, existing)) && forall n, e :: e in others(n) ==> Foreign(e, me)
      requires Continues(start, history, me, others)
      modifies this
      ensures Valid() && Continues(start, history, me, others)
      ensures if living then me in phases && phases[me].Refused? else At(me, NextAttempt(attempt))
    {
      hide Run, Step, Valid, Foreign, NextAttempt, Continues;
      ContinuesByOthers(start, history, me, others, 4 * attempt + 2);
      Interleave(me, others(4 * attempt + 2));
      ContinuesByCall(start, history, me, others, Judge);
      living := IsProcessAlive(me, attempt, existing);
      if living { return; }
      ContinuesByOthers(start, history, me, others, 4 * attempt + 3);
      Interleave(me, others(4 * attempt + 3));
      ContinuesByCall(start, history, me, others, Rename);
      MoveAside(me, attempt, existing);
    }

    /**
     The acquisition loop, with `others(n)` running before its n-th system call. The whole is one run
     of the protocol in which the caller suffers no fault; it ends with the lock held, or refused on
     grounds the run shows; and undisturbed it is held exactly when it was free or its owner dead.
     */
    method AcquireDaemonOwnership(me: Owner, others: nat -> seq<Event>) returns (owned: bool)
      requires Valid() && At(me, Publishing(0)) && forall n, e :: e in others(n) ==> Foreign(e, me)
      modifies this
      ensures Valid() && Continues(old(history), history, me, others)
      ensures owned ==> At(me, Holding)
      ensures !owned ==>
        && me in phases && phases[me].Refused?
        && Accounted(old(View()), history[|old(history)|..], me, phases[me])
      ensures (forall n :: others(n) == []) ==> (owned <==> Takeable(old(lock), old(alive)))
      ensures owned && Safe(origin) && TakeoversAreAtomic(origin, history) ==>
                lock == Some(Record(me)) && forall other :: LiveOwner(View(), other) ==> other == me
    {
      ghost var start, before := history, View();
      assert before == Run(origin, start);
      hide Run, Step, Safe, TakeoversAreAtomic, LiveOwner, Valid, Foreign, Continues, Takeable;
      NothingNew(start, me, others);
      owned := false;
      var attempt := 0;
      while attempt < MAX_ACQUISITION_ATTEMPTS
        invariant attempt <= MAX_ACQUISITION_ATTEMPTS && Valid() && Continues(start, history, me, others)
        invariant At(me, if attempt < MAX_ACQUISITION_ATTEMPTS then Publishing(attempt) else Refused(AlreadyRunning))
      {
        var linked := Publish(me, attempt, others, start);
        if linked {
          ContinuesByCall(start, history, me, others, Chmod);
          owned := SetMode(me);
          if owned { Excludes(me); }
          Account(me, others, start);
          return;
        }
        var refused := Inspect(me, attempt, others, start);
        if refused {
          Account(me, others, start);
          return;
        }
        attempt := attempt + 1;
      }
      Account(me, others, start);
    }

    lemma NothingNew(start: seq<Event>, me: Owner, others: nat -> seq<Event>)
      ensures Continues(start, start, me, others)
    {}

    lemma Account(me: Owner, others: nat -> seq<Event>, start: seq<Event>)
      requires Valid() && Continues(start, history, me, others) && forall n, e :: e in others(n) ==> Foreign(e, me)
      requires var s := Run(origin, start); me in s.phases && s.phases[me] == Publishing(0) && me.pid in s.alive
      requires me in phases && (phases[me].Holding? || phases[me].Refused?)
      ensures start <= history && Accounted(Run(origin, start), history[|start|..], me, phases[me])
      ensures (forall n :: others(n) == []) ==>
              (phases[me].Holding? <==> Takeable(Run(origin, start).lock, Run(origin, start).alive))
    {
      hide Accounted, Run, Takeable, Foreign;
      AcquisitionIsAccounted(origin, start, history, me, others);
    }

    lemma Excludes(me: Owner)
      requires Valid() && me in phases && me.pid in alive
      ensures phases[me].Holding? && Safe(origin) && TakeoversAreAtomic(origin, history) ==>
                lock == Some(Record(me)) && forall other :: LiveOwner(View(), other) ==> other == me
    {
      if phases[me].Holding? && Safe(origin) && TakeoversAreAtomic(origin, history) {
        OneLiveOwner(origin, history, me, me);
        forall other | LiveOwner(View(), other) ensures other == me { OneLiveOwner(origin, history, me, other); }
      }
    }

    /** Reads the record again, and unlinks it only if it is still this process's own. */
    method ReleaseDaemonOwnership(me: Owner, others: seq<Event>)
      requires Valid() && At(me, Holding) && forall e :: e in others ==> Foreign(e, me)
      modifies this
      ensures Valid() && At(me, Released)
      ensures old(lock) == Some(Record(me)) ==>
              lock.None? && history == old(history) + [Act(me, Recheck)] + others + [Act(me, Unlink)]
      ensures old(lock) != Some(Record(me)) ==> lock == old(lock) && history == old(history) + [Act(me, Recheck)]
    {
      hide Run;
      var own := lock == Some(Record(me));
      phases := phases[me := if own then Unlinking else Released];
      Then(origin, history, Act(me, Recheck));
      history := history + [Act(me, Recheck)];
      if own {
        Interleave(me, others);
        lock, phases := None, phases[me := Released];
        Then(origin, history, Act(me, Unlink));
        history := history + [Act(me, Unlink)];
      }
    }
  }
}
