/**
 The half of the client engine that issues requests: the pending table, the tombstones kept for
 late answers, and the timers and abort listeners whose callbacks capture a bare identifier.

 A request's serial is the identity of its JavaScript closure set; its identifier may be reused
 once it has left both tables.
 */
module Outbound {
  import opened Common
  import opened Tables

  const MAX_LATE_RESPONSE_IDS: nat := 1024

  datatype Request = Request(id: string, verb: string, abortable: bool)

  datatype Reason = RpcError | RequestCancelled | RequestTimeout | ConnectionLost | ProtocolViolated
  datatype Outcome = Resolved | Rejected(reason: Reason)
  datatype Settlement = Settlement(serial: nat, outcome: Outcome)
  datatype Frame = RequestFrame(serial: nat) | CancelFrame(id: string)

  /**
   `issued`, `settlements`, `frames`, `answered` and `forgotten` record what the engine has done to
   its callers and to the peer; the rest are the fields of the engine.
   */
  datatype State = State(
    pending: seq<Slot<string>>,
    late: seq<Slot<string>>,
    timers: set<nat>,
    graces: set<nat>,
    issued: seq<Request>,
    settlements: seq<Settlement>,
    frames: seq<Frame>,
    answered: set<nat>,
    forgotten: set<nat>)

  const EMPTY := State([], [], {}, {}, [], [], [], {}, {})

  // ----- The engine's operations ------------------------------------------------------------------

  function Settle(s: State, serial: nat, outcome: Outcome): State {
    s.(settlements := s.settlements + [Settlement(serial, outcome)])
  }

  /** Removes the entry and disarms its timer and its abort listener. */
  function TakePending(s: State, id: string): State
    requires Has(s.pending, id)
  {
    s.(pending := Remove(s.pending, id), timers := s.timers - {Find(s.pending, id).serial})
  }

  function ForgetLate(s: State, id: string): State {
    if !Has(s.late, id) then s
    else s.(late := Remove(s.late, id), graces := s.graces - {Find(s.late, id).serial})
  }

  function EvictLate(s: State): State {
    if |s.late| < MAX_LATE_RESPONSE_IDS then s
    else ForgetLate(s, s.late[0].id).(forgotten := s.forgotten + {s.late[0].serial})
  }

  function RememberLate(s: State, id: string, serial: nat, verb: string): State {
    var room := EvictLate(s);
    room.(late := Put(room.late, Slot(id, serial, verb)), graces := room.graces + {serial})
  }

  /** A fresh identifier, the pending entry, and either the frame or an abort already requested. */
  function Issue(s: State, r: Request, abortedMeanwhile: bool, open: bool): State {
    var serial := |s.issued|;
    var entered := s.(pending := Put(s.pending, Slot(r.id, serial, r.verb)), timers := s.timers + {serial},
                      issued := s.issued + [r]);
    if abortedMeanwhile then Interrupt(entered, serial, RequestCancelled, open)
    else entered.(frames := s.frames + [RequestFrame(serial)])
  }

  /** The body shared by the timeout and abort callbacks of request `serial`. */
  function Interrupt(s: State, serial: nat, reason: Reason, open: bool): State
    requires serial < |s.issued|
  {
    var r := s.issued[serial];
    if !Has(s.pending, r.id) then s
    else
      var late := RememberLate(TakePending(s, r.id), r.id, serial, r.verb);
      Settle(late.(frames := if open then s.frames + [CancelFrame(r.id)] else s.frames), serial, Rejected(reason))
  }

  /** A callback still armed fires; one that was cleared never does. */
  function Fire(s: State, serial: nat, reason: Reason, open: bool): State {
    if serial < |s.issued| && serial in s.timers && (reason == RequestCancelled ==> s.issued[serial].abortable)
    then Interrupt(s, serial, reason, open) else s
  }

  function ExpireGrace(s: State, serial: nat): State {
    if serial < |s.issued| && serial in s.graces && Has(s.late, s.issued[serial].id) then
      s.(late := Remove(s.late, s.issued[serial].id), graces := s.graces - {serial},
         forgotten := s.forgotten + {serial})
    else s
  }

  /** What a well-formed response carries: an error, or a result valid for some methods. */
  datatype Payload = ErrorPayload | ResultPayload(validFor: set<string>)

  predicate Acceptable(verb: string, payload: Payload) {
    payload.ErrorPayload? || verb in payload.validFor
  }

  /** `None` is a protocol violation. */
  function Respond(s: State, id: string, payload: Payload): Option<State> {
    if Has(s.pending, id) then
      var slot := Find(s.pending, id);
      if !Acceptable(slot.data, payload) then None
      else
        var taken := TakePending(s, id);
        Some(Settle(taken.(answered := s.answered + {slot.serial}), slot.serial,
                    if payload.ErrorPayload? then Rejected(RpcError) else Resolved))
    else if Has(s.late, id) && Acceptable(Find(s.late, id).data, payload) then
      Some(ForgetLate(s, id).(answered := s.answered + {Find(s.late, id).serial}))
    else None
  }

  function RejectAll(s: State, reason: Reason): State
    decreases |s.pending|
  {
    if s.pending == [] then s
    else
      var slot := s.pending[0];
      var taken := s.(pending := s.pending[1..], timers := s.timers - {slot.serial},
                      forgotten := s.forgotten + {slot.serial});
      RejectAll(Settle(taken, slot.serial, Rejected(reason)), reason)
  }

  function ClearLate(s: State): State {
    s.(late := [], graces := s.graces - SerialSet(s.late), forgotten := s.forgotten + SerialSet(s.late))
  }

  // ----- What every operation keeps ---------------------------------------------------------------

  ghost function Ids(issued: seq<Request>): seq<string> { seq(|issued|, i requires 0 <= i < |issued| => issued[i].id) }

  ghost predicate Backed(t: seq<Slot<string>>, issued: seq<Request>) {
    UniqueIds(t) && Issued(t, Ids(issued)) && forall i :: 0 <= i < |t| ==> t[i].data == issued[t[i].serial].verb
  }

  ghost function Settled(ss: seq<Settlement>): set<nat> { set i | 0 <= i < |ss| :: ss[i].serial }

  ghost predicate Once(ss: seq<Settlement>) {
    forall i, j :: 0 <= i < j < |ss| ==> ss[i].serial != ss[j].serial
  }

  /** The four sets share out the requests 0..n. */
  ghost predicate Share4(n: nat, a: set<nat>, b: set<nat>, c: set<nat>, d: set<nat>) {
    && a !! b && a !! c && a !! d && b !! c && b !! d && c !! d
    && forall k: nat :: k < n <==> k in a || k in b || k in c || k in d
  }

  ghost predicate Share2(n: nat, a: set<nat>, b: set<nat>) {
    a !! b && forall k: nat :: k < n <==> k in a || k in b
  }

  /** Every request issued is waiting, tombstoned, answered or forgotten, and only one of these. */
  ghost predicate Fates(s: State) {
    Share4(|s.issued|, Serials(s.pending), Serials(s.late), s.answered, s.forgotten)
  }

  /** Every request issued is either waiting or settled, and settled once. */
  ghost predicate SettledOnce(s: State) {
    Once(s.settlements) && Share2(|s.issued|, Serials(s.pending), Settled(s.settlements))
  }

  ghost predicate Inv(s: State) {
    && Backed(s.pending, s.issued) && Backed(s.late, s.issued) && Apart(s.pending, s.late)
    && s.timers == Serials(s.pending) && s.graces == Serials(s.late)
    && |s.late| <= MAX_LATE_RESPONSE_IDS
    && Fates(s) && SettledOnce(s)
  }

  lemma RemoveKeepsBacked(t: seq<Slot<string>>, issued: seq<Request>, id: string)
    requires Backed(t, issued) && Has(t, id)
    ensures Backed(Remove(t, id), issued) && !Has(Remove(t, id), id)
    ensures Serials(Remove(t, id)) == Serials(t) - {Find(t, id).serial}
    ensures |Remove(t, id)| == |t| - 1
    ensures Find(t, id).serial in Serials(t) && Find(t, id).serial < |issued| && issued[Find(t, id).serial].id == id
    ensures Find(t, id).data == issued[Find(t, id).serial].verb
  {
    RemoveKeepsOthers(t, id);
    RemoveDropsSerial(t, Ids(issued), id);
    var r := Remove(t, id);
    forall i | 0 <= i < |r| ensures r[i].data == issued[r[i].serial].verb { assert r[i] in r && r[i] in t; }
    var f := Find(t, id);
    var k :| 0 <= k < |t| && t[k] == f;
  }

  lemma LiveSerialIsHeld(t: seq<Slot<string>>, issued: seq<Request>, serial: nat)
    requires Backed(t, issued) && serial in Serials(t)
    ensures serial < |issued| && Has(t, issued[serial].id) && Find(t, issued[serial].id).serial == serial
  {}

  lemma ShareMoves(n: nat, a: set<nat>, b: set<nat>, c: set<nat>, d: set<nat>, x: nat)
    requires Share4(n, a, b, c, d)
    ensures x in a ==>
      && Share4(n, a - {x}, b + {x}, c, d) && Share4(n, a - {x}, b, c + {x}, d) && Share4(n, a - {x}, b, c, d + {x})
    ensures x in b ==> Share4(n, a, b - {x}, c + {x}, d) && Share4(n, a, b - {x}, c, d + {x})
    ensures x == n ==> Share4(n + 1, a + {x}, b, c, d)
  {}

  lemma ShareMoves2(n: nat, a: set<nat>, b: set<nat>, x: nat)
    requires Share2(n, a, b)
    ensures x in a ==> Share2(n, a - {x}, b + {x})
    ensures x == n ==> Share2(n + 1, a + {x}, b)
  {}

  lemma SettledGrows(ss: seq<Settlement>, x: Settlement)
    requires Once(ss) && x.serial !in Settled(ss)
    ensures Once(ss + [x]) && Settled(ss + [x]) == Settled(ss) + {x.serial}
  {
    var r := ss + [x];
    assert r[|ss|] == x;
    forall n | n in Settled(ss) ensures n in Settled(r) {
      var i :| 0 <= i < |ss| && ss[i].serial == n;
      assert r[i].serial == n;
    }
  }

  lemma LateShrinksApart(s: State, id: string)
    requires UniqueIds(s.late) && Apart(s.pending, s.late)
    ensures Apart(s.pending, Remove(s.late, id))
  {
    ApartSwaps(s.pending, s.late);
    ApartShrinks(s.late, s.pending, id);
    ApartSwaps(Remove(s.late, id), s.pending);
  }

  lemma EvictKeepsInv(s: State)
    requires Inv(s)
    ensures Inv(EvictLate(s)) && |EvictLate(s).late| < MAX_LATE_RESPONSE_IDS
    ensures EvictLate(s).(late := s.late, graces := s.graces, forgotten := s.forgotten) == s
  {}

  /** The entry leaves the pending table for a tombstone and its caller is told why. */
  ghost function Moved(s: State, id: string, outcome: Outcome): State
    requires Has(s.pending, id)
  {
    var slot := Find(s.pending, id);
    Settle(TakePending(s, id), slot.serial, outcome)
      .(late := s.late + [slot], graces := s.graces + {slot.serial})
  }

  lemma MovedKeepsInv(s: State, id: string, outcome: Outcome)
    requires Inv(s) && |s.late| < MAX_LATE_RESPONSE_IDS && Has(s.pending, id)
    ensures Inv(Moved(s, id, outcome)) && !Has(s.late, id)
  {
    var slot, m := Find(s.pending, id), Moved(s, id, outcome);
    var k :| 0 <= k < |s.pending| && s.pending[k] == slot;
    assert !Has(s.late, id);
    RemoveKeepsBacked(s.pending, s.issued, id);
    RemoveKeepsOthers(s.pending, id);
    AppendSerial(s.late, Ids(s.issued), slot);
    SettledGrows(s.settlements, Settlement(slot.serial, outcome));
    ShareMoves(|s.issued|, Serials(s.pending), Serials(s.late), s.answered, s.forgotten, slot.serial);
    ShareMoves2(|s.issued|, Serials(s.pending), Settled(s.settlements), slot.serial);
    ApartShrinks(s.pending, s.late, id);
    ApartSwaps(m.pending, s.late);
    ApartGrows(s.late, m.pending, slot);
    ApartSwaps(m.late, m.pending);
  }

  lemma InterruptIsMove(s: State, serial: nat, reason: Reason, open: bool)
    requires Inv(s) && serial in s.timers
    ensures serial < |s.issued| && Has(s.pending, s.issued[serial].id)
    ensures var e := EvictLate(s); var id := s.issued[serial].id;
      && Has(e.pending, id) && Find(e.pending, id).serial == serial
      && Interrupt(s, serial, reason, open)
         == Moved(e, id, Rejected(reason)).(frames := if open then s.frames + [CancelFrame(id)] else s.frames)
  {
    LiveSerialIsHeld(s.pending, s.issued, serial);
    var id := s.issued[serial].id;
    EvictKeepsInv(s);
    var e := EvictLate(s);
    MovedKeepsInv(e, id, Rejected(reason));
    RemoveKeepsBacked(s.pending, s.issued, id);
    PutAppends(e.late, Slot(id, serial, s.issued[serial].verb));
    var taken := TakePending(s, id);
    assert EvictLate(taken) == e.(pending := taken.pending, timers := taken.timers);
    assert Find(s.pending, id) == Slot(id, serial, s.issued[serial].verb);
  }

  lemma FireKeepsInv(s: State, serial: nat, reason: Reason, open: bool)
    requires Inv(s)
    ensures Inv(Fire(s, serial, reason, open))
  {
    if Fire(s, serial, reason, open) != s {
      InterruptIsMove(s, serial, reason, open);
      EvictKeepsInv(s);
      MovedKeepsInv(EvictLate(s), s.issued[serial].id, Rejected(reason));
    }
  }

  lemma IssuedGrows(t: seq<Slot<string>>, issued: seq<Request>, r: Request)
    requires Backed(t, issued)
    ensures Backed(t, issued + [r]) && forall n :: n in Serials(t) ==> n < |issued|
  {}

  lemma IssueKeepsInv(s: State, r: Request, abortedMeanwhile: bool, open: bool)
    requires Inv(s) && !Has(s.pending, r.id) && !Has(s.late, r.id)
    ensures Inv(Issue(s, r, abortedMeanwhile, open))
  {
    var serial := |s.issued|;
    var slot := Slot(r.id, serial, r.verb);
    IssuedGrows(s.pending, s.issued, r);
    IssuedGrows(s.late, s.issued, r);
    PutAppends(s.pending, slot);
    AppendSerial(s.pending, Ids(s.issued + [r]), slot);
    var entered := s.(pending := s.pending + [slot], timers := s.timers + {serial}, issued := s.issued + [r]);
    ShareMoves(|s.issued|, Serials(s.pending), Serials(s.late), s.answered, s.forgotten, serial);
    ShareMoves2(|s.issued|, Serials(s.pending), Settled(s.settlements), serial);
    assert Backed(entered.pending, entered.issued);
    ApartGrows(s.pending, s.late, slot);
    assert Inv(entered);
    InterruptIsMove(entered, serial, RequestCancelled, open);
    EvictKeepsInv(entered);
    MovedKeepsInv(EvictLate(entered), r.id, Rejected(RequestCancelled));
  }

  lemma LateLeavesKeepsInv(s: State, id: string, answer: bool)
    requires Inv(s) && Has(s.late, id)
    ensures var n := Find(s.late, id).serial;
      var rest := s.(late := Remove(s.late, id), graces := s.graces - {n});
      Inv(if answer then rest.(answered := s.answered + {n}) else rest.(forgotten := s.forgotten + {n}))
  {
    RemoveKeepsBacked(s.late, s.issued, id);
    RemoveKeepsOthers(s.late, id);
    ShareMoves(|s.issued|, Serials(s.pending), Serials(s.late), s.answered, s.forgotten, Find(s.late, id).serial);
    LateShrinksApart(s, id);
  }

  lemma ExpireKeepsInv(s: State, serial: nat)
    requires Inv(s)
    ensures Inv(ExpireGrace(s, serial))
  {
    if serial in s.graces {
      LiveSerialIsHeld(s.late, s.issued, serial);
      LateLeavesKeepsInv(s, s.issued[serial].id, false);
    }
  }

  lemma PendingLeavesKeepsInv(s: State, id: string, outcome: Outcome, answer: bool)
    requires Inv(s) && Has(s.pending, id)
    ensures var n := Find(s.pending, id).serial;
      var rest := Settle(TakePending(s, id), n, outcome);
      Inv(if answer then rest.(answered := s.answered + {n}) else rest.(forgotten := s.forgotten + {n}))
  {
    RemoveKeepsBacked(s.pending, s.issued, id);
    RemoveKeepsOthers(s.pending, id);
    SettledGrows(s.settlements, Settlement(Find(s.pending, id).serial, outcome));
    ShareMoves(|s.issued|, Serials(s.pending), Serials(s.late), s.answered, s.forgotten, Find(s.pending, id).serial);
    ShareMoves2(|s.issued|, Serials(s.pending), Settled(s.settlements), Find(s.pending, id).serial);
    ApartShrinks(s.pending, s.late, id);
  }

  lemma RespondKeepsInv(s: State, id: string, payload: Payload)
    requires Inv(s)
    ensures Respond(s, id, payload).Some? ==> Inv(Respond(s, id, payload).value)
  {
    if Has(s.pending, id) {
      PendingLeavesKeepsInv(s, id, if payload.ErrorPayload? then Rejected(RpcError) else Resolved, true);
    } else if Has(s.late, id) {
      LateLeavesKeepsInv(s, id, true);
    }
  }

  lemma {:induction false} RejectAllKeepsInv(s: State, reason: Reason)
    requires Inv(s)
    ensures var r := RejectAll(s, reason);
      Inv(r) && r.pending == [] && r.late == s.late && r.issued == s.issued && r.answered == s.answered
      && |r.settlements| == |s.settlements| + |s.pending| && s.settlements <= r.settlements
      && forall i :: |s.settlements| <= i < |r.settlements| ==> r.settlements[i].outcome == Rejected(reason)
    decreases |s.pending|
  {
    if s.pending != [] {
      var slot := s.pending[0];
      PendingLeavesKeepsInv(s, slot.id, Rejected(reason), false);
      var taken := s.(pending := s.pending[1..], timers := s.timers - {slot.serial},
                      forgotten := s.forgotten + {slot.serial});
      RejectAllKeepsInv(Settle(taken, slot.serial, Rejected(reason)), reason);
    }
  }

  lemma ClearLateKeepsInv(s: State)
    requires Inv(s)
    ensures Inv(ClearLate(s))
  {}
}
