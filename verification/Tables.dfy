/** Insertion-ordered tables keyed by request identifier, as a JavaScript `Map` keeps them. */
module Tables {

  /** One table entry. `serial` is the identity of the object stored under `id`. */
  datatype Slot<T> = Slot(id: string, serial: nat, data: T)

  predicate Has<T>(t: seq<Slot<T>>, id: string) {
    exists i :: 0 <= i < |t| && t[i].id == id
  }

  function Find<T>(t: seq<Slot<T>>, id: string): (s: Slot<T>)
    requires Has(t, id)
    ensures s in t && s.id == id
  {
    if t[0].id == id then t[0] else Find(t[1..], id)
  }

  /** `Map.delete`: the other entries keep their order. */
  function Remove<T>(t: seq<Slot<T>>, id: string): seq<Slot<T>> {
    if t == [] then [] else if t[0].id == id then t[1..] else [t[0]] + Remove(t[1..], id)
  }

  /** `Map.set`: a key already present keeps its position. */
  function Put<T>(t: seq<Slot<T>>, s: Slot<T>): seq<Slot<T>> {
    if t == [] then [s] else if t[0].id == s.id then [s] + t[1..] else [t[0]] + Put(t[1..], s)
  }

  ghost predicate UniqueIds<T>(t: seq<Slot<T>>) {
    forall i, j :: 0 <= i < j < |t| ==> t[i].id != t[j].id
  }

  ghost function Serials<T>(t: seq<Slot<T>>): set<nat> {
    set i | 0 <= i < |t| :: t[i].serial
  }

  function SerialSet<T>(t: seq<Slot<T>>): (r: set<nat>)
    ensures r == Serials(t)
  {
    set i | 0 <= i < |t| :: t[i].serial
  }

  /** Every entry carries the identity of a request issued under that very identifier. */
  ghost predicate Issued<T>(t: seq<Slot<T>>, ids: seq<string>) {
    forall i :: 0 <= i < |t| ==> t[i].serial < |ids| && ids[t[i].serial] == t[i].id
  }

  lemma {:induction false} RemoveKeepsOthers<T>(t: seq<Slot<T>>, id: string)
    requires UniqueIds(t)
    ensures UniqueIds(Remove(t, id)) && !Has(Remove(t, id), id)
    ensures forall s :: s in Remove(t, id) ==> s in t && s.id != id
    ensures forall s :: s in t && s.id != id ==> s in Remove(t, id)
    ensures |Remove(t, id)| == if Has(t, id) then |t| - 1 else |t|
  {
    if t != [] {
      if t[0].id == id {
        forall s | s in t && s.id != id ensures s in t[1..] {}
      } else {
        RemoveKeepsOthers(t[1..], id);
        assert Has(t, id) <==> Has(t[1..], id) by {
          if Has(t, id) { var i :| 0 <= i < |t| && t[i].id == id; assert t[1..][i - 1].id == id; }
        }
        assert t == [t[0]] + t[1..];
        var rest := Remove(t[1..], id);
        forall i | 0 <= i < |rest| ensures rest[i] in t[1..] { assert rest[i] in rest; }
      }
    }
  }

  lemma {:induction false} PutAppends<T>(t: seq<Slot<T>>, s: Slot<T>)
    requires !Has(t, s.id)
    ensures Put(t, s) == t + [s]
  {
    if t != [] {
      assert t[0].id != s.id;
      assert !Has(t[1..], s.id) by { assert forall i :: 0 <= i < |t[1..]| ==> t[1..][i] == t[i + 1]; }
      PutAppends(t[1..], s);
    }
  }

  lemma RemoveDropsSerial<T>(t: seq<Slot<T>>, ids: seq<string>, id: string)
    requires UniqueIds(t) && Issued(t, ids) && Has(t, id)
    ensures Issued(Remove(t, id), ids)
    ensures Serials(Remove(t, id)) == Serials(t) - {Find(t, id).serial}
  {
    RemoveKeepsOthers(t, id);
    var r := Remove(t, id);
    forall i | 0 <= i < |r| ensures r[i].serial < |ids| && ids[r[i].serial] == r[i].id {
      assert r[i] in r && r[i] in t;
    }
    forall n | n in Serials(r) ensures n in Serials(t) && n != Find(t, id).serial {
      var i :| 0 <= i < |r| && r[i].serial == n;
      assert r[i] in r && r[i] in t;
    }
    forall n | n in Serials(t) && n != Find(t, id).serial ensures n in Serials(r) {
      var i :| 0 <= i < |t| && t[i].serial == n;
      if t[i].id == id { SameIdSameSlot(t, t[i], Find(t, id)); }
      assert t[i] in r;
    }
  }

  lemma SameIdSameSlot<T>(t: seq<Slot<T>>, a: Slot<T>, b: Slot<T>)
    requires UniqueIds(t) && a in t && b in t && a.id == b.id
    ensures a == b
  {}

  lemma {:induction false} SerialsCount<T>(t: seq<Slot<T>>, ids: seq<string>)
    requires UniqueIds(t) && Issued(t, ids)
    ensures |Serials(t)| == |t|
  {
    if t != [] {
      SerialsCount(t[1..], ids);
      assert Serials(t) == {t[0].serial} + Serials(t[1..]) by {
        assert t == [t[0]] + t[1..];
        forall n | n in Serials(t) ensures n in {t[0].serial} + Serials(t[1..]) {
          var i :| 0 <= i < |t| && t[i].serial == n;
          if i > 0 { assert t[1..][i - 1].serial == n; }
        }
      }
      assert t[0].serial !in Serials(t[1..]);
    }
  }

  lemma AppendSerial<T>(t: seq<Slot<T>>, ids: seq<string>, s: Slot<T>)
    requires UniqueIds(t) && Issued(t, ids) && !Has(t, s.id)
    requires s.serial < |ids| && ids[s.serial] == s.id
    ensures UniqueIds(t + [s]) && Issued(t + [s], ids)
    ensures Serials(t + [s]) == Serials(t) + {s.serial}
  {
    var r := t + [s];
    assert r[|t|] == s;
    forall n | n in Serials(t) ensures n in Serials(r) {
      var i :| 0 <= i < |t| && t[i].serial == n;
      assert r[i].serial == n;
    }
  }

  /** No identifier is in both tables. */
  ghost predicate Apart<A, B>(a: seq<Slot<A>>, b: seq<Slot<B>>) {
    forall i, j :: 0 <= i < |a| && 0 <= j < |b| ==> a[i].id != b[j].id
  }

  lemma ApartGrows<A, B>(a: seq<Slot<A>>, b: seq<Slot<B>>, s: Slot<A>)
    requires Apart(a, b) && !Has(b, s.id)
    ensures Apart(a + [s], b)
  {
    forall i, j | 0 <= i < |a + [s]| && 0 <= j < |b| ensures (a + [s])[i].id != b[j].id {
      assert i == |a| ==> (a + [s])[i] == s;
    }
  }

  lemma ApartShrinks<A, B>(a: seq<Slot<A>>, b: seq<Slot<B>>, id: string)
    requires UniqueIds(a) && Apart(a, b)
    ensures Apart(Remove(a, id), b)
    ensures Has(a, id) ==> !Has(b, id)
  {
    RemoveKeepsOthers(a, id);
    var r := Remove(a, id);
    forall i, j | 0 <= i < |r| && 0 <= j < |b| ensures r[i].id != b[j].id {
      assert r[i] in r && r[i] in a;
    }
  }

  lemma ApartSwaps<A, B>(a: seq<Slot<A>>, b: seq<Slot<B>>)
    requires Apart(a, b)
    ensures Apart(b, a)
  {}

  lemma SerialsPrefix<T>(t: seq<Slot<T>>, i: nat)
    requires i < |t|
    ensures Serials(t[..i + 1]) == Serials(t[..i]) + {t[i].serial}
  {
    var r := t[..i + 1];
    assert r[i] == t[i];
    forall n | n in Serials(t[..i]) ensures n in Serials(r) {
      var k :| 0 <= k < i && t[..i][k].serial == n;
      assert r[k].serial == n;
    }
    forall n | n in Serials(r) && n != t[i].serial ensures n in Serials(t[..i]) {
      var k :| 0 <= k < i + 1 && r[k].serial == n;
      assert t[..i][k].serial == n;
    }
  }
}
