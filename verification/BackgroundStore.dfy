/**
 Saving and loading the background state: what is saved is accepted, and what is reloaded after
 a crash has no active task and one "finished" notice for each task that was active.
 */
module BackgroundStore {
  import opened Background

  // ----- How many events a set of tasks can have

  function CountIn(ids: set<string>, events: seq<Event>): nat {
    if events == [] then 0 else (if events[0].taskId in ids then 1 else 0) + CountIn(ids, events[1..])
  }

  /** Task ids, within `ids`, of the events of one kind. */
  ghost function IdsOf(kind: EventKind, ids: set<string>, events: seq<Event>): seq<string> {
    if events == [] then []
    else if events[0].kind == kind && events[0].taskId in ids then [events[0].taskId] + IdsOf(kind, ids, events[1..])
    else IdsOf(kind, ids, events[1..])
  }

  ghost predicate Distinct(ids: seq<string>) {
    ids == [] || (ids[0] !in ids[1..] && Distinct(ids[1..]))
  }

  ghost predicate Named(events: seq<Event>) {
    forall i :: 0 <= i < |events| ==> events[i].eventId == EventId(events[i].taskId, events[i].kind)
  }

  lemma {:induction false} DistinctWithin(ids: seq<string>, keys: set<string>)
    requires Distinct(ids) && forall id :: id in ids ==> id in keys
    ensures |ids| <= |keys|
  {
    if ids != [] {
      assert ids[0] in keys && forall id :: id in ids[1..] ==> id in keys - {ids[0]};
      DistinctWithin(ids[1..], keys - {ids[0]});
    }
  }

  lemma {:induction false} IdsOfDistinct(kind: EventKind, ids: set<string>, events: seq<Event>)
    requires DistinctIds(events) && Named(events)
    ensures Distinct(IdsOf(kind, ids, events))
    ensures forall id :: id in IdsOf(kind, ids, events) ==>
              id in ids && exists i :: 0 <= i < |events| && events[i].taskId == id && events[i].kind == kind
  {
    if events != [] {
      var rest := events[1..];
      assert DistinctIds(rest) && Named(rest) by {
        forall i | 0 <= i < |rest| ensures rest[i] == events[i + 1] {}
      }
      IdsOfDistinct(kind, ids, rest);
      var tail := IdsOf(kind, ids, rest);
      forall id | id in tail ensures exists i :: 0 <= i < |events| && events[i].taskId == id && events[i].kind == kind {
        var i :| 0 <= i < |rest| && rest[i].taskId == id && rest[i].kind == kind;
        assert events[i + 1] == rest[i];
      }
      assert events[0].kind == kind ==> events[0].taskId !in tail by {
        forall i | 0 <= i < |rest| && rest[i].kind == kind
          ensures events[0].kind == kind ==> rest[i].taskId != events[0].taskId
        {
          assert events[i + 1] == rest[i];
        }
      }
    }
  }

  lemma {:induction false} CountByKind(ids: set<string>, events: seq<Event>)
    ensures CountIn(ids, events) == |IdsOf(Finished, ids, events)| + |IdsOf(InteractiveInput, ids, events)|
  {
    if events != [] { CountByKind(ids, events[1..]); }
  }

  /** Two kinds of event, each pending at most once per task. */
  lemma CountInBound(ids: set<string>, events: seq<Event>)
    requires DistinctIds(events) && Named(events)
    ensures CountIn(ids, events) <= 2 * |ids|
  {
    CountByKind(ids, events);
    IdsOfDistinct(Finished, ids, events);
    IdsOfDistinct(InteractiveInput, ids, events);
    DistinctWithin(IdsOf(Finished, ids, events), ids);
    DistinctWithin(IdsOf(InteractiveInput, ids, events), ids);
  }

  lemma {:induction false} CountAll(ids: set<string>, events: seq<Event>)
    requires forall i :: 0 <= i < |events| ==> events[i].taskId in ids
    ensures CountIn(ids, events) == |events|
  {
    if events != [] { CountAll(ids, events[1..]); }
  }

  lemma InvNamed(m: Manager)
    requires Inv(m)
    ensures Named(m.events) && forall i :: 0 <= i < |m.events| ==> m.events[i].taskId in m.records
  {
    forall i | 0 <= i < |m.events| ensures m.events[i] in m.events {}
  }

  /** The outbox never holds more than two events per record. */
  lemma OutboxBoundedByRecords(m: Manager)
    requires Inv(m)
    ensures |m.events| <= 2 * |m.records|
  {
    InvNamed(m);
    CountAll(m.records.Keys, m.events);
    CountInBound(m.records.Keys, m.events);
    assert |m.records.Keys| == |m.records|;
  }

  // ----- Save then load

  /** `saved` lists the records of `m`; liveness (`done`) is not stored. */
  ghost predicate SnapshotOf(m: Manager, saved: seq<Saved>) {
    && DistinctRecords(saved)
    && ById(saved).Keys == m.records.Keys
    && forall id :: id in m.records ==> ById(saved)[id] == m.records[id].(done := true)
  }

  lemma {:induction false} ByIdHas(saved: seq<Saved>)
    ensures forall i :: 0 <= i < |saved| ==> saved[i].id in ById(saved)
  {
    if saved != [] { ByIdHas(saved[1..]); }
  }

  lemma {:induction false} ByIdAt(saved: seq<Saved>, id: string) returns (i: nat)
    requires id in ById(saved)
    ensures i < |saved| && saved[i].id == id
  {
    if saved[0].id == id {
      i := 0;
    } else {
      i := ByIdAt(saved[1..], id);
      i := i + 1;
    }
  }

  lemma {:induction false} ByIdDistinct(saved: seq<Saved>)
    requires DistinctRecords(saved)
    ensures |ById(saved)| == |saved|
    ensures forall i :: 0 <= i < |saved| ==> saved[i].id in ById(saved) && ById(saved)[saved[i].id] == saved[i].task
  {
    if saved != [] {
      var rest := saved[1..];
      assert forall i :: 0 <= i < |rest| ==> rest[i] == saved[i + 1];
      ByIdDistinct(rest);
      if saved[0].id in ById(rest) {
        var i := ByIdAt(rest, saved[0].id);
        assert false;
      }
      assert ById(saved).Keys == ById(rest).Keys + {saved[0].id};
      assert |ById(saved)| == |ById(saved).Keys| && |ById(rest)| == |ById(rest).Keys|;
    }
  }

  /** A saved state passes `load` exactly when it has no more than 128 records: nothing else that `load`
      tests can fail in a state that a run reaches. */
  lemma SavedStateLoadsIff(m: Manager, saved: seq<Saved>)
    requires Inv(m) && SnapshotOf(m, saved)
    ensures Accepted(saved, m.events) <==> |m.records| <= 128
  {
    ByIdDistinct(saved);
    assert |ById(saved)| == |ById(saved).Keys| && |m.records| == |m.records.Keys|;
    if |m.records| <= 128 { OutboxBoundedByRecords(m); }
  }

  /** The events of a snapshot are consistent exactly when those of the state are. */
  lemma SnapshotConsistentIff(m: Manager, saved: seq<Saved>)
    requires SnapshotOf(m, saved)
    ensures Consistent(ById(saved), m.events) <==> Consistent(m.records, m.events)
  {}

  /** Every state can be saved. */
  lemma {:induction false} SnapshotExists(records: map<string, Task>) returns (saved: seq<Saved>)
    ensures DistinctRecords(saved) && ById(saved).Keys == records.Keys
    ensures forall id :: id in records ==> ById(saved)[id] == records[id].(done := true)
    decreases |records|
  {
    if records == map[] {
      saved := [];
    } else {
      var id :| id in records;
      var rest := SnapshotExists(records - {id});
      ByIdHas(rest);
      saved := [Saved(id, records[id].(done := true))] + rest;
      assert saved[1..] == rest;
    }
  }

  // ----- Reload after a crash

  function Revive(t: Task): Task {
    if Active(t.state) then t.(state := Lost, notified := false, done := true) else t.(done := true)
  }

  ghost function Revived(saved: seq<Saved>): map<string, Task> {
    map id | id in ById(saved) :: Revive(ById(saved)[id])
  }

  /** Enqueue "finished" for every lost task, in the order of the records. */
  ghost function AnnounceLost(m: Manager, todo: seq<Saved>): Manager
    requires forall i :: 0 <= i < |todo| ==> todo[i].id in m.records
    decreases |todo|
  {
    if todo == [] then m
    else
      var id := todo[0].id;
      AnnounceLost(if m.records[id].state == Lost then Enqueue(m, id, Finished) else m, todo[1..])
  }

  ghost function Loaded(saved: seq<Saved>, events: seq<Event>): Manager {
    Manager("standalone", Revived(saved), events, {}, {}, multiset{}, ById(saved).Keys, [])
  }

  ghost function Reload(saved: seq<Saved>, events: seq<Event>): Manager {
    ByIdHas(saved);
    AnnounceLost(Loaded(saved, events), saved)
  }

  /** A later state: events appended, notifications set, nothing else changed. */
  ghost predicate Grew(m: Manager, r: Manager) {
    && m.events <= r.events && r.records.Keys == m.records.Keys && r.starting == m.starting
    && forall id :: id in m.records ==> Later(m.records[id], r.records[id])
  }

  predicate Later(t: Task, t': Task) {
    t'.(notified := t.notified) == t && (t.notified ==> t'.notified)
  }

  lemma {:induction false} AnnounceKeepsInv(m: Manager, todo: seq<Saved>)
    requires Inv(m) && forall i :: 0 <= i < |todo| ==> todo[i].id in m.records
    ensures Inv(AnnounceLost(m, todo))
    decreases |todo|
  {
    if todo != [] {
      EnqueueKeeps(m, todo[0].id, Finished);
      AnnounceKeepsInv(if m.records[todo[0].id].state == Lost then Enqueue(m, todo[0].id, Finished) else m, todo[1..]);
    }
  }

  lemma {:induction false} AnnounceGrows(m: Manager, todo: seq<Saved>)
    requires forall i :: 0 <= i < |todo| ==> todo[i].id in m.records
    ensures Grew(m, AnnounceLost(m, todo))
    decreases |todo|
  {
    if todo != [] {
      EnqueueDoes(m, todo[0].id);
      AnnounceGrows(if m.records[todo[0].id].state == Lost then Enqueue(m, todo[0].id, Finished) else m, todo[1..]);
    }
  }

  ghost function AnnounceFirst(m: Manager, id: string): Manager
    requires id in m.records
  {
    if m.records[id].state == Lost then Enqueue(m, id, Finished) else m
  }

  lemma AnnounceFirstDoes(m: Manager, id: string)
    requires id in m.records
    ensures var r := AnnounceFirst(m, id);
            && r.records.Keys == m.records.Keys
            && (forall x :: x in m.records && x != id ==> r.records[x] == m.records[x])
            && (m.records[id].state == Lost ==>
                  r.records[id].notified && (!m.records[id].notified ==> HasEvent(r.events, EventId(id, Finished))))
  {
    EnqueueDoes(m, id);
  }

  /** A lost task is announced: it is notified, and its event is pending if it was not notified before. */
  lemma {:induction false} AnnounceCovers(m: Manager, todo: seq<Saved>, k: nat)
    requires k < |todo| && forall i :: 0 <= i < |todo| ==> todo[i].id in m.records
    requires m.records[todo[k].id].state == Lost
    ensures var r := AnnounceLost(m, todo);
            && todo[k].id in r.records && r.records[todo[k].id].notified
            && (!m.records[todo[k].id].notified ==> HasEvent(r.events, EventId(todo[k].id, Finished)))
    decreases |todo|
  {
    var id, rest := todo[0].id, todo[1..];
    AnnounceFirstDoes(m, id);
    var m1 := AnnounceFirst(m, id);
    assert AnnounceLost(m, todo) == AnnounceLost(m1, rest);
    if todo[k].id == id {
      AnnounceGrows(m1, rest);
      PrefixHasEvent(m1.events, AnnounceLost(m1, rest).events, EventId(id, Finished));
    } else {
      assert rest[k - 1] == todo[k];
      AnnounceCovers(m1, rest, k - 1);
    }
  }

  lemma EnqueueDoes(m: Manager, id: string)
    requires id in m.records
    ensures var r := Enqueue(m, id, Finished);
            && m.events <= r.events && r.records == m.records[id := m.records[id].(notified := true)]
            && r.starting == m.starting
            && (!m.records[id].notified ==> HasEvent(r.events, EventId(id, Finished)))
  {
    var r := Enqueue(m, id, Finished);
    if !m.records[id].notified && !HasEvent(m.events, EventId(id, Finished)) {
      assert r.events[|m.events|].eventId == EventId(id, Finished);
    }
  }

  lemma PrefixHasEvent(a: seq<Event>, b: seq<Event>, eventId: string)
    requires a <= b
    ensures HasEvent(a, eventId) ==> HasEvent(b, eventId)
  {
    if i :| 0 <= i < |a| && a[i].eventId == eventId { assert b[i] == a[i]; }
  }

  lemma LoadedInv(saved: seq<Saved>, events: seq<Event>)
    requires Accepted(saved, events)
    ensures Inv(Loaded(saved, events))
  {
    assert Consistent(Revived(saved), events);
  }

  lemma ReloadKeeps(saved: seq<Saved>, events: seq<Event>)
    requires Accepted(saved, events)
    ensures Inv(Reload(saved, events)) && Grew(Loaded(saved, events), Reload(saved, events))
  {
    LoadedInv(saved, events);
    ByIdHas(saved);
    AnnounceKeepsInv(Loaded(saved, events), saved);
    AnnounceGrows(Loaded(saved, events), saved);
  }

  lemma ReloadAnnounces(saved: seq<Saved>, events: seq<Event>, i: nat)
    requires Accepted(saved, events) && i < |saved| && Active(saved[i].task.state)
    ensures LostAndAnnounced(Reload(saved, events), saved[i].id)
  {
    ByIdDistinct(saved);
    ReloadKeeps(saved, events);
    var m := Loaded(saved, events);
    assert m.records[saved[i].id] == Revive(saved[i].task);
    AnnounceCovers(m, saved, i);
    assert Later(m.records[saved[i].id], Reload(saved, events).records[saved[i].id]);
  }

  /** Reload: a valid state, nothing active, no pending event forgotten, and every task that was
      active when the state was saved has its "finished" event, once. */
  lemma ReloadAfterCrash(saved: seq<Saved>, events: seq<Event>)
    requires Accepted(saved, events)
    ensures var r := Reload(saved, events);
            && Inv(r) && Quiet(r) && ActiveIds(r) == {} && events <= r.events && r.records.Keys == ById(saved).Keys
    ensures forall i :: 0 <= i < |saved| && Active(saved[i].task.state) ==>
              LostAndAnnounced(Reload(saved, events), saved[i].id)
  {
    ReloadKeeps(saved, events);
    var m, r := Loaded(saved, events), Reload(saved, events);
    forall id | id in r.records ensures !Active(r.records[id].state) { assert Later(m.records[id], r.records[id]); }
    forall i | 0 <= i < |saved| && Active(saved[i].task.state) ensures LostAndAnnounced(r, saved[i].id) {
      ReloadAnnounces(saved, events, i);
    }
  }

  ghost predicate LostAndAnnounced(m: Manager, id: string) {
    && id in m.records && m.records[id].state == Lost && m.records[id].notified
    && HasEvent(m.events, EventId(id, Finished))
  }

  lemma {:induction false} AnnounceNothing(m: Manager, todo: seq<Saved>)
    requires forall i :: 0 <= i < |todo| ==> todo[i].id in m.records
    requires forall id :: id in m.records && m.records[id].state == Lost ==> m.records[id].notified
    ensures AnnounceLost(m, todo) == m
    decreases |todo|
  {
    if todo != [] { AnnounceNothing(m, todo[1..]); }
  }

  /** Nothing about this task is left to do after a reload. */
  predicate AtRest(t: Task) {
    t.done && !Active(t.state) && (t.state == Lost ==> t.notified)
  }

  lemma ReloadedAtRest(saved: seq<Saved>, events: seq<Event>, id: string)
    requires id in Reload(saved, events).records
    ensures AtRest(Reload(saved, events).records[id])
  {
    var m := Loaded(saved, events);
    ByIdHas(saved);
    AnnounceGrows(m, saved);
    var i := ByIdAt(saved, id);
    assert Later(m.records[id], Reload(saved, events).records[id]);
    if m.records[id].state == Lost { AnnounceCovers(m, saved, i); }
  }

  /** Crashing again before anything happens changes nothing: no notice is repeated. */
  lemma ReloadTwice(saved: seq<Saved>, events: seq<Event>, again: seq<Saved>)
    requires SnapshotOf(Reload(saved, events), again)
    ensures var once := Reload(saved, events);
            Reload(again, once.events).records == once.records && Reload(again, once.events).events == once.events
  {
    var once := Reload(saved, events);
    forall id | id in once.records ensures AtRest(once.records[id]) { ReloadedAtRest(saved, events, id); }
    ReloadAtRest(once, again);
  }

  lemma ReloadAtRest(m: Manager, again: seq<Saved>)
    requires SnapshotOf(m, again) && forall id :: id in m.records ==> AtRest(m.records[id])
    ensures Reload(again, m.events).records == m.records && Reload(again, m.events).events == m.events
  {
    ByIdHas(again);
    assert Revived(again) == m.records;
    AnnounceNothing(Loaded(again, m.events), again);
  }

  // ----- Acknowledging

  lemma {:induction false} FilterPartitions(keep: Event -> bool, drop: Event -> bool, events: seq<Event>)
    requires forall e :: e in events ==> keep(e) != drop(e)
    ensures multiset(Filter(keep, events)) + multiset(Filter(drop, events)) == multiset(events)
  {
    if events != [] {
      assert events == [events[0]] + events[1..];
      FilterPartitions(keep, drop, events[1..]);
    }
  }

  lemma {:induction false} FilterAll(keep: Event -> bool, events: seq<Event>)
    requires forall e :: e in events ==> keep(e)
    ensures Filter(keep, events) == events
  {
    if events != [] {
      assert events[0] in events && forall e :: e in events[1..] ==> e in events;
      FilterAll(keep, events[1..]);
    }
  }

  /** What is taken out and what stays make up the outbox, by id. */
  lemma TakeSplits(ids: set<string>, events: seq<Event>)
    ensures multiset(Filter(IdNotIn(ids), events)) + multiset(Filter(IdIn(ids), events)) == multiset(events)
    ensures forall e :: e in events ==> (e in Filter(IdIn(ids), events) <==> e.eventId in ids)
  {
    FilterPartitions(IdNotIn(ids), IdIn(ids), events);
    FilterOk(IdIn(ids), events);
  }

  /** An acknowledgement that fails at once puts back exactly the events it took. */
  lemma FailedAckLosesNothing(m: Manager, ids: set<string>, config: Config)
    requires Inv(m) && m.workers <= m.records.Keys
    ensures var taking, taken := Next(m, AckTake(ids), config), Filter(IdIn(ids), m.events);
            && Enabled(taking, AckRestore(taken)) && RollbackSafe(taking, AckRestore(taken))
            && multiset(Next(taking, AckRestore(taken), config).events) == multiset(m.events)
            && Next(taking, AckRestore(taken), config).inflight == m.inflight
  {
    var taking, taken := Next(m, AckTake(ids), config), Filter(IdIn(ids), m.events);
    FilterOk(IdIn(ids), m.events);
    FilterOk(IdNotIn(ids), m.events);
    forall e | e in taken ensures AbsentFrom(taking.events)(e) && e.taskId in m.records {
      forall i | 0 <= i < |taking.events| ensures taking.events[i].eventId != e.eventId {
        assert taking.events[i] in taking.events;
      }
    }
    FilterPartitions(IdIn(ids), IdNotIn(ids), m.events);
    FilterAll(AbsentFrom(taking.events), taken);
  }

  /** However much happens in between, a safe restore loses no taken event and duplicates none. */
  lemma RestoreLosesNothing(m: Manager, taken: seq<Event>, config: Config)
    requires Inv(m) && taken in m.inflight && RollbackSafe(m, AckRestore(taken)) && m.workers <= m.records.Keys
    ensures var r := Next(m, AckRestore(taken), config);
            && (forall e :: e in m.events ==> e in r.events)
            && (forall e :: e in taken ==> HasEvent(r.events, e.eventId))
            && DistinctIds(r.events)
  {
    OutboxStepKeeps(m, AckRestore(taken), config);
    var r := Next(m, AckRestore(taken), config);
    FilterOk(AbsentFrom(m.events), taken);
    forall e | e in taken ensures HasEvent(r.events, e.eventId) {
      if HasEvent(m.events, e.eventId) {
        var i :| 0 <= i < |m.events| && m.events[i].eventId == e.eventId;
        assert r.events[|r.events| - |m.events| + i] == m.events[i];
      } else {
        assert e in r.events;
      }
    }
  }
}
