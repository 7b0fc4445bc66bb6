/** The conditions of a Package and their edits. */
module Status {
  import opened Common
  import opened Cluster

  datatype Truth = True | False | Unknown

  datatype Condition = Condition(kind: string, status: Truth, reason: string, message: string, observedGeneration: int, since: int)

  const READY := "Ready"
  const STALLED := "Stalled"
  const RECONCILING := "Reconciling"

  datatype StatusValue = StatusValue(observedGeneration: int, conditions: seq<Condition>)

  // ---- edits -------------------------------------------------------------

  /** Replaces the first condition of the same kind, keeping its time when the status is the same, or appends. */
  function Set(cs: seq<Condition>, c: Condition): seq<Condition> {
    if cs == [] then [c]
    else if cs[0].kind == c.kind then [if cs[0].status == c.status then c.(since := cs[0].since) else c] + cs[1..]
    else [cs[0]] + Set(cs[1..], c)
  }

  /** Drops the first condition of the kind. */
  function Remove(cs: seq<Condition>, kind: string): seq<Condition> {
    if cs == [] then []
    else if cs[0].kind == kind then cs[1..]
    else [cs[0]] + Remove(cs[1..], kind)
  }

  function Lookup(cs: seq<Condition>, kind: string): (r: Option<Condition>)
    ensures r.Some? ==> r.value.kind == kind && r.value in cs
    ensures r.None? ==> forall i :: 0 <= i < |cs| ==> cs[i].kind != kind
  {
    if cs == [] then None else if cs[0].kind == kind then Some(cs[0]) else Lookup(cs[1..], kind)
  }

  ghost predicate Unique(cs: seq<Condition>) { forall i, j :: 0 <= i < j < |cs| ==> cs[i].kind != cs[j].kind }

  function HasStatus(cs: seq<Condition>, kind: string, status: Truth): bool {
    Lookup(cs, kind).Some? && Lookup(cs, kind).value.status == status
  }

  /** The condition that `Set` puts in place. */
  function Kept(was: Option<Condition>, c: Condition): Condition {
    if was.Some? && was.value.status == c.status then c.(since := was.value.since) else c
  }

  lemma {:induction false} SetLookup(cs: seq<Condition>, c: Condition, kind: string)
    ensures Lookup(Set(cs, c), kind) == if kind == c.kind then Some(Kept(Lookup(cs, kind), c)) else Lookup(cs, kind)
  {
    if cs != [] {
      SetLookup(cs[1..], c, kind);
      assert Set(cs, c)[1..] == if cs[0].kind == c.kind then cs[1..] else Set(cs[1..], c);
    }
  }

  lemma {:induction false} SetUnique(cs: seq<Condition>, c: Condition)
    ensures forall x :: x in Set(cs, c) ==> x.kind == c.kind || x in cs
    ensures Unique(cs) ==> Unique(Set(cs, c))
  {
    if cs != [] {
      SetUnique(cs[1..], c);
      var r := Set(cs, c);
      assert r[1..] == if cs[0].kind == c.kind then cs[1..] else Set(cs[1..], c);
      UniqueCons(cs);
      UniqueCons(r);
      hide Unique;
    }
  }

  /** `Set` changes the condition of its kind only, and keeps kinds unique. */
  lemma SetEffect(cs: seq<Condition>, c: Condition, kind: string)
    ensures Lookup(Set(cs, c), kind) == if kind == c.kind then Some(Kept(Lookup(cs, kind), c)) else Lookup(cs, kind)
    ensures Unique(cs) ==> Unique(Set(cs, c))
  {
    hide Set, Lookup, Unique;
    SetLookup(cs, c, kind);
    SetUnique(cs, c);
  }

  /** A condition is replaced where it stands, and added last. */
  lemma {:induction false} SetInPlace(cs: seq<Condition>, c: Condition, i: nat)
    requires i <= |cs| && (forall j :: 0 <= j < i ==> cs[j].kind != c.kind) && (i < |cs| ==> cs[i].kind == c.kind)
    ensures |Set(cs, c)| == if i < |cs| then |cs| else |cs| + 1
    ensures Set(cs, c)[i].kind == c.kind && forall j :: 0 <= j < |cs| && j != i ==> Set(cs, c)[j] == cs[j]
    decreases |cs|
  {
    if cs != [] && i > 0 {
      SetInPlace(cs[1..], c, i - 1);
      forall j | 0 <= j < |cs| && j != i ensures Set(cs, c)[j] == cs[j] {
        if j > 0 {
          assert Set(cs, c)[j] == Set(cs[1..], c)[j - 1];
        }
      }
    }
  }

  lemma UniqueCons(cs: seq<Condition>)
    requires cs != []
    ensures Unique(cs) <==> Unique(cs[1..]) && forall x :: x in cs[1..] ==> x.kind != cs[0].kind
  {
    if Unique(cs[1..]) && forall x :: x in cs[1..] ==> x.kind != cs[0].kind {
      forall i, j | 0 <= i < j < |cs| ensures cs[i].kind != cs[j].kind {
        assert cs[j] == cs[1..][j - 1];
        if i > 0 {
          assert cs[i] == cs[1..][i - 1];
        }
      }
    }
  }

  /** With unique kinds `Remove` leaves no condition of its kind and touches no other. */
  lemma {:induction false} RemoveEffect(cs: seq<Condition>, kind: string, other: string)
    requires Unique(cs)
    ensures Unique(Remove(cs, kind))
    ensures Lookup(Remove(cs, kind), other) == if other == kind then None else Lookup(cs, other)
    ensures forall x :: x in Remove(cs, kind) ==> x in cs
  {
    if cs != [] {
      UniqueCons(cs);
      RemoveEffect(cs[1..], kind, other);
      var r := Remove(cs, kind);
      if cs[0].kind == kind {
        NoneLeft(cs[1..], kind);
      } else {
        assert r[1..] == Remove(cs[1..], kind);
        UniqueCons(r);
      }
    }
  }

  lemma NoneLeft(cs: seq<Condition>, kind: string)
    requires forall x :: x in cs ==> x.kind != kind
    ensures Lookup(cs, kind) == None
  {
  }

  // ---- the three status writes -------------------------------------------

  function Reconciling(v: StatusValue, generation: int, message: string, now: int): StatusValue {
    v.(conditions := Set(v.conditions, Condition(RECONCILING, True, "Progressing", message, generation, now)))
  }

  function FailedValue(v: StatusValue, generation: int, reason: string, message: string, now: int, later: int): StatusValue {
    var ready := Set(v.conditions, Condition(READY, False, reason, message, generation, now));
    var stalled := Set(ready, Condition(STALLED, True, reason, message, generation, later));
    StatusValue(generation, Remove(stalled, RECONCILING))
  }

  function ReadyValue(v: StatusValue, generation: int, now: int): StatusValue {
    var ready := Set(v.conditions, Condition(READY, True, "ResourcesApplied", "bb-common resources reconciled", generation, now));
    StatusValue(generation, Remove(Remove(ready, STALLED), RECONCILING))
  }

  lemma KindsDiffer()
    ensures READY != STALLED && READY != RECONCILING && STALLED != RECONCILING
    ensures READY == "Ready" && STALLED == "Stalled" && RECONCILING == "Reconciling"
  {
    assert |READY| == 5 && |STALLED| == 7 && |RECONCILING| == 11;
  }

  /** The condition speaks about the generation and gives the reason and the message. */
  predicate Reports(c: Option<Condition>, generation: int, reason: string, message: string) {
    c.Some? && c.value.observedGeneration == generation && c.value.reason == reason && c.value.message == message
  }

  /** Conditions of other kinds are left alone by all three writes. */
  lemma OthersUntouched(v: StatusValue, generation: int, reason: string, message: string, now: int, later: int, kind: string)
    requires Unique(v.conditions) && kind != "Ready" && kind != "Stalled" && kind != "Reconciling"
    ensures Lookup(Reconciling(v, generation, message, now).conditions, kind) == Lookup(v.conditions, kind)
    ensures Lookup(FailedValue(v, generation, reason, message, now, later).conditions, kind) == Lookup(v.conditions, kind)
    ensures Lookup(ReadyValue(v, generation, now).conditions, kind) == Lookup(v.conditions, kind)
  {
    hide Set, Lookup, Unique, Remove;
    KindsDiffer();
    var p := Condition(RECONCILING, True, "Progressing", message, generation, now);
    var f := Condition(READY, False, reason, message, generation, now);
    var t := Condition(STALLED, True, reason, message, generation, later);
    var r := Condition(READY, True, "ResourcesApplied", "bb-common resources reconciled", generation, now);
    SetEffect(v.conditions, p, kind);
    SetEffect(v.conditions, f, kind);
    SetEffect(Set(v.conditions, f), t, kind);
    RemoveEffect(Set(Set(v.conditions, f), t), RECONCILING, kind);
    SetEffect(v.conditions, r, kind);
    RemoveEffect(Set(v.conditions, r), STALLED, kind);
    RemoveEffect(Remove(Set(v.conditions, r), STALLED), RECONCILING, kind);
    hide READY, STALLED, RECONCILING;
  }

  lemma ReconcilingConditions(v: StatusValue, generation: int, message: string, now: int)
    requires Unique(v.conditions)
    ensures var cs := Reconciling(v, generation, message, now).conditions;
            && Unique(cs) && Lookup(cs, READY) == Lookup(v.conditions, READY) && Lookup(cs, STALLED) == Lookup(v.conditions, STALLED)
            && HasStatus(cs, "Reconciling", True) && Lookup(cs, "Reconciling").value.observedGeneration == generation
            && Lookup(cs, "Reconciling").value.reason == "Progressing" && Lookup(cs, "Reconciling").value.message == message
            && Reconciling(v, generation, message, now).observedGeneration == v.observedGeneration
  {
    hide Set, Lookup, Unique;
    KindsDiffer();
    var c := Condition(RECONCILING, True, "Progressing", message, generation, now);
    SetEffect(v.conditions, c, READY);
    SetEffect(v.conditions, c, STALLED);
    SetEffect(v.conditions, c, RECONCILING);
    hide READY, STALLED, RECONCILING;
  }

  /** After a failure exactly Ready=False and Stalled=True are reported for the generation. */
  lemma FailedConditions(v: StatusValue, generation: int, reason: string, message: string, now: int, later: int)
    requires Unique(v.conditions)
    ensures var cs := FailedValue(v, generation, reason, message, now, later).conditions;
            && Unique(cs) && HasStatus(cs, "Ready", False) && HasStatus(cs, "Stalled", True) && Lookup(cs, "Reconciling").None?
            && Reports(Lookup(cs, "Ready"), generation, reason, message) && Reports(Lookup(cs, "Stalled"), generation, reason, message)
            && FailedValue(v, generation, reason, message, now, later).observedGeneration == generation
  {
    hide Set, Lookup, Unique, Remove;
    KindsDiffer();
    var r := Condition(READY, False, reason, message, generation, now);
    var t := Condition(STALLED, True, reason, message, generation, later);
    var ready := Set(v.conditions, r);
    var stalled := Set(ready, t);
    SetEffect(v.conditions, r, READY);
    SetEffect(ready, t, READY);
    SetEffect(ready, t, STALLED);
    RemoveEffect(stalled, RECONCILING, READY);
    RemoveEffect(stalled, RECONCILING, STALLED);
    RemoveEffect(stalled, RECONCILING, RECONCILING);
    hide READY, STALLED, RECONCILING;
  }

  lemma ReadyConditions(v: StatusValue, generation: int, now: int)
    requires Unique(v.conditions)
    ensures var cs := ReadyValue(v, generation, now).conditions;
            && Unique(cs) && HasStatus(cs, "Ready", True) && Lookup(cs, "Stalled").None? && Lookup(cs, "Reconciling").None?
            && Reports(Lookup(cs, "Ready"), generation, "ResourcesApplied", "bb-common resources reconciled")
            && ReadyValue(v, generation, now).observedGeneration == generation
  {
    hide Set, Lookup, Unique, Remove;
    KindsDiffer();
    var r := Condition(READY, True, "ResourcesApplied", "bb-common resources reconciled", generation, now);
    var ready := Set(v.conditions, r);
    var rest := Remove(ready, STALLED);
    SetEffect(v.conditions, r, READY);
    RemoveEffect(ready, STALLED, READY);
    RemoveEffect(ready, STALLED, STALLED);
    RemoveEffect(rest, RECONCILING, READY);
    RemoveEffect(rest, RECONCILING, STALLED);
    RemoveEffect(rest, RECONCILING, RECONCILING);
    hide READY, STALLED, RECONCILING;
  }

  lemma SetStep(cs: seq<Condition>, c: Condition, i: nat)
    requires i < |cs|
    ensures cs[..i] + Set(cs[i..], c) ==
            if cs[i].kind == c.kind then cs[i := if cs[i].status == c.status then c.(since := cs[i].since) else c]
            else cs[..i + 1] + Set(cs[i + 1..], c)
  {
    assert cs[i..][1..] == cs[i + 1..];
    if cs[i].kind != c.kind {
      assert Set(cs[i..], c) == [cs[i]] + Set(cs[i + 1..], c);
      hide Set;
      assert cs[..i + 1] == cs[..i] + [cs[i]];
    }
  }

  lemma SetEnd(c: Condition)
    ensures Set([], c) == [c]
  {
  }

  lemma RemoveStep(cs: seq<Condition>, kind: string, i: nat)
    requires i <= |cs|
    ensures Remove(cs[i..], kind) ==
            if i == |cs| then [] else if cs[i].kind == kind then cs[i + 1..] else [cs[i]] + Remove(cs[i + 1..], kind)
  {
    if i < |cs| {
      assert cs[i..][1..] == cs[i + 1..];
    }
  }

  // ---- the objects that hold a status ------------------------------------

  /** What the API server stores of a Package, as far as its status is concerned. */
  datatype Snapshot = Snapshot(generation: int, version: nat, status: StatusValue)

  /** The server's copy. A status write is accepted only for the version it was based on. */
  class StatusStore {
    var persisted: Snapshot
    var calls: nat
    const plan: nat -> Fate

    constructor (s: Snapshot, plan: nat -> Fate)
      ensures persisted == s && this.plan == plan && calls == 0
    {
      persisted, this.plan, calls := s, plan, 0;
    }
  }

  /** A run's own copy of the Package. */
  class PackageObject {
    var generation: int
    var version: nat
    var observedGeneration: int
    var conditions: seq<Condition>

    function Value(): StatusValue
      reads this
    {
      StatusValue(observedGeneration, conditions)
    }

    function Copy(): Snapshot
      reads this
    {
      Snapshot(generation, version, Value())
    }

    constructor (s: Snapshot)
      ensures Copy() == s
    {
      generation, version, observedGeneration, conditions := s.generation, s.version, s.status.observedGeneration, s.status.conditions;
    }

    method SetCondition(condition: Condition)
      modifies this`conditions
      ensures conditions == Set(old(conditions), condition)
    {
      hide Set;
      var c := condition;
      ghost var cs := conditions;
      assert cs[..0] == [] && cs[0..] == cs;
      for i := 0 to |conditions|
        invariant conditions == cs && c == condition && cs[..i] + Set(cs[i..], condition) == Set(cs, condition)
      {
        SetStep(cs, condition, i);
        if conditions[i].kind == c.kind {
          if conditions[i].status == c.status {
            c := c.(since := conditions[i].since);
          }
          conditions := conditions[i := c];
          return;
        }
      }
      SetEnd(condition);
      assert cs[..|cs|] == cs && cs[|cs|..] == [];
      conditions := conditions + [c];
    }

    method RemoveCondition(kind: string)
      modifies this`conditions
      ensures conditions == Remove(old(conditions), kind)
    {
      hide Remove;
      ghost var cs := conditions;
      for i := 0 to |conditions|
        invariant conditions == cs && cs[..i] + Remove(cs[i..], kind) == Remove(cs, kind)
      {
        RemoveStep(cs, kind, i);
        if conditions[i].kind == kind {
          conditions := conditions[..i] + conditions[i + 1..];
          return;
        }
        assert cs[..i + 1] == cs[..i] + [cs[i]];
      }
      RemoveStep(cs, kind, |cs|);
      assert cs[..|cs|] == cs;
    }

    /** The status write: accepted for the current version only, and even then it may fail before or after. */
    method Update(store: StatusStore) returns (ok: bool)
      modifies this`version, store
      ensures store.calls == old(store.calls) + 1
      ensures Written(old(Copy()), old(store.persisted), store.plan(old(store.calls)), Copy(), store.persisted, ok)
    {
      var fate := store.plan(store.calls);
      var accepted := version == store.persisted.version && fate != FailsBefore;
      if accepted {
        store.persisted := Snapshot(store.persisted.generation, store.persisted.version + 1, Value());
      }
      ok := accepted && fate == Succeeds;
      if ok {
        version := store.persisted.version;
      }
      store.calls := store.calls + 1;
    }

    /** Announces work on a generation that was not observed yet. */
    method MarkReconciling(store: StatusStore, message: string, now: int) returns (ok: bool)
      modifies this, store
      ensures generation == old(generation) && Value() == Reconciling(old(Value()), generation, message, now)
      ensures Written(old(Copy()), old(store.persisted), store.plan(old(store.calls)), Copy(), store.persisted, ok)
      ensures store.calls == old(store.calls) + 1
    {
      SetCondition(Condition(RECONCILING, True, "Progressing", message, generation, now));
      ok := Update(store);
    }

    /** Reports a failure and marks the generation as processed. */
    method MarkFailed(store: StatusStore, reason: string, message: string, now: int, later: int) returns (ok: bool)
      modifies this, store
      ensures generation == old(generation) && Value() == FailedValue(old(Value()), generation, reason, message, now, later)
      ensures Written(old(Copy()), old(store.persisted), store.plan(old(store.calls)), Copy(), store.persisted, ok)
      ensures store.calls == old(store.calls) + 1
    {
      hide Set, Remove;
      SetCondition(Condition(READY, False, reason, message, generation, now));
      SetCondition(Condition(STALLED, True, reason, message, generation, later));
      RemoveCondition(RECONCILING);
      observedGeneration := generation;
      ok := Update(store);
    }

    method MarkReady(store: StatusStore, now: int) returns (ok: bool)
      modifies this, store
      ensures generation == old(generation) && Value() == ReadyValue(old(Value()), generation, now)
      ensures Written(old(Copy()), old(store.persisted), store.plan(old(store.calls)), Copy(), store.persisted, ok)
      ensures store.calls == old(store.calls) + 1
    {
      hide Set, Remove;
      SetCondition(Condition(READY, True, "ResourcesApplied", "bb-common resources reconciled", generation, now));
      RemoveCondition(STALLED);
      RemoveCondition(RECONCILING);
      observedGeneration := generation;
      ok := Update(store);
    }
  }

  /** A version-checked status write: `read` is the copy it was based on, `copy` the one it sent; a refused write, or one
      that failed before, leaves the stored Package as it was. */
  predicate Written(read: Snapshot, stored: Snapshot, fate: Fate, copy: Snapshot, stored': Snapshot, ok: bool) {
    var accepted := read.version == stored.version && fate != FailsBefore;
    && (ok <==> accepted && fate == Succeeds)
    && stored' == (if accepted then Snapshot(stored.generation, stored.version + 1, copy.status) else stored)
    && copy.version == if ok then stored'.version else read.version
  }
}
