/** Transition times over any history of condition edits. */
module Transitions {
  import opened Common
  import opened Status

  datatype Edit = Put(condition: Condition) | Drop(kind: string)

  function Apply(cs: seq<Condition>, e: Edit): seq<Condition> {
    match e case Put(c) => Set(cs, c) case Drop(k) => Remove(cs, k)
  }

  function After(edits: seq<Edit>): seq<Condition> {
    if edits == [] then [] else Apply(After(edits[..|edits| - 1]), edits[|edits| - 1])
  }

  predicate Puts(e: Edit, kind: string, status: Truth) { e.Put? && e.condition.kind == kind && e.condition.status == status }

  /** The edit ends a stretch in which `kind` has `status`. */
  predicate Breaks(e: Edit, kind: string, status: Truth) {
    e == Drop(kind) || (e.Put? && e.condition.kind == kind && e.condition.status != status)
  }

  predicate Unbroken(edits: seq<Edit>, kind: string, status: Truth, i: nat) {
    forall j :: i < j < |edits| ==> !Breaks(edits[j], kind, status)
  }

  /** Edit `i` is the first of the current unbroken stretch with its status. */
  predicate StartsStretch(edits: seq<Edit>, kind: string, i: nat) {
    && i < |edits| && edits[i].Put? && edits[i].condition.kind == kind
    && var status := edits[i].condition.status;
    && Unbroken(edits, kind, status, i)
    && forall j :: 0 <= j < i && Puts(edits[j], kind, status) ==> !Unbroken(edits, kind, status, j)
  }

  lemma {:induction false} KindsUnique(edits: seq<Edit>)
    ensures Unique(After(edits))
  {
    hide Unique;
    if edits != [] {
      var init, last := edits[..|edits| - 1], edits[|edits| - 1];
      KindsUnique(init);
      match last
      case Put(c) => SetEffect(After(init), c, "");
      case Drop(k) => RemoveEffect(After(init), k, "");
    } else {
      NoneIsUnique();
    }
  }

  lemma NoneIsUnique()
    ensures Unique([])
  {
  }

  lemma LastEdit(edits: seq<Edit>, kind: string)
    requires edits != []
    ensures var before, last := Lookup(After(edits[..|edits| - 1]), kind), edits[|edits| - 1];
            Lookup(After(edits), kind) ==
            if last == Drop(kind) then None
            else if last.Put? && last.condition.kind == kind then Some(Kept(before, last.condition))
            else before
  {
    hide Set, Remove, Lookup, Unique;
    var init, last := edits[..|edits| - 1], edits[|edits| - 1];
    KindsUnique(init);
    match last
    case Put(c) => SetEffect(After(init), c, kind);
    case Drop(k) => RemoveEffect(After(init), k, kind);
  }

  /** A status that was put and not broken since is the current one. */
  lemma {:induction false} UnbrokenStays(edits: seq<Edit>, kind: string, i: nat)
    requires i < |edits| && edits[i].Put? && edits[i].condition.kind == kind && Unbroken(edits, kind, edits[i].condition.status, i)
    ensures HasStatus(After(edits), kind, edits[i].condition.status)
    decreases |edits|
  {
    hide After, Lookup;
    LastEdit(edits, kind);
    if i < |edits| - 1 {
      UnbrokenStays(edits[..|edits| - 1], kind, i);
      assert !Breaks(edits[|edits| - 1], kind, edits[i].condition.status);
    }
  }

  /** Every present condition is in a stretch with a first edit. */
  lemma {:induction false} StretchExists(edits: seq<Edit>, kind: string) returns (i: nat)
    requires Lookup(After(edits), kind).Some?
    ensures StartsStretch(edits, kind, i) && edits[i].condition.status == Lookup(After(edits), kind).value.status
    decreases |edits|
  {
    hide Lookup;
    assert edits != [] by { NothingAtFirst(kind); }
    LastEdit(edits, kind);
    hide After;
    var init, last := edits[..|edits| - 1], edits[|edits| - 1];
    var before, now := Lookup(After(init), kind), Lookup(After(edits), kind).value;
    assert edits == init + [last];
    if before.Some? && before.value.status == now.status {
      i := StretchExists(init, kind);
      LongerStretch(init, last, kind, i);
    } else {
      i := |init|;
      forall j | 0 <= j < i && Puts(edits[j], kind, now.status) ensures !Unbroken(edits, kind, now.status, j) {
        if Unbroken(edits, kind, now.status, j) {
          assert Unbroken(init, kind, now.status, j);
          UnbrokenStays(init, kind, j);
          assert false;
        }
      }
    }
  }

  lemma NothingAtFirst(kind: string)
    ensures Lookup(After([]), kind).None?
  {
  }

  lemma LongerStretch(init: seq<Edit>, last: Edit, kind: string, i: nat)
    requires StartsStretch(init, kind, i) && !Breaks(last, kind, init[i].condition.status)
    ensures StartsStretch(init + [last], kind, i)
  {
    var edits, status := init + [last], init[i].condition.status;
    forall j | 0 <= j < i && Puts(edits[j], kind, status) ensures !Unbroken(edits, kind, status, j) {
      assert !Unbroken(init, kind, status, j);
      var m :| j < m < |init| && Breaks(init[m], kind, status);
      assert edits[m] == init[m];
    }
  }

  lemma ShorterStretch(edits: seq<Edit>, kind: string, i: nat)
    requires StartsStretch(edits, kind, i) && i < |edits| - 1
    ensures StartsStretch(edits[..|edits| - 1], kind, i)
  {
    var init, last, status := edits[..|edits| - 1], edits[|edits| - 1], edits[i].condition.status;
    forall j | 0 <= j < i && Puts(init[j], kind, status) ensures !Unbroken(init, kind, status, j) {
      assert !Unbroken(edits, kind, status, j);
      var m :| j < m < |edits| && Breaks(edits[m], kind, status);
      assert !Breaks(last, kind, status);
      assert init[m] == edits[m];
    }
  }

  /** A condition's transition time is that of the first edit of the current unbroken stretch with its status; dropping
      the condition breaks the stretch. A condition is present exactly when such an edit exists. */
  lemma {:induction false} TransitionTime(edits: seq<Edit>, kind: string, i: nat)
    requires StartsStretch(edits, kind, i)
    ensures Lookup(After(edits), kind).Some?
    ensures var now := Lookup(After(edits), kind).value;
            now.status == edits[i].condition.status && now.since == edits[i].condition.since
    decreases |edits|
  {
    hide Lookup, After;
    LastEdit(edits, kind);
    var init, last, status := edits[..|edits| - 1], edits[|edits| - 1], edits[i].condition.status;
    if i < |init| {
      ShorterStretch(edits, kind, i);
      TransitionTime(init, kind, i);
      assert !Breaks(last, kind, status);
    } else if HasStatus(After(init), kind, status) {
      var j := StretchExists(init, kind);
      LongerUnbroken(edits, kind, status, j);
      assert false;
    }
  }

  lemma LongerUnbroken(edits: seq<Edit>, kind: string, status: Truth, j: nat)
    requires edits != [] && Unbroken(edits[..|edits| - 1], kind, status, j) && !Breaks(edits[|edits| - 1], kind, status)
    ensures Unbroken(edits, kind, status, j)
  {
  }

  lemma PresentExactly(edits: seq<Edit>, kind: string)
    ensures Lookup(After(edits), kind).Some? <==> exists i: nat :: StartsStretch(edits, kind, i)
  {
    hide Lookup, After, StartsStretch;
    if Lookup(After(edits), kind).Some? {
      var i := StretchExists(edits, kind);
    }
    if i: nat :| StartsStretch(edits, kind, i) {
      TransitionTime(edits, kind, i);
    }
  }
}
