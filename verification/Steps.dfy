/** The entries of a shorthand specification in the order the generator visits them. The nested maps are read
    as one sequence of steps, in key order. */
module Steps {
  import opened Common
  import opened Spec
  import Keys

  // ---- steps -------------------------------------------------------------

  datatype Family = K8s | Definitions | CIDRs

  datatype Step =
    | LocalStep(localKey: string, local: Local)
    | EntryStep(family: Family, localKey: string, source: Source, key: string, target: Target)
    | LiteralStep(localKey: string, source: Source, key: string, literal: Literal)

  function Targets(f: Family, peers: PeerSpec): map<string, Target> {
    match f case K8s => peers.k8s case Definitions => peers.definition case CIDRs => peers.cidr
  }

  /** The enabled entries of one family among `keys`. */
  function TargetSteps(f: Family, localKey: string, source: Source, targets: map<string, Target>, keys: seq<string>): seq<Step>
    requires forall k :: k in keys ==> k in targets
  {
    if keys == [] then []
    else
      var k := keys[|keys| - 1];
      TargetSteps(f, localKey, source, targets, keys[..|keys| - 1])
      + if targets[k].enabled then [EntryStep(f, localKey, source, k, targets[k])] else []
  }

  function LiteralSteps(localKey: string, source: Source, literals: map<string, Literal>, keys: seq<string>): seq<Step>
    requires forall k :: k in keys ==> k in literals
  {
    if keys == [] then []
    else
      var k := keys[|keys| - 1];
      LiteralSteps(localKey, source, literals, keys[..|keys| - 1])
      + if literals[k].enabled then [LiteralStep(localKey, source, k, literals[k])] else []
  }

  ghost function FamilySteps(f: Family, localKey: string, source: Source, peers: PeerSpec): seq<Step> {
    var targets := Targets(f, peers);
    TargetSteps(f, localKey, source, targets, Keys.KeyOrder(targets.Keys))
  }

  ghost function PeerSteps(localKey: string, source: Source, peers: PeerSpec): seq<Step> {
    FamilySteps(K8s, localKey, source, peers)
    + FamilySteps(Definitions, localKey, source, peers)
    + FamilySteps(CIDRs, localKey, source, peers)
    + LiteralSteps(localKey, source, peers.literal, Keys.KeyOrder(peers.literal.Keys))
  }

  ghost function LocalSteps(localKey: string, local: Local): seq<Step> {
    [LocalStep(localKey, local)] +
    if local.Decoded? && local.source.peers.Some? then PeerSteps(localKey, local.source, local.source.peers.value) else []
  }

  ghost function StepsOf(entries: map<string, Local>, keys: seq<string>): seq<Step>
    requires forall k :: k in keys ==> k in entries
  {
    if keys == [] then []
    else StepsOf(entries, keys[..|keys| - 1]) + LocalSteps(keys[|keys| - 1], entries[keys[|keys| - 1]])
  }

  ghost function AllSteps(entries: map<string, Local>): seq<Step> { StepsOf(entries, Keys.KeyOrder(entries.Keys)) }

  /** A step belongs to a specification when its keys lead to its value and the value is enabled. */
  ghost predicate InSpec(entries: map<string, Local>, s: Step) {
    && s.localKey in entries
    && match s
       case LocalStep(k, local) => entries[k] == local
       case EntryStep(f, k, source, key, target) =>
         entries[k] == Decoded(source) && InPeers(source, s)
       case LiteralStep(k, source, key, literal) =>
         entries[k] == Decoded(source) && InPeers(source, s)
  }

  ghost predicate InPeers(source: Source, s: Step) {
    && source.peers.Some?
    && match s
       case LocalStep(_, _) => false
       case EntryStep(f, _, _, key, target) =>
         var peers := source.peers.value;
         && target.enabled
         && (f == K8s ==> key in peers.k8s && peers.k8s[key] == target)
         && (f == Definitions ==> key in peers.definition && peers.definition[key] == target)
         && (f == CIDRs ==> key in peers.cidr && peers.cidr[key] == target)
       case LiteralStep(_, _, key, literal) =>
         key in source.peers.value.literal && source.peers.value.literal[key] == literal && literal.enabled
  }

  lemma {:induction false} TargetStepsMembers(f: Family, k: string, source: Source, targets: map<string, Target>,
                                              keys: seq<string>, s: Step)
    requires forall key :: key in keys ==> key in targets
    ensures s in TargetSteps(f, k, source, targets, keys) <==>
            s.EntryStep? && s.key in keys && targets[s.key].enabled && s == EntryStep(f, k, source, s.key, targets[s.key])
  {
    if keys != [] {
      var init, last := keys[..|keys| - 1], keys[|keys| - 1];
      TargetStepsMembers(f, k, source, targets, init, s);
      assert keys == init + [last];
    }
  }

  lemma {:induction false} LiteralStepsMembers(k: string, source: Source, literals: map<string, Literal>, keys: seq<string>, s: Step)
    requires forall key :: key in keys ==> key in literals
    ensures s in LiteralSteps(k, source, literals, keys) <==>
            s.LiteralStep? && s.key in keys && literals[s.key].enabled && s == LiteralStep(k, source, s.key, literals[s.key])
  {
    if keys != [] {
      var init, last := keys[..|keys| - 1], keys[|keys| - 1];
      LiteralStepsMembers(k, source, literals, init, s);
      assert keys == init + [last];
    }
  }

  lemma FamilyStepsMembers(f: Family, k: string, source: Source, s: Step)
    requires source.peers.Some?
    ensures s in FamilySteps(f, k, source, source.peers.value) <==>
            s.EntryStep? && s.family == f && s.localKey == k && s.source == source && InPeers(source, s)
  {
    var targets := Targets(f, source.peers.value);
    TargetStepsMembers(f, k, source, targets, Keys.KeyOrder(targets.Keys), s);
    hide Keys.KeyOrder, TargetSteps;
  }

  lemma PeerStepsMembers(k: string, source: Source, s: Step)
    requires source.peers.Some?
    ensures s in PeerSteps(k, source, source.peers.value) <==>
            !s.LocalStep? && s.localKey == k && s.source == source && InPeers(source, s)
  {
    var peers := source.peers.value;
    FamilyStepsMembers(K8s, k, source, s);
    FamilyStepsMembers(Definitions, k, source, s);
    FamilyStepsMembers(CIDRs, k, source, s);
    LiteralStepsMembers(k, source, peers.literal, Keys.KeyOrder(peers.literal.Keys), s);
    hide TargetSteps, LiteralSteps, FamilySteps, Keys.KeyOrder;
  }

  lemma LocalStepsMembers(entries: map<string, Local>, k: string, s: Step)
    requires k in entries
    ensures s in LocalSteps(k, entries[k]) <==> s.localKey == k && InSpec(entries, s)
  {
    var local := entries[k];
    if local.Decoded? && local.source.peers.Some? {
      PeerStepsMembers(k, local.source, s);
      hide PeerSteps;
    }
  }

  lemma {:induction false} StepsOfMembers(entries: map<string, Local>, keys: seq<string>, s: Step)
    requires forall k :: k in keys ==> k in entries
    ensures s in StepsOf(entries, keys) <==> s.localKey in keys && InSpec(entries, s)
  {
    hide LocalSteps, InSpec;
    if keys != [] {
      var init, last := keys[..|keys| - 1], keys[|keys| - 1];
      assert keys == init + [last];
      StepsOfMembers(entries, init, s);
      LocalStepsMembers(entries, last, s);
      assert StepsOf(entries, keys) == StepsOf(entries, init) + LocalSteps(last, entries[last]);
      hide StepsOf;
      assert s.localKey in keys <==> s.localKey in init || s.localKey == last;
    }
  }

  /** The steps of a specification are its entries, each exactly as the maps have it. */
  lemma StepsAreEntries(entries: map<string, Local>, s: Step)
    ensures s in AllSteps(entries) <==> InSpec(entries, s)
  {
    StepsOfMembers(entries, Keys.KeyOrder(entries.Keys), s);
    hide Keys.KeyOrder, StepsOf, InPeers;
  }

  // ---- order -------------------------------------------------------------

  /** Within a local key: its own step, k8s entries, definitions, CIDRs, literal rules. */
  function Rank(s: Step): nat {
    match s
    case LocalStep(_, _) => 0
    case EntryStep(f, _, _, _, _) => (match f case K8s => 1 case Definitions => 2 case CIDRs => 3)
    case LiteralStep(_, _, _, _) => 4
  }

  function EntryKey(s: Step): string { if s.LocalStep? then "" else s.key }

  /** By local key, then by rank, then by key. */
  predicate Before(s: Step, t: Step) {
    || Keys.Less(s.localKey, t.localKey)
    || (s.localKey == t.localKey && (Rank(s) < Rank(t) || (Rank(s) == Rank(t) && Keys.Less(EntryKey(s), EntryKey(t)))))
  }

  ghost predicate InOrder(steps: seq<Step>) { forall i, j :: 0 <= i < j < |steps| ==> Before(steps[i], steps[j]) }

  lemma OrderConcat(a: seq<Step>, b: seq<Step>)
    requires InOrder(a) && InOrder(b) && forall s, t :: s in a && t in b ==> Before(s, t)
    ensures InOrder(a + b)
  {
    hide Before;
  }

  lemma {:induction false} TargetsInOrder(f: Family, k: string, source: Source, targets: map<string, Target>, keys: seq<string>)
    requires (forall key :: key in keys ==> key in targets) && Keys.Ordered(keys)
    ensures InOrder(TargetSteps(f, k, source, targets, keys))
  {
    hide Keys.Less, InOrder;
    if keys == [] {
      NoSteps();
    } else {
      var init, last := keys[..|keys| - 1], keys[|keys| - 1];
      TargetsInOrder(f, k, source, targets, init);
      var before := TargetSteps(f, k, source, targets, init);
      if targets[last].enabled {
        var s := EntryStep(f, k, source, last, targets[last]);
        forall t | t in before ensures Before(t, s) {
          TargetStepsMembers(f, k, source, targets, init, t);
          KeyBeforeLast(keys, t.key);
        }
        OneStep(s);
        OrderConcat(before, [s]);
      } else {
        assert before + [] == before;
      }
    }
  }

  lemma KeyBeforeLast(keys: seq<string>, k: string)
    requires keys != [] && Keys.Ordered(keys) && k in keys[..|keys| - 1]
    ensures Keys.Less(k, keys[|keys| - 1])
  {
    hide Keys.Less;
    var i :| 0 <= i < |keys| - 1 && keys[i] == k;
  }

  lemma NoSteps()
    ensures InOrder([])
  {
  }

  lemma OneStep(s: Step)
    ensures InOrder([s])
  {
  }

  lemma {:induction false} LiteralsInOrder(k: string, source: Source, literals: map<string, Literal>, keys: seq<string>)
    requires (forall key :: key in keys ==> key in literals) && Keys.Ordered(keys)
    ensures InOrder(LiteralSteps(k, source, literals, keys))
  {
    hide Keys.Less, InOrder;
    if keys == [] {
      NoSteps();
    } else {
      var init, last := keys[..|keys| - 1], keys[|keys| - 1];
      LiteralsInOrder(k, source, literals, init);
      var before := LiteralSteps(k, source, literals, init);
      if literals[last].enabled {
        var s := LiteralStep(k, source, last, literals[last]);
        forall t | t in before ensures Before(t, s) {
          LiteralStepsMembers(k, source, literals, init, t);
          KeyBeforeLast(keys, t.key);
        }
        OneStep(s);
        OrderConcat(before, [s]);
      } else {
        assert before + [] == before;
      }
    }
  }

  lemma PeersInOrder(k: string, source: Source)
    requires source.peers.Some?
    ensures InOrder(PeerSteps(k, source, source.peers.value))
  {
    hide Keys.Less, InOrder, Before, TargetSteps, LiteralSteps, Keys.KeyOrder;
    var peers := source.peers.value;
    var a, b, c := FamilySteps(K8s, k, source, peers), FamilySteps(Definitions, k, source, peers), FamilySteps(CIDRs, k, source, peers);
    var d := LiteralSteps(k, source, peers.literal, Keys.KeyOrder(peers.literal.Keys));
    TargetsInOrder(K8s, k, source, Targets(K8s, peers), Keys.KeyOrder(Targets(K8s, peers).Keys));
    TargetsInOrder(Definitions, k, source, Targets(Definitions, peers), Keys.KeyOrder(Targets(Definitions, peers).Keys));
    TargetsInOrder(CIDRs, k, source, Targets(CIDRs, peers), Keys.KeyOrder(Targets(CIDRs, peers).Keys));
    LiteralsInOrder(k, source, peers.literal, Keys.KeyOrder(peers.literal.Keys));
    forall s
      ensures s in a ==> Rank(s) == 1 && s.localKey == k
      ensures s in b ==> Rank(s) == 2 && s.localKey == k
      ensures s in c ==> Rank(s) == 3 && s.localKey == k
      ensures s in d ==> Rank(s) == 4 && s.localKey == k
    {
      FamilyStepsMembers(K8s, k, source, s);
      FamilyStepsMembers(Definitions, k, source, s);
      FamilyStepsMembers(CIDRs, k, source, s);
      LiteralStepsMembers(k, source, peers.literal, Keys.KeyOrder(peers.literal.Keys), s);
    }
    hide FamilySteps, Rank;
    RankDecides(k);
    OrderConcat(a, b);
    OrderConcat(a + b, c);
    OrderConcat(a + b + c, d);
  }

  lemma RankDecides(k: string)
    ensures forall s: Step, t: Step :: s.localKey == t.localKey && Rank(s) < Rank(t) ==> Before(s, t)
  {
    hide Keys.Less, Rank;
  }

  lemma LocalInOrder(entries: map<string, Local>, k: string)
    requires k in entries
    ensures InOrder(LocalSteps(k, entries[k]))
  {
    hide Keys.Less, InOrder, Before, PeerSteps;
    var local := entries[k];
    var head := LocalStep(k, local);
    OneStep(head);
    if local.Decoded? && local.source.peers.Some? {
      var rest := PeerSteps(k, local.source, local.source.peers.value);
      PeersInOrder(k, local.source);
      RankDecides(k);
      forall t | t in rest ensures Before(head, t) {
        PeerStepsMembers(k, local.source, t);
        assert Rank(head) < Rank(t);
      }
      OrderConcat([head], rest);
    } else {
      assert [head] + [] == [head];
    }
  }

  lemma {:induction false} StepsInOrder(entries: map<string, Local>, keys: seq<string>)
    requires (forall k :: k in keys ==> k in entries) && Keys.Ordered(keys)
    ensures InOrder(StepsOf(entries, keys))
  {
    hide Keys.Less, InOrder, LocalSteps;
    if keys == [] {
      NoSteps();
    } else {
      var init, last := keys[..|keys| - 1], keys[|keys| - 1];
      StepsInOrder(entries, init);
      LocalInOrder(entries, last);
      forall s, t | s in StepsOf(entries, init) && t in LocalSteps(last, entries[last]) ensures Before(s, t) {
        StepsOfMembers(entries, init, s);
        LocalStepsMembers(entries, last, t);
        KeyBeforeLast(keys, s.localKey);
      }
      OrderConcat(StepsOf(entries, init), LocalSteps(last, entries[last]));
    }
  }

  /** The steps of a specification come by local key, within it k8s before definitions before CIDRs before literal rules,
      and within each of these by key. */
  lemma SpecificationOrder(entries: map<string, Local>)
    ensures InOrder(AllSteps(entries))
  {
    hide Keys.KeyOrder, StepsOf, InOrder;
    StepsInOrder(entries, Keys.KeyOrder(entries.Keys));
  }
}
