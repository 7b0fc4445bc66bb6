/** The three passes over a shorthand specification: egress policies, ingress policies, and the
    authorization policies that accompany ingress entries. A pass runs over the steps in order; the first
    step that fails stops it, otherwise the objects of the steps are its output in step order. */
module Passes {
  import opened Common
  import opened Text
  import opened Shorthand
  import opened Kube
  import opened Spec
  import opened Steps
  import opened Builders
  import Cidr
  import Keys

  datatype PassKind = EgressNetpols | IngressNetpols | IngressAuthz

  datatype Pass = Pass(kind: PassKind, ctx: Ctx)

  // ---- one step ----------------------------------------------------------

  function One(m: Manifest, meta: Option<Metadata>): Result<seq<Manifest>> { Ok([ApplyShorthandMetadata(m, meta)]) }

  function EmitEgress(c: Ctx, s: Step, except: seq<string>): Result<seq<Manifest>> {
    match s
    case LocalStep(k, local) => if local.Malformed? then Err(MalformedValue(k)) else Ok([])
    case EntryStep(K8s, k, source, key, target) =>
      (match ParseEgressRemoteKey(key)
       case Err(e) => Err(e)
       case Ok(r) => One(BuildEgressK8s(c, k, source, key, r, target), MergeShorthandMetadata(source.metadata, target.metadata)))
    case EntryStep(Definitions, k, source, key, target) =>
      (match ResolveEgressDefinition(c, key)
       case Err(e) => Err(e)
       case Ok(def) => One(BuildEgressDefinition(c, k, source, key, def), MergeShorthandMetadata(source.metadata, target.metadata)))
    case EntryStep(CIDRs, k, source, key, target) =>
      (match ParseEgressCIDRKey(key)
       case Err(e) => Err(e)
       case Ok(r) => One(BuildEgressCIDR(c, k, source, key, r, except), MergeShorthandMetadata(source.metadata, target.metadata)))
    case LiteralStep(k, source, key, lit) =>
      if !IsName(key) then Err(BadRuleKey(key))
      else if lit.rules.None? then Err(MalformedValue(key))
      else One(BuildEgressLiteral(c, k, source, key, lit.yaml, lit.rules.value), MergeShorthandMetadata(source.metadata, lit.metadata))
  }

  /** The destination an ingress step belongs to; a destination without peers is skipped unparsed. */
  function IngressLocal(s: Step): Result<Option<LocalKey>> {
    if s.LocalStep? && s.local.Malformed? then Err(MalformedValue(s.localKey))
    else if s.LocalStep? && s.local.source.peers.None? then Ok(None)
    else match ParseIngressLocalKey(s.localKey)
         case Err(e) => Err(e)
         case Ok(local) => Ok(Some(local))
  }

  function EmitIngress(c: Ctx, s: Step): Result<seq<Manifest>> {
    match IngressLocal(s)
    case Err(e) => Err(e)
    case Ok(None) => Ok([])
    case Ok(Some(local)) =>
      match s
      case LocalStep(_, _) => Ok([])
      case EntryStep(K8s, _, source, key, target) =>
        (match ParseIngressRemoteKey(key)
         case Err(e) => Err(e)
         case Ok(r) => One(BuildIngressK8s(c, local, source, key, r, target), MergeShorthandMetadata(source.metadata, target.metadata)))
      case EntryStep(Definitions, _, source, key, target) =>
        (match ResolveIngressDefinition(c, key)
         case Err(e) => Err(e)
         case Ok(def) => One(BuildIngressDefinition(c, local, source, key, def), MergeShorthandMetadata(source.metadata, target.metadata)))
      case EntryStep(CIDRs, _, source, key, target) =>
        (match ParseIngressCIDRKey(key)
         case Err(e) => Err(e)
         case Ok(r) => One(BuildIngressCIDR(c, local, source, key, r), MergeShorthandMetadata(source.metadata, target.metadata)))
      case LiteralStep(_, source, key, lit) =>
        if !IsName(key) then Err(BadRuleKey(key))
        else if lit.rules.None? then Err(MalformedValue(key))
        else One(BuildIngressLiteral(c, local, source, key, lit.yaml, lit.rules.value), MergeShorthandMetadata(source.metadata, lit.metadata))
  }

  /** The authorization pass looks at k8s and cidr entries only. */
  predicate Authorizes(s: Step) { s.EntryStep? && s.family != Definitions }

  function EmitAuthz(c: Ctx, s: Step): Result<seq<Manifest>> {
    if !s.LocalStep? && !Authorizes(s) then Ok([])
    else
      match IngressLocal(s)
      case Err(e) => Err(e)
      case Ok(None) => Ok([])
      case Ok(Some(local)) =>
        if s.LocalStep? then Ok([])
        else if s.family == K8s then
          match ParseIngressRemoteKey(s.key)
          case Err(e) => Err(e)
          case Ok(r) => One(BuildAuthzK8s(c, local, s.source, s.key, r), MergeShorthandMetadata(s.source.metadata, s.target.metadata))
        else
          match ParseIngressCIDRKey(s.key)
          case Err(e) => Err(e)
          case Ok(r) => One(BuildAuthzCIDR(c, local, s.source, s.key, r), MergeShorthandMetadata(s.source.metadata, s.target.metadata))
  }

  /** The exceptions of an egress CIDR entry. */
  ghost function ExceptOf(c: Ctx, s: Step): seq<string> {
    if s.EntryStep? && s.family == CIDRs && ParseEgressCIDRKey(s.key).Ok? then
      Cidr.Exclusions(ParseEgressCIDRKey(s.key).value.cidr, ExcludeCIDRs(c.spec))
    else []
  }

  ghost function Emit(p: Pass, s: Step): Result<seq<Manifest>> {
    match p.kind
    case EgressNetpols => EmitEgress(p.ctx, s, ExceptOf(p.ctx, s))
    case IngressNetpols => EmitIngress(p.ctx, s)
    case IngressAuthz => EmitAuthz(p.ctx, s)
  }

  // ---- a run of steps ----------------------------------------------------

  /** One run after another: the first failure wins, otherwise the outputs are appended. */
  function Then(a: Result<seq<Manifest>>, b: Result<seq<Manifest>>): Result<seq<Manifest>> {
    if a.Err? then a else if b.Err? then b else Ok(a.value + b.value)
  }

  ghost function Run(p: Pass, steps: seq<Step>): Result<seq<Manifest>> {
    if steps == [] then Ok([]) else Then(Run(p, steps[..|steps| - 1]), Emit(p, steps[|steps| - 1]))
  }

  lemma ThenAssociative(a: Result<seq<Manifest>>, b: Result<seq<Manifest>>, c: Result<seq<Manifest>>)
    ensures Then(Then(a, b), c) == Then(a, Then(b, c))
  {
    if a.Ok? && b.Ok? && c.Ok? {
      assert a.value + b.value + c.value == a.value + (b.value + c.value);
    }
  }

  lemma ThenEmpty(a: Result<seq<Manifest>>)
    ensures Then(a, Ok([])) == a
  {
    if a.Ok? {
      assert a.value + [] == a.value;
    }
  }

  lemma {:induction false} RunConcat(p: Pass, a: seq<Step>, b: seq<Step>)
    ensures Run(p, a + b) == Then(Run(p, a), Run(p, b))
    decreases |b|
  {
    hide Emit, Then;
    if b == [] {
      assert a + b == a;
      ThenEmpty(Run(p, a));
    } else {
      var init, last := b[..|b| - 1], b[|b| - 1];
      assert (a + b)[..|a + b| - 1] == a + init;
      RunConcat(p, a, init);
      ThenAssociative(Run(p, a), Run(p, init), Emit(p, last));
    }
  }

  lemma RunEmpty(p: Pass)
    ensures Run(p, []) == Ok([])
  {
  }

  lemma RunSnoc(p: Pass, a: seq<Step>, s: Step)
    ensures Run(p, a + [s]) == Then(Run(p, a), Emit(p, s))
  {
    hide Emit, Then;
    assert (a + [s])[..|a|] == a;
  }

  lemma {:induction false} RunOk(p: Pass, steps: seq<Step>)
    ensures Run(p, steps).Ok? <==> forall s :: s in steps ==> Emit(p, s).Ok?
    decreases |steps|
  {
    hide Emit;
    if steps != [] {
      var init, last := steps[..|steps| - 1], steps[|steps| - 1];
      assert steps == init + [last];
      RunOk(p, init);
    }
  }

  /** The output of a successful run is the union of what its steps emit. */
  lemma {:induction false} RunMembers(p: Pass, steps: seq<Step>, m: Manifest)
    requires Run(p, steps).Ok?
    ensures m in Run(p, steps).value <==> exists s :: s in steps && Emits(p, s, m)
    decreases |steps|
  {
    hide Emit;
    if steps != [] {
      var init, last := steps[..|steps| - 1], steps[|steps| - 1];
      RunMembers(p, init, m);
      assert m in Run(p, steps).value <==> m in Run(p, init).value || Emits(p, last, m);
      assert forall s :: s in steps <==> s in init || s == last by { assert steps == init + [last]; }
    }
  }

  ghost predicate Emits(p: Pass, s: Step, m: Manifest) { Emit(p, s).Ok? && m in Emit(p, s).value }

  /** A run over steps the pass ignores produces nothing. */
  lemma {:induction false} RunSilent(p: Pass, steps: seq<Step>)
    requires forall s :: s in steps ==> Emit(p, s) == Ok([])
    ensures Run(p, steps) == Ok([])
    decreases |steps|
  {
    hide Emit;
    if steps != [] {
      RunSilent(p, steps[..|steps| - 1]);
      ThenEmpty(Ok([]));
    }
  }

  // ---- the loops ---------------------------------------------------------

  method EmitStep(p: Pass, s: Step) returns (r: Result<seq<Manifest>>)
    ensures r == Emit(p, s)
  {
    match p.kind
    case EgressNetpols =>
      var except: seq<string> := [];
      if s.EntryStep? && s.family == CIDRs {
        var parsed := ParseEgressCIDRKey(s.key);
        if parsed.Ok? {
          except := Cidr.ApplyExcludeCIDRs(parsed.value.cidr, ExcludeCIDRs(p.ctx.spec));
        }
      }
      r := EmitEgress(p.ctx, s, except);
    case IngressNetpols => r := EmitIngress(p.ctx, s);
    case IngressAuthz => r := EmitAuthz(p.ctx, s);
  }

  /** The loop over the enabled entries of one family. */
  method ExpandTargets(p: Pass, f: Family, localKey: string, source: Source, peers: PeerSpec)
    returns (r: Result<seq<Manifest>>)
    ensures r == Run(p, FamilySteps(f, localKey, source, peers))
  {
    hide Keys.KeyOrder, Emit, Run, TargetSteps;
    var targets := Targets(f, peers);
    var keys := Keys.SortedKeys(targets);
    RunEmpty(p);
    NoTargetSteps(f, localKey, source, targets);
    var out: seq<Manifest> := [];
    for n := 0 to |keys|
      invariant Run(p, TargetSteps(f, localKey, source, targets, keys[..n])) == Ok(out)
    {
      NextTargetSteps(f, localKey, source, targets, keys, n);
      var target := targets[keys[n]];
      if !target.enabled {
        continue;
      }
      var s := EntryStep(f, localKey, source, keys[n], target);
      var one := EmitStep(p, s);
      RunSnoc(p, TargetSteps(f, localKey, source, targets, keys[..n]), s);
      if one.Err? {
        TargetPrefix(p, f, localKey, source, targets, keys, n + 1);
        return one;
      }
      out := out + one.value;
    }
    assert keys[..|keys|] == keys;
    return Ok(out);
  }

  lemma NoTargetSteps(f: Family, localKey: string, source: Source, targets: map<string, Target>)
    ensures TargetSteps(f, localKey, source, targets, []) == []
  {
  }

  lemma NextTargetSteps(f: Family, localKey: string, source: Source, targets: map<string, Target>, keys: seq<string>, n: nat)
    requires (forall k :: k in keys ==> k in targets) && n < |keys|
    ensures var done, next := TargetSteps(f, localKey, source, targets, keys[..n]), TargetSteps(f, localKey, source, targets, keys[..n + 1]);
            next == if targets[keys[n]].enabled then done + [EntryStep(f, localKey, source, keys[n], targets[keys[n]])] else done
  {
    assert keys[..n + 1][..n] == keys[..n];
    var done := TargetSteps(f, localKey, source, targets, keys[..n]);
    assert done + [] == done;
  }

  lemma {:induction false} TargetPrefix(p: Pass, f: Family, localKey: string, source: Source, targets: map<string, Target>,
                                        keys: seq<string>, n: nat)
    requires (forall k :: k in keys ==> k in targets) && n <= |keys|
    requires Run(p, TargetSteps(f, localKey, source, targets, keys[..n])).Err?
    ensures Run(p, TargetSteps(f, localKey, source, targets, keys)) == Run(p, TargetSteps(f, localKey, source, targets, keys[..n]))
    decreases |keys|
  {
    if n == |keys| {
      assert keys[..n] == keys;
    } else {
      var init := keys[..|keys| - 1];
      assert init[..n] == keys[..n];
      TargetPrefix(p, f, localKey, source, targets, init, n);
      var k := keys[|keys| - 1];
      RunConcat(p, TargetSteps(f, localKey, source, targets, init),
                if targets[k].enabled then [EntryStep(f, localKey, source, k, targets[k])] else []);
      hide Emit, Run;
    }
  }

  /** The loop over the enabled literal rules. */
  method ExpandLiterals(p: Pass, localKey: string, source: Source, literals: map<string, Literal>)
    returns (r: Result<seq<Manifest>>)
    ensures r == Run(p, LiteralSteps(localKey, source, literals, Keys.KeyOrder(literals.Keys)))
  {
    hide Keys.KeyOrder, Emit, Run, LiteralSteps;
    var keys := Keys.SortedKeys(literals);
    RunEmpty(p);
    NoLiteralSteps(localKey, source, literals);
    var out: seq<Manifest> := [];
    for n := 0 to |keys|
      invariant Run(p, LiteralSteps(localKey, source, literals, keys[..n])) == Ok(out)
    {
      NextLiteralSteps(localKey, source, literals, keys, n);
      var lit := literals[keys[n]];
      if !lit.enabled {
        continue;
      }
      var s := LiteralStep(localKey, source, keys[n], lit);
      var one := EmitStep(p, s);
      RunSnoc(p, LiteralSteps(localKey, source, literals, keys[..n]), s);
      if one.Err? {
        LiteralPrefix(p, localKey, source, literals, keys, n + 1);
        return one;
      }
      out := out + one.value;
    }
    assert keys[..|keys|] == keys;
    return Ok(out);
  }

  lemma NoLiteralSteps(localKey: string, source: Source, literals: map<string, Literal>)
    ensures LiteralSteps(localKey, source, literals, []) == []
  {
  }

  lemma NextLiteralSteps(localKey: string, source: Source, literals: map<string, Literal>, keys: seq<string>, n: nat)
    requires (forall k :: k in keys ==> k in literals) && n < |keys|
    ensures var done, next := LiteralSteps(localKey, source, literals, keys[..n]), LiteralSteps(localKey, source, literals, keys[..n + 1]);
            next == if literals[keys[n]].enabled then done + [LiteralStep(localKey, source, keys[n], literals[keys[n]])] else done
  {
    assert keys[..n + 1][..n] == keys[..n];
    var done := LiteralSteps(localKey, source, literals, keys[..n]);
    assert done + [] == done;
  }

  lemma {:induction false} LiteralPrefix(p: Pass, localKey: string, source: Source, literals: map<string, Literal>,
                                         keys: seq<string>, n: nat)
    requires (forall k :: k in keys ==> k in literals) && n <= |keys|
    requires Run(p, LiteralSteps(localKey, source, literals, keys[..n])).Err?
    ensures Run(p, LiteralSteps(localKey, source, literals, keys)) == Run(p, LiteralSteps(localKey, source, literals, keys[..n]))
    decreases |keys|
  {
    hide Emit, Run;
    if n == |keys| {
      assert keys[..n] == keys;
    } else {
      var init := keys[..|keys| - 1];
      assert init[..n] == keys[..n];
      LiteralPrefix(p, localKey, source, literals, init, n);
      var k := keys[|keys| - 1];
      RunConcat(p, LiteralSteps(localKey, source, literals, init),
                if literals[k].enabled then [LiteralStep(localKey, source, k, literals[k])] else []);
    }
  }

  /** The four loops under one local key; the authorization pass has only two of them. */
  method ExpandPeers(p: Pass, localKey: string, source: Source) returns (r: Result<seq<Manifest>>)
    requires source.peers.Some?
    ensures r == Run(p, PeerSteps(localKey, source, source.peers.value))
  {
    var peers := source.peers.value;
    ghost var a, b, c := FamilySteps(K8s, localKey, source, peers), FamilySteps(Definitions, localKey, source, peers),
                         FamilySteps(CIDRs, localKey, source, peers);
    ghost var d := LiteralSteps(localKey, source, peers.literal, Keys.KeyOrder(peers.literal.Keys));
    RunFour(p, a, b, c, d);
    if p.kind == IngressAuthz {
      SilentSteps(p, localKey, source);
    }
    hide Run, FamilySteps, LiteralSteps, Keys.KeyOrder, Emit;
    r := ExpandTargets(p, K8s, localKey, source, peers);
    if r.Err? {
      return;
    }
    var out := r.value;
    if p.kind != IngressAuthz {
      r := ExpandTargets(p, Definitions, localKey, source, peers);
      if r.Err? {
        return;
      }
      out := out + r.value;
    } else {
      assert out + [] == out;
    }
    r := ExpandTargets(p, CIDRs, localKey, source, peers);
    if r.Err? {
      return;
    }
    out := out + r.value;
    if p.kind != IngressAuthz {
      r := ExpandLiterals(p, localKey, source, peers.literal);
      if r.Err? {
        return;
      }
      out := out + r.value;
    } else {
      assert out + [] == out;
    }
    return Ok(out);
  }

  lemma RunFour(p: Pass, a: seq<Step>, b: seq<Step>, c: seq<Step>, d: seq<Step>)
    ensures Run(p, a + b + c + d) == Then(Then(Then(Run(p, a), Run(p, b)), Run(p, c)), Run(p, d))
  {
    hide Run, Then;
    RunConcat(p, a + b + c, d);
    RunConcat(p, a + b, c);
    RunConcat(p, a, b);
  }

  lemma SilentSteps(p: Pass, localKey: string, source: Source)
    requires p.kind == IngressAuthz && source.peers.Some?
    ensures Run(p, FamilySteps(Definitions, localKey, source, source.peers.value)) == Ok([])
    ensures Run(p, LiteralSteps(localKey, source, source.peers.value.literal, Keys.KeyOrder(source.peers.value.literal.Keys))) == Ok([])
  {
    var literals := source.peers.value.literal;
    var a, b := FamilySteps(Definitions, localKey, source, source.peers.value),
                LiteralSteps(localKey, source, literals, Keys.KeyOrder(literals.Keys));
    hide Keys.KeyOrder, FamilySteps, LiteralSteps, Run;
    forall s | s in a ensures Emit(p, s) == Ok([]) {
      FamilyStepsMembers(Definitions, localKey, source, s);
    }
    forall s | s in b ensures Emit(p, s) == Ok([]) {
      LiteralStepsMembers(localKey, source, literals, Keys.KeyOrder(literals.Keys), s);
    }
    RunSilent(p, a);
    RunSilent(p, b);
  }

  /** The outer loop over the local keys. */
  method Expand(p: Pass, entries: map<string, Local>) returns (r: Result<seq<Manifest>>)
    ensures r == Run(p, AllSteps(entries))
  {
    var keys := Keys.SortedKeys(entries);
    hide Keys.KeyOrder, Run, Emit, LocalSteps;
    RunEmpty(p);
    var out: seq<Manifest> := [];
    for n := 0 to |keys|
      invariant Run(p, StepsOf(entries, keys[..n])) == Ok(out)
    {
      assert keys[..n + 1][..n] == keys[..n];
      r := ExpandLocal(p, keys[n], entries[keys[n]]);
      RunConcat(p, StepsOf(entries, keys[..n]), LocalSteps(keys[n], entries[keys[n]]));
      if r.Err? {
        StepsPrefix(p, entries, keys, n + 1);
        return;
      }
      out := out + r.value;
    }
    assert keys[..|keys|] == keys;
    return Ok(out);
  }

  lemma {:induction false} StepsPrefix(p: Pass, entries: map<string, Local>, keys: seq<string>, n: nat)
    requires (forall k :: k in keys ==> k in entries) && n <= |keys| && Run(p, StepsOf(entries, keys[..n])).Err?
    ensures Run(p, StepsOf(entries, keys)) == Run(p, StepsOf(entries, keys[..n]))
    decreases |keys|
  {
    hide Emit, Run, LocalSteps;
    if n == |keys| {
      assert keys[..n] == keys;
    } else {
      var init, last := keys[..|keys| - 1], keys[|keys| - 1];
      assert init[..n] == keys[..n];
      StepsPrefix(p, entries, init, n);
      RunConcat(p, StepsOf(entries, init), LocalSteps(last, entries[last]));
    }
  }

  lemma HeadEmitsNothing(p: Pass, localKey: string, local: Local)
    ensures var r := Emit(p, LocalStep(localKey, local)); r.Ok? ==> local.Decoded? && r.value == []
  {
  }

  lemma LocalRun(p: Pass, localKey: string, local: Local)
    ensures var head := Emit(p, LocalStep(localKey, local));
            Run(p, LocalSteps(localKey, local)) ==
            if head.Err? then head
            else if local.source.peers.None? then Ok([])
            else Run(p, PeerSteps(localKey, local.source, local.source.peers.value))
  {
    HeadEmitsNothing(p, localKey, local);
    hide Emit, PeerSteps;
    var head := LocalStep(localKey, local);
    var rest := if local.Decoded? && local.source.peers.Some?
                then PeerSteps(localKey, local.source, local.source.peers.value) else [];
    RunEmpty(p);
    RunSnoc(p, [], head);
    assert [] + [head] == [head];
    hide Run;
    RunConcat(p, [head], rest);
    ThenOfEmpty(Emit(p, head));
    ThenOfEmpty(Run(p, rest));
  }

  lemma ThenOfEmpty(b: Result<seq<Manifest>>)
    ensures Then(Ok([]), b) == b
  {
    if b.Ok? {
      assert [] + b.value == b.value;
    }
  }

  /** One local key: decode, skip without peers, otherwise the inner loops. */
  method ExpandLocal(p: Pass, localKey: string, local: Local) returns (r: Result<seq<Manifest>>)
    ensures r == Run(p, LocalSteps(localKey, local))
  {
    r := EmitStep(p, LocalStep(localKey, local));
    HeadEmitsNothing(p, localKey, local);
    LocalRun(p, localKey, local);
    hide Run, PeerSteps, LocalSteps, Emit;
    if r.Err? || local.source.peers.None? {
      return;
    }
    r := ExpandPeers(p, localKey, local.source);
  }
}
