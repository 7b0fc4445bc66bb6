# Verified model of the Package operator

The operator reads a `Package` and turns it into NetworkPolicies, AuthorizationPolicies, VirtualServices and
ServiceEntries (the generator, `pkg/generator`), then applies them to the cluster, sweeps what is no longer wanted and
reports a status (the controller, `internal/controller`). This project models both halves in Dafny and proves what they
promise. `dafny verify dfyconfig.toml` checks everything.

How the pieces fit together:

- **Keys and addresses.** `Text`, `Shorthand` and `Grammar` read and print the shorthand keys; `Cidr` holds IPv4 blocks
  in the prefix notation of section 3.1 of RFC 4632 and the exclusion arithmetic; `Ports` and `Names` are the port lists
  and object names made from parsed keys.
- **Meaning.** `Kube` defines what a set of NetworkPolicies allows: a pod is isolated in a direction once a policy
  selects it, and its allowed connections are the union of the rules. `Denotation` and `Meaning` say what definitions and
  shorthand entries stand for, without compiled rules, and prove that the compiled policies say the same.
- **The generator.** `Keys`, `Steps` and `Passes` are the loops over the specification's maps; `Switches` says what a
  specification's switches ask for; `Builders`, `Defaults`, `Routes` and `RouteObjects` are the objects; `Lockstep` the agreement of the ingress and the authorization pass; `Hbone`,
  `Metadata` and `Objects` the passes that edit generated objects in place; `Generate` the whole. `Safety`, `Traffic`,
  `Enabling`, `Callers` and `Provenance` hold the theorems about complete outputs.
- **The controller.** `Cluster` is the API server with forced server-side apply and calls that may fail before or after
  taking effect; `Moves`, `Convergence` and `Reconcile` one run; `Interleave` several Packages at once; `Status`,
  `Transitions` and `StatusRuns` the conditions. A run of `Reconcile` is proved to be a sequence of the very moves and
  events that the last ones let interleave.

What an operation means is stated on the fields and texts of the specification, not through the operation's own helpers.
Loops that the generator and the controller run over mutable state are methods, each proved equal to a specification
function; the theorems are lemmas about those functions. Maps may be iterated in any order; a method that ensures a
function of its input therefore gives the same result for every order.

Where the code and its own documentation differ, the model follows the code:

- An exclusion is documented to be emitted only when strictly contained in the rule. The code compares texts, so an
  exclusion that respells the rule's own block is emitted too and empties the rule (`Cidr.StrictUnlessRespelled`).
- The comments on the parsed remote key say that `*` becomes the empty string; the code keeps `*`.
- Ports are converted to 32 bits: a listed port above that range opens another port (`Ports.PortsAgreeExactly`). A
  range in reverse order restricts a NetworkPolicy to nothing and an AuthorizationPolicy not at all
  (`Lockstep.PortsAgreeInStep`).
- A named or zero route port becomes 0: the NetworkPolicy then opens port 0 only and the AuthorizationPolicy every port
  (`RouteObjects.WorkloadPortsAgree`). A passthrough VirtualService is sent to the service port, not to the workload
  port its policies open (`RouteObjects.DestinationPortAgrees`).
- A port range that starts at 15008 and runs backwards is taken for the injected port, which is then missing
  (`Hbone.TunnelOpen`).
- A range that ends at the largest 64-bit integer makes the counting loop of the authorization policy run forever
  (`Builders.CounterStopsExactly`).
- A shorthand key with an identity in namespace `*` yields a principal that no account has
  (`Callers.IdentityAnywhere`).

## Model

| member | source | states |
|---|---|---|
| Keys.SortedKeys | pkg/generator/util.go:10-17 | whatever order the map yields its keys in, the result is the one sorted list of exactly its keys |
| Keys.OrderIsUnique | pkg/generator/util.go:10-17 | two strictly ordered lists with the same members are equal, so sorting leaves no choice |
| Keys.LessExactly | pkg/generator/util.go:10-17 | ascending means: by the first character that differs, and a text before its extensions |
| Text.CharacterClasses | pkg/generator/shorthand.go:50-61 | the character classes of the key patterns, spelled out |
| Shorthand.PortSpecMeaning | pkg/generator/shorthand.go:179-201 | on port text the patterns accept, parsing fails exactly when a number overflows 64 bits, and otherwise yields the written numbers and whether they are a range |
| Shorthand.FitsExactly | pkg/generator/shorthand.go:192-199 | a list of numbers is readable iff each is at most 2^63 - 1, the largest 64-bit integer |
| Shorthand.ParsePortSpec | pkg/generator/shorthand.go:179-201 | the loop over the comma-separated parts computes the port specification function |
| Grammar.EgressGroupsRead | pkg/generator/shorthand.go:63-89 | a key composed of scheme, namespace, pod and port part is cut back into exactly these parts |
| Grammar.EgressAcceptedExactly | pkg/generator/shorthand.go:63-89 | an egress key is accepted iff it matches the documented grammar and its numbers fit in 64 bits |
| Grammar.LocalAcceptedExactly | pkg/generator/shorthand.go:110-131 | the same for local ingress keys |
| Grammar.CIDRAcceptedExactly | pkg/generator/shorthand.go:145-168 | the same for egress CIDR keys |
| Grammar.EgressRoundTrip | pkg/generator/shorthand.go:63-89 | parsing inverts printing on every well-formed structured egress key |
| Grammar.IngressRoundTrip | pkg/generator/shorthand.go:91-108 | parsing inverts printing on every well-formed ingress remote key, with or without identity |
| Grammar.LocalRoundTrip | pkg/generator/shorthand.go:110-131 | parsing inverts printing on every well-formed local ingress key |
| Grammar.CIDRRoundTrip | pkg/generator/shorthand.go:145-168 | parsing inverts printing on every well-formed egress CIDR key |
| Grammar.EgressParsePrint | pkg/generator/shorthand.go:63-89 | every accepted key has non-negative ports, a range flag only with two of them, and printing and parsing its result again changes nothing |
| Grammar.IngressParsePrint | pkg/generator/shorthand.go:91-108 | the same for ingress remote keys, which never carry ports |
| Grammar.LocalParsePrint | pkg/generator/shorthand.go:110-131 | the same for local ingress keys |
| Grammar.CIDRParsePrint | pkg/generator/shorthand.go:145-168 | the same for egress CIDR keys |
| Grammar.EgressScheme | pkg/generator/shorthand.go:67-72 | the protocol of an accepted egress key is UDP iff its text starts with `udp://`, and an explicit `tcp://` changes nothing |
| Grammar.LocalScheme | pkg/generator/shorthand.go:114-119 | the same for local ingress keys |
| Grammar.CIDRScheme | pkg/generator/shorthand.go:149-154 | the same for egress CIDR keys |
| Grammar.BareList | pkg/generator/shorthand.go:177-201 | a port list means the same with and without its brackets |
| Cidr.CIDRText | pkg/generator/networkpolicies.go:78-81 | four octets, the first the most significant, a slash and a mask up to 32 name the block of that address and prefix |
| Cidr.CIDRTextOnly | pkg/generator/networkpolicies.go:78-90 | no other text names a block; in particular octets have no leading zeros and are at most 255 |
| Cidr.ExtremeBlocks | pkg/generator/networkpolicies.go:91-98 | prefix 32 names one address, prefix 0 all of them |
| Cidr.HalfBlock | pkg/generator/networkpolicies.go:91-98 | one more bit of prefix keeps the half of the block that agrees in this bit |
| Cidr.ContainmentTest | pkg/generator/networkpolicies.go:91-98 | prefix comparison plus one address test holds iff the exclusion's address set is a subset of the rule's |
| Cidr.NestedOrDisjoint | pkg/generator/networkpolicies.go:91-98 | two blocks that share an address are nested |
| Cidr.ApplyExcludeCIDRs | pkg/generator/networkpolicies.go:74-105 | returns, in order, exactly the parseable, textually different, contained exclusions |
| Cidr.EmittedBlock | pkg/generator/networkpolicies_shorthand.go:310-316 | the emitted block admits an address iff the rule contains it and every other exclusion text containing it is a strict superset of the rule |
| Cidr.StrictUnlessRespelled | pkg/generator/networkpolicies.go:71-86 | all emitted exclusions are strictly contained iff no exclusion respells the rule's own block |
| Cidr.RespelledExample | pkg/generator/networkpolicies.go:84-86 | a concrete family of exclusions that respell 0.0.0.0/0 and slip through the text comparison |
| Ports.BuildNetpolPorts | pkg/generator/networkpolicies.go:131-150 | the port loop computes the policy ports, with ranges as end ports and 32-bit conversion |
| Ports.PortsOfKey | pkg/generator/networkpolicies.go:131-150 | when truncation brings no other port into range, the policy ports admit exactly the connections the key's ports mean |
| Ports.PortsAgreeExactly | pkg/generator/networkpolicies.go:139-148 | they do so for every connection iff truncation to 32 bits brings no unlisted port into range |
| Ports.KeepsLowBits | pkg/generator/networkpolicies.go:139-148 | conversion to 32 bits changes a number by a multiple of 2^32 only |
| Ports.ProtocolMatters | pkg/generator/networkpolicies.go:135-138 | policy ports admit connections of the key's protocol only: "UDP" for UDP, else "TCP" |
| Ports.TruncationExample | pkg/generator/networkpolicies.go:144-147 | a port list that fails the condition: 2^32 + 80 opens port 80 |
| Names.NamePortSuffix | pkg/generator/names.go:44-62 | the loop over the ports builds the port segment |
| Names.CIDRSegmentInjective | pkg/generator/names.go:33-36 | CIDR texts with the same name segment, whatever follows it, are equal |
| Names.PortSuffixInjective | pkg/generator/names.go:44-62 | parsed port lists with the same name segment are equal, including the range flag |
| Names.SameNameSameRule | pkg/generator/networkpolicies_shorthand.go:286-318 | two egress CIDR rules of one local key with the same name have the same CIDR and the same policy ports |
| Steps.StepsAreEntries | pkg/generator/networkpolicies_shorthand.go:25-83 | the steps the generator visits are exactly the enabled entries of the specification |
| Steps.SpecificationOrder | pkg/generator/networkpolicies_shorthand.go:25-83 | the steps come by local key, within it k8s, definitions, CIDRs and literal rules, and within these by key |
| Builders.BuildDefinition | pkg/generator/definitions.go:339-374 | the loops over a definition's peers and ports yield the typed rule, with absent fields left absent |
| Builders.BuildAuthzPorts | pkg/generator/authorizationpolicies.go:288-300 | a range is written out port by port, a list as it is |
| Builders.CountUpMembers | pkg/generator/authorizationpolicies.go:290-293 | the written-out range holds exactly the numbers from its first to its last port |
| Builders.CountUpAt | pkg/generator/authorizationpolicies.go:290-293 | they are written in ascending order |
| Builders.CounterStopsExactly | pkg/generator/authorizationpolicies.go:291-293 | the 64-bit counter of that loop gets past the end iff the range is empty or ends below the largest 64-bit integer |
| Passes.ExpandTargets | pkg/generator/networkpolicies_shorthand.go:33-71 | the loop over one family of entries is a run over its enabled entries in key order, stopping at the first failure |
| Passes.ExpandLiterals | pkg/generator/networkpolicies_shorthand.go:72-83 | the same for literal rules |
| Passes.ExpandPeers | pkg/generator/networkpolicies_shorthand.go:33-83 | the four inner loops in order; the authorization pass has two of them |
| Passes.Expand | pkg/generator/networkpolicies_shorthand.go:21-157 | the expansion of a whole specification is a run over its steps, for every iteration order of the maps |
| Passes.RunMembers | pkg/generator/networkpolicies_shorthand.go:21-157 | the objects of a successful run are the union of what its steps emit |
| Passes.RunOk | pkg/generator/networkpolicies_shorthand.go:21-157 | a run succeeds iff every step does |
| Denotation.TypedPeerMeans | pkg/generator/definitions.go:214-245 | an absent definition selector reaches the policy's own namespace, an explicitly empty one every namespace |
| Denotation.TypedPortMeans | pkg/generator/definitions.go:357-372 | an unset protocol is TCP, an unset port every port, and an end port makes a range |
| Denotation.ResolvesExactly | pkg/generator/definitions.go:89-145 | a name resolves iff the first layer declaring it, own, shared or built-in, is readable and does so decodably |
| Denotation.ResolvedMeans | pkg/generator/definitions.go:29-145 | the resolved rule admits exactly the peers and ports the declaring layer describes |
| Meaning.EgressStep | pkg/generator/networkpolicies_shorthand.go:159-215 | the policy of one egress entry admits exactly the connections its key, or the definition its key names, stands for |
| Meaning.IngressStep | pkg/generator/networkpolicies_shorthand.go:217-271 | the policy of one ingress entry admits exactly the connections its keys, or the definition its key names, stand for |
| Meaning.EgressCompiled | pkg/generator/networkpolicies_shorthand.go:21-86 | the egress policies admit exactly the union of the meanings of the enabled entries |
| Meaning.IngressCompiled | pkg/generator/networkpolicies_shorthand.go:88-157 | the ingress policies admit exactly the union of the meanings of the enabled entries |
| Meaning.PrintedEgressMeans | pkg/generator/shorthand.go:17-39 | an entry whose key is printed from a structured key means what the structured key says |
| Meaning.PrintedCIDRMeans | pkg/generator/shorthand.go:145-168 | the same for egress CIDR keys |
| Meaning.PrintedIngressMeans | pkg/generator/shorthand.go:91-131 | the same for ingress keys, with ports on the local key |
| Meaning.EgressProtocol | pkg/generator/shorthand.go:63-89 | an egress key with ports opens them for the protocol its text names and for no other |
| Meaning.CIDRProtocol | pkg/generator/shorthand.go:145-168 | the same for egress CIDR keys |
| Meaning.IngressProtocol | pkg/generator/shorthand.go:110-131 | the same for the ports of local ingress keys |
| Meaning.MetadataServiceExcluded | pkg/generator/networkpolicies.go:17-19 | without a list of exclusions no egress CIDR entry opens 169.254.169.254, unless its CIDR is the text of that very address |
| Meaning.NoExclusions | pkg/generator/networkpolicies.go:62-69 | an explicitly empty list opens the whole block |
| Meaning.EgressSucceeds | pkg/generator/networkpolicies_shorthand.go:21-86 | the egress entries compile iff no value is malformed, every key matches its grammar and fits, every name is defined and every literal rule readable |
| Meaning.IngressSucceeds | pkg/generator/networkpolicies_shorthand.go:88-157 | the same for ingress entries; the key of a destination without peers is not even read |
| Lockstep.InOrder | pkg/generator/authorizationpolicies.go:132-182 | if the ingress policies compile, the authorization pass succeeds and emits one policy per enabled k8s and cidr entry, in matching order |
| Lockstep.Companions | pkg/generator/authorizationpolicies.go:184-243 | the two policies of an entry select the same pods with the ports of the same local key; those of a cidr entry share name and block |
| Lockstep.PortsAgreeInStep | pkg/generator/authorizationpolicies.go:215-227 | the written-out port list admits the ports of the NetworkPolicy iff truncation and range order do not interfere |
| Lockstep.RealPortsInStep | pkg/generator/authorizationpolicies.go:215-227 | ordered ranges and lists within 0..65535 always agree |
| Hbone.InjectedRule | pkg/generator/hbone.go:74-87 | an injected rule admits what it admitted plus exactly TCP/15008 toward its own peers |
| Hbone.InjectExactly | pkg/generator/hbone.go:74-87 | TCP/15008 is appended to exactly the rules that name pods or namespaces, restrict ports and lack it; nothing else in a rule changes |
| Hbone.InjectedObject | pkg/generator/hbone.go:36-60 | other objects are untouched; a policy changes in the ports of its rules, and gets the marker label iff one rule gained the port |
| Hbone.InjectedPolicy | pkg/generator/hbone.go:36-60 | a policy isolates the same pods, loses no connection and gains exactly the tunnels of its port-gaining rules |
| Hbone.TunnelOpen | pkg/generator/hbone.go:74-87 | after injection a selector rule admits the tunnel iff it did not look as if it had the port already or one of its own ports admits it |
| Hbone.TunnelClosed | pkg/generator/hbone.go:80-84 | a rule whose only port is a backward range starting at 15008 stays closed |
| Hbone.InjectTwice | pkg/generator/hbone.go:74-87 | injecting twice is injecting once |
| Objects.PeerHasK8sSelector | pkg/generator/hbone.go:62-69 | finds whether some peer has a namespace or pod selector |
| Objects.InjectIntoPorts | pkg/generator/hbone.go:74-87 | appends the port iff the rule is eligible, restricts ports and does not have it, and reports so |
| Objects.InjectRules | pkg/generator/hbone.go:41-52 | every rule is injected in place and the flag tells whether one gained a port |
| Objects.InjectHBonePorts | pkg/generator/hbone.go:36-60 | every object ends as its injected form; anything but a NetworkPolicy is unchanged |
| Objects.MergeMaps | pkg/generator/metadata.go:69-81 | the second map wins on conflicts |
| Objects.ApplyShorthand | pkg/generator/shorthand.go:269-279 | user-supplied metadata is folded into the object without overriding generated keys |
| Objects.SetOwner | pkg/generator/metadata.go:51-64 | the first reference with the Package's UID is replaced in place, or one is appended |
| Objects.StampMetadata | pkg/generator/metadata.go:28-65 | the object ends with namespace, labels and owner set, everything else as before |
| Objects.StampAll | pkg/generator/generator.go:129-134 | every object of the list is stamped |
| Metadata.OwnedKeepsOthers | pkg/generator/metadata.go:51-64 | references of other owners are kept in order, and setting the owner is idempotent |
| Metadata.OwnedExactly | pkg/generator/metadata.go:51-64 | the first reference with the owner's uid is replaced where it stands, else the owner is appended |
| Metadata.StampedTwice | pkg/generator/metadata.go:28-65 | stamping is idempotent and the prune label ends as the Package's name, whatever the user supplied |
| Metadata.Precedence | pkg/generator/shorthand.go:250-279 | each final label or annotation is the generated value, else the rule's, else the local one; a user-supplied managed-by survives, the prune label does not, and the HBONE label does unless a port was injected |
| Defaults.DefaultEgressMeans | pkg/generator/networkpolicies_defaults.go:16-105 | the enabled egress defaults together admit exactly in-namespace, kube-dns and istiod connections |
| Defaults.DefaultIngressMeans | pkg/generator/networkpolicies_defaults.go:107-189 | the enabled ingress defaults together admit exactly in-namespace, Prometheus and ambient kubelet connections |
| Defaults.DenyAllIsolates | pkg/generator/networkpolicies_defaults.go:21-32 | the deny-all default isolates every pod of the namespace in its direction |
| Defaults.GatesAsWritten | pkg/generator/networkpolicies_defaults.go:191-267 | every gate is open unless its own switch or the one for its direction says no; ambient mode forces injection and authorization policies |
| Defaults.AuthzGatesAsWritten | pkg/generator/authorizationpolicies.go:46-93 | the same for the default authorization policies, which also fall with the ingress defaults |
| Defaults.UnsetDefaults | pkg/generator/networkpolicies_defaults.go:191-204 | where nothing is said every pod of the namespace is isolated and every default allowed |
| Defaults.EgressDefaultsPresent | pkg/generator/networkpolicies_defaults.go:16-105 | each egress default is there iff neither its switch nor the direction's says no; the one for the control plane not in ambient mode |
| Defaults.IngressDefaultsPresent | pkg/generator/networkpolicies_defaults.go:107-189 | the same for ingress; the kubelet default in ambient mode only |
| Routes.NameLimits | pkg/generator/routes.go:351-351 | names have at most 63 characters as labels and 253 as subdomains (section 2.1 of RFC 1123) |
| Routes.LabelCharacters | pkg/generator/routes.go:351-351 | a label is made of lower-case letters, digits and dashes, with no dash at either end |
| Routes.SplitGatewayComplete | pkg/generator/routes.go:345-355 | every namespace/name made of a DNS label and a DNS subdomain is split into exactly these parts |
| Routes.SplitGateway | pkg/generator/routes.go:345-355 | splitting loses nothing and yields a DNS label and a DNS subdomain |
| Routes.ParseGateways | pkg/generator/ingressconfig.go:37-61 | gateway definitions are accepted iff all of them are complete, and then unchanged |
| Routes.ValidateInbound | pkg/generator/routes.go:71-87 | reports the first reason for rejecting a route |
| Routes.ValidHasGateways | pkg/generator/routes.go:71-87 | an accepted route has at least one gateway, all well-formed, and a port |
| Routes.ValidExactly | pkg/generator/routes.go:71-87 | a route is accepted iff it has a gateway, all of them are references, and it names a service and a port |
| Routes.ResolveInboundRoutes | pkg/generator/ingressconfig.go:81-127 | the nested loops resolve every route in key order and stop at the first error |
| Routes.ResolvedRoutes | pkg/generator/ingressconfig.go:81-127 | the result holds exactly the enabled routes: with their own gateways if they have a list, else the Package's, else the shared ones; pods by their own selector or their name; and each gateway with the identity configured for it or named after it |
| Routes.ResolutionSucceeds | pkg/generator/ingressconfig.go:81-127 | resolution succeeds iff every route is readable and every enabled one has a readable configuration, service, port and a non-empty list of references in the first layer that has one |
| Routes.ConfigIgnored | pkg/generator/ingressconfig.go:92-103 | if resolution succeeds under an unreadable configuration it gives the same result under every readable one |
| RouteObjects.BuildInboundNetpols | pkg/generator/routes.go:235-264 | one policy per gateway, in order |
| RouteObjects.GenerateRoutes | pkg/generator/routes.go:27-65 | the loop emits every route's block in order, then the outbound objects, or the first error |
| RouteObjects.GatewayNamespaces | pkg/generator/authorizationpolicies.go:324-333 | the map of maps holds, for every gateway name, exactly the namespaces it occurs in |
| RouteObjects.GenerateAuthzFromRoutes | pkg/generator/authorizationpolicies.go:320-345 | one policy per route and gateway, with qualified suffixes where a name is ambiguous |
| RouteObjects.BlockAt | pkg/generator/routes.go:36-47 | the output contains every route's VirtualService, ServiceEntry and policies as one block, in route order |
| RouteObjects.AuthzAt | pkg/generator/authorizationpolicies.go:334-343 | the same for the authorization policies |
| RouteObjects.NetpolMeans | pkg/generator/routes.go:235-264 | a route's policy admits exactly the gateway's pods to the route's pods on the TCP workload port |
| RouteObjects.BlockShape | pkg/generator/routes.go:120-213 | a route's objects: its hosts and gateways in the VirtualService, its hosts in the ServiceEntry, which is not resolved for wildcard hosts, and one policy per gateway |
| RouteObjects.RoutingChoice | pkg/generator/routes.go:133-184 | passthrough wins over raw rules, raw rules over the service; port 8443 unless it says otherwise; an unreadable raw rule fails unless passthrough |
| RouteObjects.RouteAgreement | pkg/generator/routes.go:120-131 | the i-th VirtualService gateway, NetworkPolicy and AuthorizationPolicy of a route name the same gateway, its selector and its identity, and select the same pods |
| RouteObjects.WorkloadPortsAgree | pkg/generator/authorizationpolicies.go:359-369 | both policies restrict the route to the same ports iff the workload port is a non-zero number |
| RouteObjects.DestinationPortAgrees | pkg/generator/routes.go:133-184 | a VirtualService that names a port sends to the number the policies open iff the route is no passthrough or service port and workload port are the same number |
| RouteObjects.PassthroughExample | pkg/generator/routes.go:134-150 | a passthrough route with a different container port is sent to a port its policies keep shut |
| RouteObjects.PrincipalInjective | pkg/generator/authorizationpolicies.go:350-358 | two principals are equal only if namespace and service account are |
| RouteObjects.SuffixSeparates | pkg/generator/authorizationpolicies.go:324-343 | gateways of one name get different suffixes iff their namespaces differ, and an unambiguous name stays plain |
| Generate.DefaultEgressPolicies | pkg/generator/networkpolicies_defaults.go:16-105 | emits exactly the enabled egress defaults, in order |
| Generate.DefaultIngressPolicies | pkg/generator/networkpolicies_defaults.go:107-189 | emits exactly the enabled ingress defaults, in order |
| Generate.AdditionalPolicies | pkg/generator/networkpolicies.go:44-57 | raw policies in order, or the first that cannot be decoded |
| Generate.GenerateNetworkPolicies | pkg/generator/networkpolicies.go:23-60 | defaults, shorthand and raw policies in order, or the first error |
| Generate.RunPasses | pkg/generator/generator.go:56-121 | all passes in order, for every iteration order of the specification's maps |
| Generate.GenerateObjects | pkg/generator/generator.go:58-136 | fresh objects whose final states are the desired manifests: collected, injected when enabled, stamped |
| Safety.RefusesToGuess | pkg/generator/definitions.go:89-117 | under an unreadable pool a name resolves to a rule iff it does so under every readable pool |
| Safety.DefinitionsNotNeeded | pkg/generator/generator.go:81-93 | if generation succeeds with unreadable definitions, its output is the output under every readable pair of pools |
| Safety.ConfigNotNeeded | pkg/generator/generator.go:66-69 | if generation succeeds with an unreadable ingress configuration, its output is the output under every readable one |
| Safety.EveryObjectStamped | pkg/generator/generator.go:129-134 | every generated object lies in the Package's namespace, carries its prune label and is owned by it alone |
| Safety.SameNameSameBody | pkg/generator/networkpolicies_shorthand.go:273-319 | egress CIDR policies of one local key with the same name have identical specs |
| Safety.AuthzNeverFails | pkg/generator/generator.go:106-112 | where the network policies compile, the shorthand authorization pass cannot fail |
| Safety.CollectedParts | pkg/generator/generator.go:70-121 | the objects are exactly those of the passes |
| Safety.RawObjectsKept | pkg/generator/generator.go:73-121 | every mesh object, custom policy and outbound entry is among the objects, with its name, metadata and content |
| Safety.RouteObjectsKept | pkg/generator/routes.go:36-47 | every object of every enabled route is among the objects |
| Safety.NetpolsOff | pkg/generator/generator.go:81-93 | with network policies off or not asked for, no object is one |
| Provenance.EgressOrigin | pkg/generator/networkpolicies_shorthand.go:42-81 | an egress policy names its entry and carries the local metadata, overridden by the rule's, overridden by the generator's |
| Provenance.IngressOrigin | pkg/generator/networkpolicies_shorthand.go:113-152 | the same for ingress policies |
| Provenance.AuthzOrigin | pkg/generator/authorizationpolicies.go:163-178 | the same for the shorthand authorization policies, which name their caller |
| Provenance.RouteOrigin | pkg/generator/routes.go:235-264 | a route's objects carry its metadata; its policies are marked as the operator's, whatever the route says |
| Provenance.AdditionalOrigin | pkg/generator/networkpolicies.go:152-170 | a raw policy keeps labels, annotations and rules |
| Provenance.PortNames | pkg/generator/names.go:38-62 | the documented port segments of names |
| Provenance.PrependText | pkg/generator/names.go:22-29 | names are prefixed with the Package's name iff the operator is told to |
| Provenance.EgressNames | pkg/generator/networkpolicies_shorthand.go:173-193 | the documented names of egress k8s policies |
| Provenance.EgressCIDRNames | pkg/generator/networkpolicies_shorthand.go:282-296 | the documented names of egress CIDR policies |
| Provenance.SegmentText | pkg/generator/names.go:31-36 | in a CIDR segment dots and the slash become dashes and nothing else changes |
| Provenance.IngressNames | pkg/generator/networkpolicies_shorthand.go:227-245 | the names of ingress k8s policies |
| Provenance.IngressCIDRNames | pkg/generator/networkpolicies_shorthand.go:330-342 | the names of ingress CIDR policies |
| Provenance.NamedByRule | pkg/generator/definitions.go:261-337 | definition and literal policies are named after the rule, in lower case |
| Provenance.RouteNames | pkg/generator/routes.go:235-264 | the documented names of a route's objects |
| Provenance.AuthzNames | pkg/generator/authorizationpolicies.go:246-273 | the names of shorthand authorization policies by namespace or identity |
| Provenance.OutputOrder | pkg/generator/generator.go:56-121 | the documented order of the output |
| Provenance.NetpolOrder | pkg/generator/networkpolicies.go:23-60 | defaults, shorthand and raw policies in order |
| Provenance.RouteOrder | pkg/generator/routes.go:28-63 | among the routes the inbound ones come first |
| Traffic.FinishAdmits | pkg/generator/generator.go:123-134 | post-processing a policy keeps what it isolates and adds exactly its tunnels |
| Traffic.GeneratedTraffic | pkg/generator/networkpolicies.go:23-60 | the generated policies admit exactly what defaults, entries, routes and raw policies say, plus tunnels under injection; under deny-all, exactly that is allowed to the Package's pods and nothing else is restricted |
| Traffic.RealTraffic | pkg/generator/networkpolicies.go:23-60 | for keys that name real ports only, the same without any condition on truncation |
| Enabling.EnablingKeepsTraffic | pkg/generator/networkpolicies_defaults.go:16-189 | under deny-all, enabling more entries, routes, raw policies or injection keeps every allowed connection |
| Enabling.AdmittedIsKept | pkg/generator/networkpolicies.go:23-60 | a connection some policy admits is kept by every larger specification, with or without the baseline |
| Enabling.KeptExactly | pkg/generator/networkpolicies.go:23-60 | an allowed connection is kept by every larger specification iff some policy admits it or its subject is no pod of the namespace |
| Enabling.LossExample | pkg/generator/networkpolicies.go:44-50 | a Package with its defaults off allows everything; adding one raw policy, both specifications generating, cuts every connection of its pods |
| Callers.StepAccepts | pkg/generator/authorizationpolicies.go:189-313 | the authorization policy of one ingress entry accepts exactly the workload, caller and ports the entry describes |
| Callers.AuthzCompiled | pkg/generator/authorizationpolicies.go:132-182 | the shorthand authorization policies accept exactly the union of what the enabled k8s and cidr entries describe |
| Callers.IdentityAnywhere | pkg/generator/authorizationpolicies.go:280-283 | a key with an identity in namespace `*` accepts nobody |
| Callers.RouteAccepts | pkg/generator/authorizationpolicies.go:347-383 | a route's policy for a gateway accepts exactly the gateway's service account, on the workload port if it is a number |
| Callers.DefaultsAccept | pkg/generator/authorizationpolicies.go:85-125 | the default policies accept exactly callers of the Package's namespace, when both switches and the ingress defaults are on |
| Callers.GeneratedAuthz | pkg/generator/generator.go:103-121 | all generated authorization policies together accept exactly in-namespace callers, what the enabled entries describe and the gateways of enabled routes |
| Callers.GeneratedDecision | pkg/generator/authorizationpolicies.go:85-125 | under the allow-nothing default, which applies to every workload, exactly these requests are accepted |
| Cluster.Server.Patch | internal/controller/package_controller.go:210-217 | forced apply with any outcome: done, failed without effect, failed after taking effect |
| Cluster.Server.Delete | internal/controller/prune.go:53-55 | deletion with any outcome; a missing object is not an error |
| Cluster.Server.List | internal/controller/prune.go:39-44 | the objects of one kind in the namespace with the Package's label, each once |
| Cluster.OursByFields | internal/controller/prune.go:39-42 | the sweep sees objects of managed kinds in the namespace whose prune label is there and is the Package's name, and no others |
| Convergence.AppliedContent | internal/controller/package_controller.go:210-217 | applying a list leaves each desired key with its last manifest and every other key alone |
| Convergence.CurrentStays | internal/controller/package_controller.go:210-217 | applying what is already there changes nothing |
| Convergence.RunConverges | internal/controller/prune.go:32-59 | a completed apply and sweep leave exactly the desired objects labelled, from any cluster state |
| Convergence.SecondRun | internal/controller/package_controller.go:104-128 | a second completed run changes nothing, even when desired objects share a key |
| Convergence.TraceFrames | internal/controller/prune.go:38-57 | no state of a run differs from the first in an object that is neither desired nor the Package's |
| Convergence.StepProgress | internal/controller/package_controller.go:108-122 | missing, wrong and stale objects never become more at any step, and every step that changes anything makes them fewer |
| Convergence.GoalReached | internal/controller/package_controller.go:108-122 | nothing is missing, wrong or stale iff the cluster has converged |
| Moves.AllKindsManaged | internal/controller/prune.go:64-73 | every kind the generator can emit is swept |
| Reconcile.ApplyAll | internal/controller/package_controller.go:210-217 | applies a first part of the list and only that, all of it iff no call failed |
| Reconcile.PruneKind | internal/controller/prune.go:39-56 | deletes what is stale of one kind, or stops at a failed call |
| Reconcile.PruneStale | internal/controller/prune.go:32-59 | deletes exactly the stale objects of all kinds iff no call failed; every intermediate state is a legal step |
| Reconcile.Run | internal/controller/package_controller.go:69-129 | cluster, copy and stored status after every exit: untouched after a failed generation, only applies after a failed apply, converged after success; a fault-free run succeeds; a stale copy writes no status; its calls are moves and its status writes events of the machines below, with a sweep exactly if it succeeded |
| Reconcile.RunFrames | internal/controller/prune.go:39-44 | in every state of every run, objects of other namespaces or kinds, and undesired objects without the Package's prune label, are what they were |
| Reconcile.NothingStale | internal/controller/prune.go:49-56 | after a completed run every object of a managed kind in the namespace with the Package's prune label is desired |
| Reconcile.DesiredInPlace | internal/controller/package_controller.go:210-217 | after a completed run the last desired object of a kind and name is in the cluster, with its content and labels |
| Reconcile.RunProgress | internal/controller/package_controller.go:108-122 | whatever fails, the distance to the goal does not grow between any two states of a run |
| Reconcile.RunCompletes | internal/controller/package_controller.go:104-128 | a completed run brings the distance to zero and a second one changes nothing |
| Reconcile.ConvergedRun | internal/controller/package_controller.go:104-128 | with distinct keys a run from a converged cluster passes through no other state |
| Reconcile.FailedApply | internal/controller/package_controller.go:114-117 | a failed apply deletes nothing and touches desired keys only |
| Interleave.MoveKeepsInv | internal/controller/prune.go:32-59 | every single call of any run keeps what all runs have achieved |
| Interleave.FinishedConverged | internal/controller/package_controller.go:114-128 | under every interleaving a Package whose run has finished owns exactly what it wants, with the right content |
| Interleave.NothingStolen | internal/controller/prune.go:49-56 | no call deletes or overwrites an object another Package wants; whatever disappears carried the prune label of the Package that deleted it |
| Status.PackageObject.SetCondition | internal/controller/status.go:121-133 | replaces the condition of the same type in place, keeping its time when the status is the same, or appends |
| Status.PackageObject.RemoveCondition | internal/controller/status.go:137-144 | drops the first condition of the type |
| Status.PackageObject.Update | internal/controller/status.go:43-43 | a status write is accepted only for the version it was based on, and may be lost or accepted unnoticed |
| Status.PackageObject.MarkReconciling | internal/controller/status.go:34-44 | the copy and the stored status after announcing a generation |
| Status.PackageObject.MarkFailed | internal/controller/status.go:52-78 | the copy and the stored status after a failure |
| Status.PackageObject.MarkReady | internal/controller/status.go:81-98 | the copy and the stored status after success |
| Status.SetEffect | internal/controller/status.go:121-133 | setting changes the condition of its type only and keeps types unique |
| Status.SetInPlace | internal/controller/status.go:121-133 | the condition of the type keeps its place in the list, a new one comes last |
| Status.RemoveEffect | internal/controller/status.go:137-144 | with unique types removing leaves none of the type and touches no other |
| Status.FailedConditions | internal/controller/status.go:52-73 | a failure leaves Ready=False and Stalled=True for the generation and no Reconciling |
| Status.ReadyConditions | internal/controller/status.go:81-93 | success leaves Ready=True for the generation, no Stalled and no Reconciling |
| Status.ReconcilingConditions | internal/controller/status.go:34-44 | announcing adds Reconciling=True for the generation and leaves Ready, Stalled and the observed generation |
| Status.OthersUntouched | internal/controller/status.go:34-98 | no status write touches conditions of other types |
| Transitions.TransitionTime | internal/controller/status.go:121-144 | over any history of edits a condition's time is that of the first edit of its current unbroken stretch |
| Transitions.PresentExactly | internal/controller/status.go:121-144 | a condition is present iff such a stretch exists |
| StatusRuns.NextKeepsInv | internal/controller/status.go:34-98 | edits of specification or metadata, runs from any earlier copy, refused, lost and unnoticed writes all keep the invariant |
| StatusRuns.StoredSound | internal/controller/status.go:25-98 | every stored status has unique types, Ready=False iff Stalled=True, Reconciling only while the observed generation lags, and Ready=True only for a generation some run applied and swept |
| StatusRuns.ObservedNeverDecreases | internal/controller/status.go:70-73 | the observed generation never goes back |
| StatusRuns.ReadyWrittenBySweeper | internal/controller/package_controller.go:87-128 | every write of Ready=True, also for a new generation over an older Ready=True, is made by a run that read the stored generation and finished apply and prune |
| StatusRuns.ReadyHasWriter | internal/controller/package_controller.go:87-128 | every stored Ready=True at a generation goes back to such a write by a run that read this very generation |
| StatusRuns.RunLog | internal/controller/package_controller.go:87-128 | the status writes of one run are an announcement where needed, a sweep exactly if it succeeded, and the final write |

## Left out

- JSON and YAML decoding, and the flattening of interface-valued selectors: the model starts from decoded values, and a value that cannot be decoded is an error.
- The content of PeerAuthentication, Sidecar, custom AuthorizationPolicies, outbound ServiceEntries and raw HTTP rules: taken as given results, since these passes read no shared configuration.
- The ports of the live API server Service and the global ConfigMap: inputs, with any value allowed.
- Object allocation before the in-place passes: shorthand objects are built as values, allocated once all passes have run, and only then edited in place; `Objects.ApplyShorthand` is the in-place form of the metadata merge.
- Aliasing of raw policy labels with the input: stamping writes into the Package's own label maps in the original, here every object has its own.
- Passes.Expand: white space is trimmed by the ASCII and Latin-1 definition only, and names are lower-cased in ASCII.
- Cidr.ApplyExcludeCIDRs: IPv4 texts only; an IPv6 exclusion or rule does not parse here, including an exclusion that writes an IPv4 address in IPv6 form, which the original keeps.
- Names.NamePortSuffix: the range flag with other than two ports, on which the original would index out of bounds, is excluded; `Grammar.EgressParsePrint` and its companions prove that no parsed key has it.
- Builders.BuildAuthzPorts: a range that ends at the largest 64-bit integer is written out here, while the loop of the original never stops; `Builders.CounterStopsExactly` gives the condition.
- Routes.ParseGateways: starts from the decoded definitions, and whether a label selector can be turned into a query is a given flag.
- Generate.AdditionalPolicies: the two lists of raw policies, the current one and its legacy alias, are one list here.
- Cluster.Server.List: a list shows the current state; a lagging cache is not modelled. Owner references of stored objects and garbage collection are not modelled either.
- Interleave.FinishedConverged: what each Package wants stays the same during an execution.
- Reconcile.Run: metrics, events, warnings and the summary of applied resources are not modelled.
- Callers.GeneratedAuthz: custom authorization policies are raw and not interpreted, so this and `Callers.GeneratedDecision` speak about the generated ones only.
- Manager start-up, watches, RBAC, CRDs, charts and deep copies.
