/** The decoded Package specification, as far as the generator interprets it. Absent and empty maps behave
    alike in the original, so both are empty maps here; where absence matters there is an option. */
module Spec {
  import opened Common
  import opened Kube

  datatype Metadata = Metadata(labels: Labels, annotations: Labels)

  /** The value under `k8s`, `cidr` and `definition` keys. */
  datatype Target = Target(enabled: bool, podSelector: Labels, namespaceSelector: Labels, metadata: Option<Metadata>)

  /** A raw rule array; `None` when it is missing or malformed. */
  datatype Literal = Literal(enabled: bool, metadata: Option<Metadata>, rules: Option<seq<Rule>>, yaml: string)

  /** The `to` block of an egress source or the `from` block of an ingress destination. */
  datatype PeerSpec = PeerSpec(k8s: map<string, Target>, definition: map<string, Target>,
                               cidr: map<string, Target>, literal: map<string, Literal>)

  datatype Source = Source(podSelector: Labels, metadata: Option<Metadata>, peers: Option<PeerSpec>)

  /** The value under a local key, undecodable or decoded. */
  datatype Local = Malformed | Decoded(source: Source)

  /** One peer of a definition: absent selectors differ from explicitly empty ones. */
  datatype RawPeer = RawPeer(cidr: Option<string>, except: Option<seq<string>>, ns: Option<Labels>, pod: Option<Labels>)

  /** One port of a definition; an empty protocol is unset. */
  datatype RawPort = RawPort(protocol: string, port: Option<PortRef>, endPort: Option<int>)

  datatype RawDefinition = BadDefinition | Definition(peers: seq<RawPeer>, ports: seq<RawPort>)

  /** The switches of one direction's default policies; `None` counts as on. */
  datatype Defaults = Defaults(enabled: Option<bool>, denyAll: Option<bool>, allowInNamespace: Option<bool>,
                               allowKubeDNS: Option<bool>, allowIstiod: Option<bool>, allowPrometheus: Option<bool>)

  datatype Side = Side(entries: map<string, Local>, definitions: map<string, RawDefinition>,
                       excludeCIDRs: Option<seq<string>>, defaults: Option<Defaults>)

  /** A raw additional policy; the spec is `None` when it cannot be decoded. */
  datatype RawPolicy = RawPolicy(name: string, labels: Labels, annotations: Labels, spec: Option<PolicySpec>)

  datatype NetworkPolicies = NetworkPolicies(enabled: bool, prepend: bool, egress: Option<Side>, ingress: Option<Side>,
                                             additional: seq<RawPolicy>, hbone: bool)

  datatype Istio = Istio(prepend: bool, ambient: bool, authz: bool, fromNetpol: Option<bool>,
                         authzDefaults: Option<bool>, authzDenyAll: Option<bool>, authzInNamespace: Option<bool>)

  datatype Package = Package(name: string, namespace: string, uid: string)

  /** What a reconcile knows beyond the Package: the API server's ports and the shared definition pools,
      or why the pools could not be read. */
  datatype Env = Env(kubeAPIPorts: seq<PortRef>, sharedEgress: map<string, RawDefinition>,
                     sharedIngress: map<string, RawDefinition>, sharedError: Option<Error>)
}
