/** What the switches of a specification ask for, on its own fields: a switch that is not written counts as on. */
module Switches {
  import opened Common
  import opened Spec

  /** The defaults of a direction are written down and the switch picked from them, or the one for all, says no. */
  predicate SaysNo(side: Option<Side>, own: Option<Option<bool>>) {
    side.Some? && side.value.defaults.Some? &&
    (side.value.defaults.value.enabled == Some(false) || own == Some(Some(false)))
  }

  function Picked(side: Option<Side>): Option<Defaults> {
    if side.Some? then side.value.defaults else None
  }

  predicate WantsSide(side: Option<Side>) { !SaysNo(side, None) }

  predicate WantsDenyAll(side: Option<Side>) {
    !SaysNo(side, match Picked(side) case None => None case Some(d) => Some(d.denyAll))
  }

  predicate WantsInNamespace(side: Option<Side>) {
    !SaysNo(side, match Picked(side) case None => None case Some(d) => Some(d.allowInNamespace))
  }

  predicate WantsKubeDNS(side: Option<Side>) {
    !SaysNo(side, match Picked(side) case None => None case Some(d) => Some(d.allowKubeDNS))
  }

  predicate WantsIstiod(side: Option<Side>) {
    !SaysNo(side, match Picked(side) case None => None case Some(d) => Some(d.allowIstiod))
  }

  predicate WantsPrometheus(side: Option<Side>) {
    !SaysNo(side, match Picked(side) case None => None case Some(d) => Some(d.allowPrometheus))
  }

  /** Nothing is said about a direction's defaults. */
  predicate Unset(side: Option<Side>) {
    side.None? || side.value.defaults.None? || side.value.defaults == Some(Defaults(None, None, None, None, None, None))
  }

  predicate IsAmbient(istio: Option<Istio>) { istio.Some? && istio.value.ambient }

  /** Ambient mode asks for port injection whatever the Package says. */
  predicate WantsInjection(istio: Option<Istio>, netpols: Option<NetworkPolicies>) {
    IsAmbient(istio) || (netpols.Some? && netpols.value.hbone)
  }

  /** Ambient mode asks for authorization policies whatever their own switch says. */
  predicate WantsAuthz(istio: Option<Istio>) { istio.Some? && (istio.value.authz || istio.value.ambient) }

  predicate WantsFromNetpol(istio: Option<Istio>) { istio.Some? ==> istio.value.fromNetpol != Some(false) }

  /** The default authorization policies also fall with the ingress defaults. */
  predicate WantsAuthzDefaults(istio: Option<Istio>, netpols: Option<NetworkPolicies>) {
    && WantsAuthz(istio) && istio.value.authzDefaults != Some(false)
    && (netpols.Some? ==> WantsSide(netpols.value.ingress))
  }

  predicate WantsAllowNothing(istio: Option<Istio>, netpols: Option<NetworkPolicies>) {
    WantsAuthzDefaults(istio, netpols) && istio.value.authzDenyAll != Some(false)
  }

  predicate WantsAuthzInNamespace(istio: Option<Istio>, netpols: Option<NetworkPolicies>) {
    WantsAuthzDefaults(istio, netpols) && istio.value.authzInNamespace != Some(false)
  }
}
