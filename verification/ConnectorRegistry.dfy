/**
 The connector registry as a memo table: policies never change, so handing out a remembered
 connector is indistinguishable from constructing a new one from the policy.
 */
module ConnectorRegistry {
  import opened Common
  import opened Verdicts

  const CONNECTOR_TYPES := {"keycloak", "ldap", "db_grants_postgres", "rest_generic", "openiam"}

  // A policy, and the part of it that describes the connector.
  datatype ConnectorConfig = ConnectorConfig(
    kind: string, baseUrl: Option<string>, credentialPath: string, timeoutSeconds: int, extra: map<string, string>)

  datatype Policy = Policy(
    systemId: string, connector: ConnectorConfig, healthEndpoint: Option<string>, roles: seq<RoleMapping>)

  // The dictionary a connector is constructed with.
  datatype Key = Type | BaseUrl | CredentialPath | TimeoutSeconds | Extra | HealthEndpoint | RolePermissionMap

  datatype Value =
    | Str(text: Option<string>)
    | Number(number: int)
    | Fields(fields: map<string, string>)
    | Roles(roles: seq<RoleMapping>)

  type Config = map<Key, Value>

  function ModelDump(c: ConnectorConfig): Config {
    map[Type := Str(Some(c.kind)), BaseUrl := Str(c.baseUrl), CredentialPath := Str(Some(c.credentialPath)),
        TimeoutSeconds := Number(c.timeoutSeconds), Extra := Fields(c.extra)]
  }

  // What every connector of this policy is told, key by key.
  function Told(p: Policy, key: Key): Value {
    match key
    case Type => Str(Some(p.connector.kind))
    case BaseUrl => Str(p.connector.baseUrl)
    case CredentialPath => Str(Some(p.connector.credentialPath))
    case TimeoutSeconds => Number(p.connector.timeoutSeconds)
    case Extra => Fields(p.connector.extra)
    case HealthEndpoint => Str(p.healthEndpoint)
    case RolePermissionMap => Roles(p.roles)
  }

  ghost predicate Describes(config: Config, p: Policy) {
    forall key :: key in config && config[key] == Told(p, key)
  }

  // The connector's own fields with the two of the policy merged over them.
  lemma MergedDescribes(config: Config, p: Policy)
    requires config == ModelDump(p.connector)
                       + map[HealthEndpoint := Str(p.healthEndpoint), RolePermissionMap := Roles(p.roles)]
    ensures Describes(config, p)
  {
    forall key ensures key in config && config[key] == Told(p, key) {
      assert key.Type? || key.BaseUrl? || key.CredentialPath? || key.TimeoutSeconds? || key.Extra?
          || key.HealthEndpoint? || key.RolePermissionMap?;
    }
  }

  class Connector {
    const id: string
    const kind: string
    const config: Config

    constructor (id: string, kind: string, config: Config)
      ensures this.id == id && this.kind == kind && this.config == config
    {
      this.id, this.kind, this.config := id, kind, config;
    }
  }

  // The connector a fresh construction from this policy would give, identity apart.
  ghost predicate AsConstructed(c: Connector, p: Policy) {
    c.id == p.systemId && c.kind == p.connector.kind && c.kind in CONNECTOR_TYPES && Describes(c.config, p)
  }

  // That leaves nothing open.
  lemma ConstructionIsUnique(c: Connector, d: Connector, p: Policy)
    requires AsConstructed(c, p) && AsConstructed(d, p)
    ensures c.id == d.id && c.kind == d.kind && c.config == d.config
    ensures c.config == map[
              Type := Str(Some(p.connector.kind)), BaseUrl := Str(p.connector.baseUrl),
              CredentialPath := Str(Some(p.connector.credentialPath)),
              TimeoutSeconds := Number(p.connector.timeoutSeconds), Extra := Fields(p.connector.extra),
              HealthEndpoint := Str(p.healthEndpoint), RolePermissionMap := Roles(p.roles)]
  {
    assert forall key :: key in c.config <==> key in d.config;
    forall key: Key ensures key.Type? || key.BaseUrl? || key.CredentialPath? || key.TimeoutSeconds? || key.Extra?
                         || key.HealthEndpoint? || key.RolePermissionMap?
    {}
  }

  // The loader keys every policy by its own system id.
  predicate KeyedById(policies: map<string, Policy>) {
    forall s :: s in policies ==> policies[s].systemId == s
  }

  // One lookup: by the intake service or by the diagnostic service.
  datatype Lookup = ForIntake(systemId: string) | ForDiagnosis(systemId: string)

  class Registry {
    const policies: map<string, Policy>
    var instances: map<string, Connector>

    constructor (policies: map<string, Policy>)
      requires KeyedById(policies)
      ensures this.policies == policies && instances == map[] && Valid()
    {
      this.policies := policies;
      instances := map[];
    }

    // Every remembered connector is what its policy would give now.
    ghost predicate Valid()
      reads this
    {
      KeyedById(policies) && forall s :: s in instances ==> s in policies && AsConstructed(instances[s], policies[s])
    }

    predicate Serves(systemId: string) {
      systemId in policies && policies[systemId].connector.kind in CONNECTOR_TYPES
    }

    // get_connector: the remembered instance if there is one, whatever type and config say.
    method GetConnector(id: string, kind: string, config: Config) returns (c: Connector?)
      modifies this`instances
      ensures id in old(instances) ==> c == old(instances)[id] && instances == old(instances)
      ensures id !in old(instances) && kind !in CONNECTOR_TYPES ==> c == null && instances == old(instances)
      ensures id !in old(instances) && kind in CONNECTOR_TYPES ==>
                && c != null && fresh(c) && c.id == id && c.kind == kind && c.config == config
                && instances == old(instances)[id := c]
    {
      if id in instances { return instances[id]; }
      if kind !in CONNECTOR_TYPES { return null; }
      var instance := new Connector(id, kind, config);
      instances := instances[id := instance];
      c := instance;
    }

    // The lookup as the intake service writes it.
    method IntakeConnector(systemId: string) returns (c: Connector?)
      requires Valid()
      modifies this`instances
      ensures Valid()
      ensures c != null <==> Serves(systemId)
      ensures c != null ==> AsConstructed(c, policies[systemId]) && systemId in instances && instances[systemId] == c
      ensures forall s :: s in old(instances) ==> s in instances && instances[s] == old(instances)[s]
    {
      if systemId !in policies { return null; }
      var policy := policies[systemId];
      var config := ModelDump(policy.connector)
                    + map[HealthEndpoint := Str(policy.healthEndpoint), RolePermissionMap := Roles(policy.roles)];
      MergedDescribes(config, policy);
      c := GetConnector(policy.systemId, policy.connector.kind, config);
    }

    // The lookup as the diagnostic service writes it.
    method DiagnosticConnector(systemId: string) returns (c: Connector?)
      requires Valid()
      modifies this`instances
      ensures Valid()
      ensures c != null <==> Serves(systemId)
      ensures c != null ==> AsConstructed(c, policies[systemId]) && systemId in instances && instances[systemId] == c
      ensures forall s :: s in old(instances) ==> s in instances && instances[s] == old(instances)[s]
    {
      if systemId !in policies { return null; }
      var policy := policies[systemId];
      var config := ModelDump(policy.connector)
                    + map[HealthEndpoint := Str(policy.healthEndpoint), RolePermissionMap := Roles(policy.roles)];
      MergedDescribes(config, policy);
      c := GetConnector(policy.systemId, policy.connector.kind, config);
    }

    // Over any sequence of lookups by either service: one instance per system, always as if
    // newly constructed.
    method ServeAll(lookups: seq<Lookup>) returns (cs: seq<Connector?>)
      requires Valid()
      modifies this`instances
      ensures Valid() && |cs| == |lookups|
      ensures forall i :: 0 <= i < |cs| ==> (cs[i] != null <==> Serves(lookups[i].systemId))
      ensures forall i :: 0 <= i < |cs| && Serves(lookups[i].systemId) ==>
                AsConstructed(cs[i], policies[lookups[i].systemId])
      ensures forall i, j :: 0 <= i < j < |cs| && lookups[i].systemId == lookups[j].systemId ==> cs[i] == cs[j]
    {
      cs := [];
      for k := 0 to |lookups|
        invariant Valid() && |cs| == k
        invariant forall i :: 0 <= i < k ==> (cs[i] != null <==> Serves(lookups[i].systemId))
        invariant forall i :: 0 <= i < k && cs[i] != null ==>
                    && AsConstructed(cs[i], policies[lookups[i].systemId])
                    && lookups[i].systemId in instances && instances[lookups[i].systemId] == cs[i]
      {
        var c: Connector?;
        match lookups[k] {
          case ForIntake(systemId) => c := IntakeConnector(systemId);
          case ForDiagnosis(systemId) => c := DiagnosticConnector(systemId);
        }
        cs := cs + [c];
      }
    }
  }
}
