/** The plugin registry: the catalog of service types and the two lookups that
    turn a manifest entry into a requirement (`conda_kapsel/plugins/registry.py`).
    The catalog is an explicit value rather than process-wide state. */
module Registry {
  import opened Wrappers
  import opened Requirements

  /** A registered service kind: its type name, the variable it conventionally
      lives in, a description, and the Python class of its requirement. */
  datatype ServiceType = ServiceType(name: string, defaultVariable: string, description: string, className: string)

  datatype PluginRegistry = PluginRegistry(serviceTypes: seq<ServiceType>)

  /** The built-in catalog: a Redis server found through `REDIS_URL`. */
  const BuiltinRegistry: PluginRegistry :=
    PluginRegistry([ServiceType("redis", "REDIS_URL", "A Redis server", "RedisRequirement")])

  /** The first registered service type called `name`. */
  function TypeNamed(types: seq<ServiceType>, name: string): (r: Option<ServiceType>)
    ensures r.None? <==> forall i :: 0 <= i < |types| ==> types[i].name != name
    ensures r.Some? ==> r.value in types && r.value.name == name
  {
    if types == [] then None
    else if types[0].name == name then Some(types[0])
    else TypeNamed(types[1..], name)
  }

  /** The first registered service type whose conventional variable is `envVar`. */
  function TypeForVariable(types: seq<ServiceType>, envVar: string): (r: Option<ServiceType>)
    ensures r.None? <==> forall i :: 0 <= i < |types| ==> types[i].defaultVariable != envVar
    ensures r.Some? ==> r.value in types && r.value.defaultVariable == envVar
  {
    if types == [] then None
    else if types[0].defaultVariable == envVar then Some(types[0])
    else TypeForVariable(types[1..], envVar)
  }

  function ServiceRequirement(t: ServiceType, envVar: string, options: Options): Requirement
  {
    Requirement(ServiceKind(t.name, t.className), envVar, options)
  }

  /** `find_requirement_by_env_var(env_var, options)`: never fails. A variable that is
      some service's conventional variable gets that service's requirement; any other
      name gets a generic `EnvVarRequirement` that keeps the name and the options. */
  function FindRequirementByEnvVar(registry: PluginRegistry, envVar: string, options: Option<Options>): (r: Requirement)
    ensures r.envVar == envVar
    ensures r.options == NormalizeOptions(options)
    ensures r.kind == EnvVarKind <==> forall i :: 0 <= i < |registry.serviceTypes| ==> registry.serviceTypes[i].defaultVariable != envVar
    ensures r.kind.ServiceKind? ==>
              exists i :: 0 <= i < |registry.serviceTypes| && registry.serviceTypes[i].defaultVariable == envVar
                          && r.kind.serviceType == registry.serviceTypes[i].name
  {
    match TypeForVariable(registry.serviceTypes, envVar)
    case None => EnvVarRequirement(envVar, options)
    case Some(t) => ServiceRequirement(t, envVar, NormalizeOptions(options))
  }

  /** `find_requirement_by_service_type(service_type, env_var, options)`: none for a type
      that is not registered; otherwise that type's requirement, with `type` recorded in
      (a copy of) the options. */
  function FindRequirementByServiceType(registry: PluginRegistry, serviceType: string, envVar: string,
                                        options: Options): (r: Option<Requirement>)
    ensures r.None? <==> forall i :: 0 <= i < |registry.serviceTypes| ==> registry.serviceTypes[i].name != serviceType
    ensures r.Some? ==> r.value.envVar == envVar && r.value.kind.ServiceKind? && r.value.kind.serviceType == serviceType
    ensures r.Some? ==> r.value.options == options["type" := StringValue(serviceType)]
  {
    var withType := if "type" in options && options["type"] == StringValue(serviceType) then options
                    else options["type" := StringValue(serviceType)];
    match TypeNamed(registry.serviceTypes, serviceType)
    case None => None
    case Some(t) => Some(ServiceRequirement(t, envVar, withType))
  }

  /** An unknown variable name falls back to the generic requirement, whose `repr` is fixed. */
  lemma UnknownEnvVarIsGeneric()
    ensures FindRequirementByEnvVar(BuiltinRegistry, "FOO", None) == EnvVarRequirement("FOO", None)
    ensures RequirementRepr(FindRequirementByEnvVar(BuiltinRegistry, "FOO", None)) == "EnvVarRequirement(env_var='FOO')"
  {
    FooTexts();
  }

  /** An unregistered service type is reported as none, not as an error. */
  lemma UnknownServiceTypeIsNone(envVar: string, options: Options)
    ensures FindRequirementByServiceType(BuiltinRegistry, "blah", envVar, options) == None
  {
  }
}
