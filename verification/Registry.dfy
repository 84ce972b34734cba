/** The hard-coded catalogues of integration types and LLM providers. */
module Registry {
  import opened Wrappers

  datatype Field = Field(name: string, required: bool, secret: bool)

  datatype Cardinality = Single | Multi

  datatype IntegrationType = IntegrationType(id: string, fields: seq<Field>, cardinality: Cardinality)

  datatype Provider = Provider(id: string, fields: seq<Field>)

  type Providers = map<string, Provider>

  const OUTLOOK_GRAPH := "outlook-graph"

  const INTEGRATION_TYPES: seq<IntegrationType> := [
    IntegrationType("outlook-edge-com", [], Multi),
    IntegrationType(OUTLOOK_GRAPH, [
      Field("tenant_id", true, false),
      Field("client_id", true, false),
      Field("client_secret", false, true)], Multi),
    IntegrationType("teams-graph", [
      Field("tenant_id", true, false),
      Field("client_id", true, false),
      Field("client_secret", true, true)], Single),
    IntegrationType("itsm-rest-generic", [
      Field("base_url", true, false),
      Field("api_key", true, true)], Single)]

  /** The type with the given id, if the catalogue has one. */
  function GetType(id: string): (r: Option<IntegrationType>)
    ensures r.Some? ==> r.value.id == id && r.value in INTEGRATION_TYPES
    ensures r.None? ==> forall t :: t in INTEGRATION_TYPES ==> t.id != id
  {
    if id == INTEGRATION_TYPES[0].id then Some(INTEGRATION_TYPES[0])
    else if id == INTEGRATION_TYPES[1].id then Some(INTEGRATION_TYPES[1])
    else if id == INTEGRATION_TYPES[2].id then Some(INTEGRATION_TYPES[2])
    else if id == INTEGRATION_TYPES[3].id then Some(INTEGRATION_TYPES[3])
    else None
  }

  const LLM_PROVIDERS: Providers := map[
    "ollama" := Provider("ollama", [
      Field("base_url", true, false),
      Field("model", true, false)]),
    "openai-compatible" := Provider("openai-compatible", [
      Field("base_url", true, false),
      Field("model", true, false),
      Field("api_key", false, true)]),
    "openai" := Provider("openai", [
      Field("base_url", false, false),
      Field("model", true, false),
      Field("api_key", true, true)])]

  predicate IsSecret(fields: seq<Field>, name: string) {
    exists f :: f in fields && f.name == name && f.secret
  }

  predicate IsPublic(fields: seq<Field>, name: string) {
    exists f :: f in fields && f.name == name && !f.secret
  }

  predicate DistinctNames(fields: seq<Field>) {
    forall i, j :: 0 <= i < j < |fields| ==> fields[i].name != fields[j].name
  }

  lemma TypesHaveDistinctNames(t: IntegrationType)
    requires t in INTEGRATION_TYPES
    ensures DistinctNames(t.fields)
  {
  }

  /** With distinct names, a name is public or secret but not both. */
  lemma NotBoth(fields: seq<Field>, name: string)
    requires DistinctNames(fields)
    ensures !(IsSecret(fields, name) && IsPublic(fields, name))
  {
  }
}
