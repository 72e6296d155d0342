// The configuration schema of the agents that need credentials
// (types/agent-config.ts): one definition per configurable agent, each an
// ordered list of form fields.

module AgentConfig {
  import opened Wrappers
  import JsObject

  datatype FieldType = Text | Password

  datatype AgentConfigField = AgentConfigField(
    key: string,
    labelText: string,
    fieldType: FieldType,
    required: bool,
    description: Option<string>)

  datatype AgentConfigDefinition = AgentConfigDefinition(
    id: string,
    name: string,
    fields: seq<AgentConfigField>)

  /** A saved configuration: field key to value, in insertion order. */
  type Config = JsObject.Entries<string>

  const TwitterFields: seq<AgentConfigField> := [
    AgentConfigField("api_key", "API Key", Password, true,
      Some("Twitter API Key from your Twitter Developer Account")),
    AgentConfigField("api_secret", "API Secret", Password, true,
      Some("Twitter API Secret from your Twitter Developer Account"))
  ]

  const FinanceFields: seq<AgentConfigField> := [
    AgentConfigField("alpha_vantage_key", "Alpha Vantage API Key", Password, true,
      Some("API Key for accessing financial data"))
  ]

  const SearchFields: seq<AgentConfigField> := [
    AgentConfigField("google_api_key", "Google API Key", Password, true,
      Some("Google Custom Search API Key")),
    AgentConfigField("search_engine_id", "Search Engine ID", Text, true,
      Some("Google Custom Search Engine ID"))
  ]

  const AgentConfigs: seq<AgentConfigDefinition> := [
    AgentConfigDefinition("twitter-agent", "Twitter Trends", TwitterFields),
    AgentConfigDefinition("finance-agent", "Finance Agent", FinanceFields),
    AgentConfigDefinition("search-agent", "Web Search", SearchFields)
  ]

  /** The ids of a list of definitions, in order. */
  function DefinitionIds(ds: seq<AgentConfigDefinition>): (ids: seq<string>)
    ensures |ids| == |ds|
    ensures forall i :: 0 <= i < |ds| ==> ids[i] == ds[i].id
  {
    seq(|ds|, i requires 0 <= i < |ds| => ds[i].id)
  }

  /** The keys of a list of fields, in order. */
  function FieldKeys(fs: seq<AgentConfigField>): (ks: seq<string>)
    ensures |ks| == |fs|
    ensures forall i :: 0 <= i < |fs| ==> ks[i] == fs[i].key
  {
    seq(|fs|, i requires 0 <= i < |fs| => fs[i].key)
  }

  predicate Distinct(xs: seq<string>) {
    forall i, j :: 0 <= i < j < |xs| ==> xs[i] != xs[j]
  }

  predicate HasDefinition(id: string) {
    id in DefinitionIds(AgentConfigs)
  }

  /** The table defines exactly the twitter, finance and search agents, in
      that order, so the reminder agent has nothing to configure. */
  lemma DefinedAgents()
    ensures DefinitionIds(AgentConfigs) == ["twitter-agent", "finance-agent", "search-agent"]
    ensures forall id :: HasDefinition(id) <==> id in {"twitter-agent", "finance-agent", "search-agent"}
    ensures !HasDefinition("reminder-agent")
  {
  }

  /** No two definitions share an id. */
  lemma DefinitionIdsDistinct()
    ensures Distinct(DefinitionIds(AgentConfigs))
  {
    DefinedAgents();
  }

  /** Every field of every definition is required. */
  lemma AllFieldsRequired()
    ensures forall d, f :: d in AgentConfigs && f in d.fields ==> f.required
  {
  }

  /** Within each definition the field keys are distinct; the twitter agent
      asks for `api_key` and then `api_secret`. */
  lemma FieldKeysDistinct()
    ensures forall d :: d in AgentConfigs ==> Distinct(FieldKeys(d.fields))
    ensures FieldKeys(AgentConfigs[0].fields) == ["api_key", "api_secret"]
  {
    assert FieldKeys(TwitterFields) == ["api_key", "api_secret"];
    assert FieldKeys(FinanceFields) == ["alpha_vantage_key"];
    assert FieldKeys(SearchFields) == ["google_api_key", "search_engine_id"];
  }
}
