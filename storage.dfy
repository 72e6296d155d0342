// The browser-side store of agent configurations (utils/storage.ts): each
// configuration is written as JSON, base64-encoded with `btoa`, under the key
// "kaisen_agent_config_" + agent id of a string-to-string local storage.

module Storage {
  import opened Wrappers
  import JsObject
  import Base64
  import Json
  import opened AgentConfig

  const StorageKeyPrefix: string := "kaisen_agent_config_"

  type Store = map<string, string>

  /** The storage key of an agent; distinct agents get distinct keys. */
  function StorageKey(agentId: string): (k: string)
    ensures |k| == |StorageKeyPrefix| + |agentId|
    ensures k[..|StorageKeyPrefix|] == StorageKeyPrefix && k[|StorageKeyPrefix|..] == agentId
  {
    StorageKeyPrefix + agentId
  }

  lemma StorageKeyInjective(a: string, b: string)
    ensures StorageKey(a) == StorageKey(b) <==> a == b
  {
  }

  /** `btoa`: throws (None) when some character is above U+00FF. */
  function Encrypt(text: string): (r: Option<string>)
    ensures r.Some? <==> Base64.IsLatin1(text)
  {
    Base64.Btoa(text)
  }

  /** `atob`: throws (None) on text that is not base64. */
  function Decrypt(text: string): Option<string> {
    Base64.Atob(text)
  }

  /** Decoding undoes encoding on every Latin-1 string. */
  lemma DecryptEncrypt(s: string)
    requires Base64.IsLatin1(s)
    ensures Encrypt(s).Some? && Decrypt(Encrypt(s).value) == Some(s)
  {
    Base64.AtobBtoa(s);
  }

  /** Every key and value of the configuration is Latin-1. */
  predicate IsLatin1Config(config: Config) {
    Json.EntriesAtMost(config, 0xFF)
  }

  // ---- the operations, as functions of the store ---------------------------

  /** The store after `saveAgentConfig`, or None when `btoa` throws. */
  function Saved(items: Store, agentId: string, config: Config): (r: Option<Store>)
    ensures r.Some? <==> IsLatin1Config(config)
    ensures r.Some? ==> StorageKey(agentId) in r.value
  {
    Json.StringifyRange(config, 0xFF);
    match Encrypt(Json.Stringify(config))
    case None => None
    case Some(text) => Some(items[StorageKey(agentId) := text])
  }

  /** `hasAgentConfig`: an entry exists and is not the empty string. */
  predicate Has(items: Store, agentId: string) {
    StorageKey(agentId) in items && items[StorageKey(agentId)] != ""
  }

  /** What `getAgentConfig` returns: the parsed JSON value, or None (null)
      when there is no entry, the entry is empty, or it fails to decode or
      to parse. */
  function Loaded(items: Store, agentId: string): (r: Option<Json.Value>)
    ensures !Has(items, agentId) ==> r.None?
    ensures Has(items, agentId) && Decrypt(items[StorageKey(agentId)]).None? ==> r.None?
    ensures Has(items, agentId) && Decrypt(items[StorageKey(agentId)]).Some? ==>
      r == Json.Parse(Decrypt(items[StorageKey(agentId)]).value)
  {
    if !Has(items, agentId) then None
    else match Decrypt(items[StorageKey(agentId)])
      case None => None
      case Some(text) => Json.Parse(text)
  }

  /** The store after `deleteAgentConfig`. */
  function Deleted(items: Store, agentId: string): (r: Store)
    ensures StorageKey(agentId) !in r
  {
    items - {StorageKey(agentId)}
  }

  // ---- properties ----------------------------------------------------------

  /** Saving writes one key: every other agent's entry is as before. */
  lemma SaveTouchesOnlyItsKey(items: Store, a: string, b: string, config: Config)
    requires Saved(items, a, config).Some? && b != a
    ensures var m := Saved(items, a, config).value;
      (StorageKey(b) in m <==> StorageKey(b) in items) &&
      (StorageKey(b) in m ==> m[StorageKey(b)] == items[StorageKey(b)]) &&
      Has(m, b) == Has(items, b) && Loaded(m, b) == Loaded(items, b)
  {
    StorageKeyInjective(a, b);
  }

  /** Deleting removes one key: every other agent's entry is as before. */
  lemma DeleteTouchesOnlyItsKey(items: Store, a: string, b: string)
    requires b != a
    ensures var m := Deleted(items, a);
      (StorageKey(b) in m <==> StorageKey(b) in items) &&
      (StorageKey(b) in m ==> m[StorageKey(b)] == items[StorageKey(b)]) &&
      Has(m, b) == Has(items, b) && Loaded(m, b) == Loaded(items, b)
  {
    StorageKeyInjective(a, b);
  }

  /** A saved configuration with distinct Latin-1 keys and values is loaded
      back as the JSON object of exactly those entries, in the same order. */
  lemma LoadSaved(items: Store, agentId: string, config: Config)
    requires JsObject.DistinctKeys(config) && IsLatin1Config(config)
    ensures Saved(items, agentId, config).Some?
    ensures Loaded(Saved(items, agentId, config).value, agentId) == Some(Json.Object(Json.FromStrings(config)))
    ensures Json.AsStringObject(Json.Object(Json.FromStrings(config))) == Some(config)
  {
    var text := Json.Stringify(config);
    Json.StringifyRange(config, 0xFF);
    DecryptEncrypt(text);
    Base64.BtoaNonEmpty(text);
    Json.ParseStringify(config);
    Json.AsStringObjectFromStrings(config);
  }

  /** After a successful save the agent counts as configured: the base64 text
      of a JSON object is never empty. */
  lemma HasAfterSave(items: Store, agentId: string, config: Config)
    requires Saved(items, agentId, config).Some?
    ensures Has(Saved(items, agentId, config).value, agentId)
  {
    var text := Json.Stringify(config);
    Json.StringifyRange(config, 0xFF);
    Base64.BtoaNonEmpty(text);
  }

  /** After a delete the agent is not configured and loads as null. */
  lemma AfterDelete(items: Store, agentId: string)
    ensures !Has(Deleted(items, agentId), agentId)
    ensures Loaded(Deleted(items, agentId), agentId).None?
  {
  }

  /** Saving replaces the whole entry: the second of two saves wins and
      nothing of the first is merged in. */
  lemma LastSaveWins(items: Store, agentId: string, first: Config, second: Config)
    requires Saved(items, agentId, first).Some?
    ensures Saved(Saved(items, agentId, first).value, agentId, second) == Saved(items, agentId, second)
  {
    var k := StorageKey(agentId);
    var m := Saved(items, agentId, first).value;
    if Saved(items, agentId, second).Some? {
      var text := Encrypt(Json.Stringify(second)).value;
      assert m[k := text] == items[k := text];
    }
  }

  /** `localStorage`, restricted to what the configuration store uses. */
  class LocalStorage {
    var items: Store

    constructor()
      ensures items == map[]
    {
      items := map[];
    }

    /** `saveAgentConfig`; `ok` is false where it throws, and then nothing
        is written.  It throws where `btoa` does, or where `setItem` does
        (a full quota), which `setItemThrows` stands for. */
    method SaveAgentConfig(agentId: string, config: Config, setItemThrows: bool) returns (ok: bool)
      modifies this
      ensures ok <==> IsLatin1Config(config) && !setItemThrows
      ensures ok ==> items == Saved(old(items), agentId, config).value
      ensures !ok ==> items == old(items)
    {
      Json.StringifyRange(config, 0xFF);
      var encrypted := Encrypt(Json.Stringify(config));
      if encrypted.None? || setItemThrows {
        return false;
      }
      items := items[StorageKey(agentId) := encrypted.value];
      return true;
    }

    /** `getAgentConfig`. */
    method GetAgentConfig(agentId: string) returns (r: Option<Json.Value>)
      ensures r == Loaded(items, agentId)
    {
      var key := StorageKey(agentId);
      if key !in items || items[key] == "" {
        return None;
      }
      var text := Decrypt(items[key]);
      if text.None? {
        return None;
      }
      r := Json.Parse(text.value);
    }

    /** `deleteAgentConfig`. */
    method DeleteAgentConfig(agentId: string)
      modifies this
      ensures items == Deleted(old(items), agentId)
    {
      items := items - {StorageKey(agentId)};
    }

    /** `hasAgentConfig`. */
    method HasAgentConfig(agentId: string) returns (b: bool)
      ensures b == Has(items, agentId)
    {
      var key := StorageKey(agentId);
      b := key in items && items[key] != "";
    }
  }
}
