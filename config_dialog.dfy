// The dialog that collects an agent's credentials
// (components/agent-config-dialog.tsx): it loads the saved configuration when
// opened, records edits, and on submit either reports the required fields
// still empty or saves the form and closes.

module ConfigDialog {
  import opened Wrappers
  import JsObject
  import Text
  import Json
  import opened AgentConfig
  import Storage

  /** `formData[key]` is truthy: present and not the empty string.  Only
      emptiness matters, so a value of spaces counts as filled. */
  predicate IsFilled(formData: Config, key: string) {
    match JsObject.Get(formData, key)
    case None => false
    case Some(v) => v != ""
  }

  predicate IsMissing(f: AgentConfigField, formData: Config) {
    f.required && !IsFilled(formData, f.key)
  }

  /** The labels of the required fields left empty, in schema order. */
  function MissingFields(fields: seq<AgentConfigField>, formData: Config): seq<string> {
    if fields == [] then []
    else
      var head := if IsMissing(fields[0], formData) then [fields[0].labelText] else [];
      head + MissingFields(fields[1..], formData)
  }

  const ErrorPrefix: string := "Please fill in the following required fields: "

  function ErrorMessage(missing: seq<string>): (r: string)
    ensures |r| >= |ErrorPrefix| && r[..|ErrorPrefix|] == ErrorPrefix
  {
    ErrorPrefix + Text.Join(missing, ", ")
  }

  /** The form a dialog starts from: the saved configuration when it reads
      as an object of strings, the empty form otherwise. */
  function FormFromSaved(saved: Option<Json.Value>): (r: Config)
    ensures r == [] || saved == Some(Json.Object(Json.FromStrings(r)))
  {
    match saved
    case None => []
    case Some(v) =>
      match Json.AsStringObject(v)
      case None => []
      case Some(es) => es
  }

  /** A saved object of strings is put in the form exactly as stored. */
  lemma SavedObjectIsShown(es: Config)
    ensures FormFromSaved(Some(Json.Object(Json.FromStrings(es)))) == es
  {
    Json.AsStringObjectFromStrings(es);
  }

  // ---- properties of the validation ----------------------------------------

  /** Validation of a concatenated field list is the concatenation of the
      validations: the list keeps schema order. */
  lemma {:induction false} MissingFieldsAppend(a: seq<AgentConfigField>, b: seq<AgentConfigField>, formData: Config)
    ensures MissingFields(a + b, formData) == MissingFields(a, formData) + MissingFields(b, formData)
  {
    if a == [] {
      assert a + b == b;
    } else {
      var h := if IsMissing(a[0], formData) then [a[0].labelText] else [];
      assert (a + b)[0] == a[0] && (a + b)[1..] == a[1..] + b;
      MissingFieldsAppend(a[1..], b, formData);
      var x, y := MissingFields(a[1..], formData), MissingFields(b, formData);
      assert MissingFields(a + b, formData) == h + (x + y);
      assert h + (x + y) == (h + x) + y;
    }
  }

  /** A label is reported exactly when some required field with that label
      is absent or empty. */
  lemma {:induction false} MissingFieldsMembership(fields: seq<AgentConfigField>, formData: Config, name: string)
    ensures name in MissingFields(fields, formData) <==>
      exists i :: 0 <= i < |fields| && IsMissing(fields[i], formData) && fields[i].labelText == name
  {
    if fields != [] {
      MissingFieldsMembership(fields[1..], formData, name);
      if name in MissingFields(fields[1..], formData) {
        var i :| 0 <= i < |fields[1..]| && IsMissing(fields[1..][i], formData) && fields[1..][i].labelText == name;
        assert fields[i + 1] == fields[1..][i];
      }
      forall i | 1 <= i < |fields| && IsMissing(fields[i], formData) && fields[i].labelText == name
        ensures name in MissingFields(fields[1..], formData)
      {
        assert fields[1..][i - 1] == fields[i];
      }
    }
  }

  /** Nothing is reported exactly when every required field is filled. */
  lemma {:induction false} NoneMissingIffAllFilled(fields: seq<AgentConfigField>, formData: Config)
    ensures MissingFields(fields, formData) == [] <==>
      forall i :: 0 <= i < |fields| && fields[i].required ==> IsFilled(formData, fields[i].key)
  {
    if fields != [] {
      NoneMissingIffAllFilled(fields[1..], formData);
      if forall i :: 1 <= i < |fields| && fields[i].required ==> IsFilled(formData, fields[i].key) {
        forall i | 0 <= i < |fields[1..]| && fields[1..][i].required
          ensures IsFilled(formData, fields[1..][i].key)
        {
          assert fields[1..][i] == fields[i + 1];
        }
      }
    }
  }

  /** The error names every missing label. */
  lemma ErrorNamesEachMissing(missing: seq<string>, k: nat)
    requires k < |missing|
    ensures Text.Contains(ErrorMessage(missing), missing[k])
  {
    var joined := Text.Join(missing, ", ");
    Text.JoinContainsEach(missing, ", ", k);
    Text.ContainsIffOccurs(joined, missing[k]);
    var i :| Text.OccursAt(joined, missing[k], i);
    var msg := ErrorMessage(missing);
    assert msg[|ErrorPrefix| + i..|ErrorPrefix| + i + |missing[k]|] == joined[i..i + |missing[k]|];
    assert Text.OccursAt(msg, missing[k], |ErrorPrefix| + i);
    Text.ContainsIffOccurs(msg, missing[k]);
  }

  /** An empty twitter form reports both of its fields. */
  lemma EmptyTwitterForm()
    ensures MissingFields(TwitterFields, []) == ["API Key", "API Secret"]
    ensures ErrorMessage(MissingFields(TwitterFields, []))
      == ErrorPrefix + "API Key, API Secret"
  {
    var f := TwitterFields;
    assert f[1..][1..] == [];
    assert MissingFields(f[1..], []) == ["API Secret"];
    var missing := ["API Key", "API Secret"];
    assert missing[1..] == ["API Secret"];
    assert Text.Join(missing, ", ") == "API Key" + ", " + "API Secret";
  }

  /** A twitter form of spaces and tabs passes validation. */
  lemma WhitespaceTwitterForm()
    ensures MissingFields(TwitterFields, [("api_key", " "), ("api_secret", "\t")]) == []
  {
    assert TwitterFields[1..][1..] == [];
  }

  /** Reopening after a save shows the saved form again, entry for entry. */
  lemma ReopenShowsSaved(items: Storage.Store, agentId: string, formData: Config)
    requires JsObject.DistinctKeys(formData) && Storage.IsLatin1Config(formData)
    ensures Storage.Saved(items, agentId, formData).Some?
    ensures FormFromSaved(Storage.Loaded(Storage.Saved(items, agentId, formData).value, agentId)) == formData
  {
    Storage.LoadSaved(items, agentId, formData);
  }

  /** Whatever is stored, the form it yields has distinct keys. */
  lemma FormFromLoadedDistinct(items: Storage.Store, agentId: string)
    ensures JsObject.DistinctKeys(FormFromSaved(Storage.Loaded(items, agentId)))
  {
    var saved := Storage.Loaded(items, agentId);
    var r := FormFromSaved(saved);
    if r != [] {
      var text := Storage.Decrypt(items[Storage.StorageKey(agentId)]).value;
      Json.ParsedObjectDistinct(text);
      Json.DistinctFromStrings(r);
    }
  }

  datatype SubmitOutcome = Rejected(missing: seq<string>) | SavedAndClosed | SaveThrew

  class Dialog {
    const definition: AgentConfigDefinition
    const store: Storage.LocalStorage
    var formData: Config
    var error: string
    var open: bool
    /** How many times `onConfigured` has been called. */
    var configuredCalls: nat

    ghost predicate Valid()
      reads this
    {
      JsObject.DistinctKeys(formData)
    }

    constructor(definition: AgentConfigDefinition, store: Storage.LocalStorage)
      ensures this.definition == definition && this.store == store
      ensures formData == [] && error == "" && !open && configuredCalls == 0
      ensures Valid()
    {
      this.definition := definition;
      this.store := store;
      formData := [];
      error := "";
      open := false;
      configuredCalls := 0;
    }

    /** The dialog opens: the effect reloads the form from the store and
        clears the error. */
    method Open()
      modifies this
      ensures open && error == ""
      ensures formData == FormFromSaved(Storage.Loaded(store.items, definition.id))
      ensures configuredCalls == old(configuredCalls)
      ensures Valid()
    {
      open := true;
      var saved := store.GetAgentConfig(definition.id);
      formData := FormFromSaved(saved);
      FormFromLoadedDistinct(store.items, definition.id);
      error := "";
    }

    /** `handleInputChange`: one key takes the new value, the error clears. */
    method HandleInputChange(key: string, value: string)
      requires Valid()
      modifies this
      ensures formData == JsObject.Put(old(formData), key, value)
      ensures forall k :: JsObject.Get(formData, k) == if k == key then Some(value) else JsObject.Get(old(formData), k)
      ensures error == "" && open == old(open) && configuredCalls == old(configuredCalls)
      ensures Valid()
    {
      JsObject.PutDistinct(formData, key, value);
      forall k ensures JsObject.Get(JsObject.Put(formData, key, value), k) ==
        if k == key then Some(value) else JsObject.Get(formData, k)
      {
        JsObject.GetPut(formData, key, value, k);
      }
      formData := JsObject.Put(formData, key, value);
      error := "";
    }

    /** The Cancel button, `onOpenChange(false)`: the dialog closes and the
        form, the error and the notifications stay as they were. */
    method Close()
      modifies this
      ensures !open
      ensures formData == old(formData) && error == old(error)
      ensures configuredCalls == old(configuredCalls)
    {
      open := false;
    }

    /** `handleSubmit`: reject with the missing labels, or save, notify and
        close; a save that throws (`btoa`, or `setItem` where `setItemThrows`)
        leaves everything as it was. */
    method HandleSubmit(setItemThrows: bool) returns (outcome: SubmitOutcome)
      requires Valid()
      modifies this, store
      ensures formData == old(formData) && Valid()
      ensures var missing := MissingFields(definition.fields, formData);
        if missing != [] then
          outcome == Rejected(missing) && error == ErrorMessage(missing) &&
          open == old(open) && configuredCalls == old(configuredCalls) &&
          store.items == old(store.items)
        else if Storage.IsLatin1Config(formData) && !setItemThrows then
          outcome == SavedAndClosed && !open && error == old(error) &&
          configuredCalls == old(configuredCalls) + 1 &&
          store.items == Storage.Saved(old(store.items), definition.id, formData).value
        else
          outcome == SaveThrew && open == old(open) && error == old(error) &&
          configuredCalls == old(configuredCalls) && store.items == old(store.items)
    {
      var missing := MissingFields(definition.fields, formData);
      if |missing| > 0 {
        error := ErrorMessage(missing);
        return Rejected(missing);
      }
      var ok := store.SaveAgentConfig(definition.id, formData, setItemThrows);
      if !ok {
        return SaveThrew;
      }
      configuredCalls := configuredCalls + 1;
      open := false;
      return SavedAndClosed;
    }
  }
}
