/** The form state of
    be/apps/dashboard/src/modules/storage-providers/components/ProviderEditModal.tsx:
    a copy of the provider being edited, a dirty flag, and the transitions
    the name, type and config inputs, the save button and a change of the
    `provider` prop cause. */
module ProviderEdit {
  import opened Common
  import opened ProviderConstants
  import opened Providers

  /** The modal's state: `formData`, `isDirty`, and the provider key the
      last reset was made for. */
  datatype Form = Form(data: Option<Provider>, dirty: bool, key: string)

  /** `providerKey`: the provider's id, or "new" when it has none. */
  function ProviderKey(provider: Option<Provider>): (r: string)
    ensures r != ""
    ensures provider.Some? && provider.value.id != "" ==> r == provider.value.id
    ensures !(provider.Some? && provider.value.id != "") ==> r == "new"
  {
    if provider.Some? && provider.value.id != "" then provider.value.id else "new"
  }

  /** The state on opening: the given provider, not dirty. */
  function Init(provider: Option<Provider>): (r: Form)
    ensures r.data == provider && !r.dirty && r.key == ProviderKey(provider)
  {
    Form(provider, false, ProviderKey(provider))
  }

  /** The reset effect: a new provider key discards the form for the new
      provider; the same key leaves the form alone, edits included. */
  function PropsChanged(f: Form, provider: Option<Provider>): (r: Form)
    ensures ProviderKey(provider) != f.key ==> r == Init(provider)
    ensures ProviderKey(provider) == f.key ==> r == f
  {
    if ProviderKey(provider) != f.key then Init(provider) else f
  }

  /** `handleNameChange`. */
  function NameChange(f: Form, value: string): (r: Form)
    ensures f.data.None? ==> r == f
    ensures f.data.Some? ==> r.dirty && r.key == f.key && r.data == Some(f.data.value.(name := value))
  {
    match f.data
    case None => f
    case Some(p) => f.(data := Some(p.(name := value)), dirty := true)
  }

  /** `handleTypeChange`: the type is replaced and the config emptied. */
  function TypeChange(f: Form, t: ProviderType): (r: Form)
    ensures f.data.None? ==> r == f
    ensures f.data.Some? ==> r.dirty && r.key == f.key && r.data.Some?
    ensures f.data.Some? ==> var p := r.data.value;
              p.ptype == t && p.config == map[] && p.id == f.data.value.id && p.name == f.data.value.name
              && p.(ptype := f.data.value.ptype, config := f.data.value.config) == f.data.value
  {
    match f.data
    case None => f
    case Some(p) => f.(data := Some(p.(ptype := t, config := map[])), dirty := true)
  }

  /** `handleConfigChange`: one config key is set, everything else is
      kept. */
  function ConfigChange(f: Form, key: string, value: string): (r: Form)
    ensures f.data.None? ==> r == f
    ensures f.data.Some? ==> r.dirty && r.key == f.key && r.data.Some?
    ensures f.data.Some? ==> var p := r.data.value;
              key in p.config && p.config[key] == value
              && p.config.Keys == f.data.value.config.Keys + {key}
              && (forall k :: k in p.config && k != key ==> p.config[k] == f.data.value.config[k])
              && p.(config := f.data.value.config) == f.data.value
  {
    match f.data
    case None => f
    case Some(p) => f.(data := Some(p.(config := p.config[key := value])), dirty := true)
  }

  /** `selectedFields`: the field table of the form's current type. */
  function SelectedFields(f: Form): (r: seq<FieldDefinition>)
    ensures f.data.None? ==> r == []
    ensures f.data.Some? ==> r == FieldDefinitions(f.data.value.ptype) && r != []
  {
    match f.data
    case None => []
    case Some(p) => FieldDefinitions(p.ptype)
  }

  /** The value an input shows: `config[key] || ''`. */
  function DisplayedValue(p: Provider, key: string): (r: string)
    ensures key !in p.config ==> r == ""
    ensures key in p.config ==> r == p.config[key]
  {
    if key in p.config && p.config[key] != "" then p.config[key] else ""
  }

  /** What pressing save does: the provider handed to `onSave`, and
      whether the modal is dismissed. */
  datatype SaveEffect = SaveEffect(saved: Option<Provider>, dismissed: bool)

  /** `handleSave` as written: `formData.id ?? nanoid()` keeps any string
      id, the empty one included, so the provider is saved as it stands. */
  function Save(f: Form): (r: SaveEffect)
    ensures f.data.None? ==> r == SaveEffect(None, false)
    ensures f.data.Some? ==> r == SaveEffect(f.data, true)
  {
    match f.data
    case None => SaveEffect(None, false)
    case Some(p) => SaveEffect(Some(p), true)
  }

  /** `handleSave` with a falsy-id test (`||`): a provider without an id is
      saved under a fresh one. */
  function SaveWithFreshId(f: Form, freshId: string): (r: SaveEffect)
    ensures f.data.None? ==> r == SaveEffect(None, false)
    ensures f.data.Some? ==> r.dismissed && r.saved.Some?
    ensures f.data.Some? ==> r.saved.value.(id := f.data.value.id) == f.data.value
    ensures f.data.Some? && f.data.value.id != "" ==> r.saved == f.data
  {
    match f.data
    case None => SaveEffect(None, false)
    case Some(p) => SaveEffect(Some(p.(id := if p.id != "" then p.id else freshId)), true)
  }

  /** With a non-empty fresh id, the corrected save never stores a provider
      without an id. */
  lemma SaveWithFreshIdAssignsId(f: Form, freshId: string)
    requires f.data.Some? && freshId != ""
    ensures SaveWithFreshId(f, freshId).saved.value.id != ""
  {
  }

  /** Saving the form for a provider made by `createEmptyProvider` stores it
      with the empty id. */
  lemma SaveKeepsEmptyId(t: ProviderType, timestamp: string, untitled: string)
    ensures var f := Init(Some(CreateEmptyProvider(t, timestamp, untitled)));
            Save(f).saved.value.id == ""
  {
  }

  /** `isNewProvider`: the prop has no id. */
  function IsNewProvider(provider: Option<Provider>): (r: bool)
    ensures r ==> ProviderKey(provider) == "new"
    ensures !r ==> provider.Some? && ProviderKey(provider) == provider.value.id
  {
    provider.None? || provider.value.id == ""
  }

  /** The primary button: always enabled when creating, enabled only once
      dirty when editing. */
  function SaveEnabled(provider: Option<Provider>, f: Form): (r: bool)
    ensures IsNewProvider(provider) ==> r
    ensures !IsNewProvider(provider) ==> (r <==> f.dirty)
  {
    IsNewProvider(provider) || f.dirty
  }

  /** An edit of an existing provider enables save; the unedited form of an
      existing provider does not. */
  lemma EditEnablesSave(provider: Option<Provider>, name: string)
    requires provider.Some? && provider.value.id != ""
    ensures !SaveEnabled(provider, Init(provider))
    ensures SaveEnabled(provider, NameChange(Init(provider), name))
  {
  }

  /** A config edit shows up in the matching input. */
  lemma ConfigEditIsDisplayed(f: Form, key: string, value: string)
    requires f.data.Some?
    ensures DisplayedValue(ConfigChange(f, key, value).data.value, key) == value
  {
  }

  /** After a type change every input of the new type shows "". */
  lemma TypeChangeClearsInputs(f: Form, t: ProviderType, i: nat)
    requires f.data.Some? && i < |FieldDefinitions(t)|
    ensures var g := TypeChange(f, t);
            SelectedFields(g) == FieldDefinitions(t)
            && DisplayedValue(g.data.value, SelectedFields(g)[i].key) == ""
  {
  }

  /** A new provider prop discards unsaved edits. */
  lemma NewProviderDiscardsEdits(f: Form, provider: Option<Provider>, value: string)
    requires ProviderKey(provider) != f.key
    ensures PropsChanged(NameChange(f, value), provider) == Init(provider)
  {
  }
}
