/** The constant tables of
    be/apps/dashboard/src/modules/storage-providers/constants.ts: the
    provider types, the options offered for them, and the configuration
    fields each type asks for. */
module ProviderConstants {
  import opened Common

  /** `StorageProviderType`. */
  datatype ProviderType = S3 | GitHub

  /** The wire name of a provider type. */
  function TypeName(t: ProviderType): (r: string)
    ensures r != ""
  {
    match t
    case S3 => "s3"
    case GitHub => "github"
  }

  /** The provider type a wire name denotes, if any. */
  function TypeFromName(s: string): (r: Option<ProviderType>)
    ensures r.Some? ==> TypeName(r.value) == s
    ensures forall t: ProviderType :: TypeName(t) == s ==> r == Some(t)
  {
    if s == "s3" then Some(S3)
    else if s == "github" then Some(GitHub)
    else None
  }

  lemma TypeNameRoundTrip(t: ProviderType)
    ensures TypeFromName(TypeName(t)) == Some(t)
  {
  }

  /** `STORAGE_PROVIDER_TYPES`. */
  const ProviderTypes: seq<ProviderType> := [S3, GitHub]

  /** An entry of `STORAGE_PROVIDER_TYPE_OPTIONS`. */
  datatype TypeOption = TypeOption(value: ProviderType, labelKey: string)

  /** `STORAGE_PROVIDER_TYPE_OPTIONS`. */
  const TypeOptions: seq<TypeOption> := [
    TypeOption(S3, "storage.providers.types.s3"),
    TypeOption(GitHub, "storage.providers.types.github")
  ]

  /** The i18n key of the label for a provider without a name. */
  const UntitledKey: string := "storage.providers.card.untitled"

  /** `StorageProviderFieldDefinition`. */
  datatype FieldDefinition = FieldDefinition(
    key: string,
    labelKey: string,
    placeholderKey: Option<string>,
    descriptionKey: Option<string>,
    helperKey: Option<string>,
    multiline: bool,
    sensitive: bool)

  /** A field with a label, placeholder and description under the usual
      key scheme "storage.providers.fields.<type>.<slug>.<part>". */
  function Field(t: string, key: string, slug: string, described: bool, helper: bool,
                 multiline: bool, sensitive: bool): (r: FieldDefinition)
    ensures r.key == key && r.multiline == multiline && r.sensitive == sensitive
  {
    var base := "storage.providers.fields." + t + "." + slug + ".";
    FieldDefinition(
      key,
      base + "label",
      Some(base + "placeholder"),
      if described then Some(base + "description") else None,
      if helper then Some(base + "helper") else None,
      multiline,
      sensitive)
  }

  const S3Fields: seq<FieldDefinition> := [
    Field("s3", "bucket", "bucket", true, false, false, false),
    Field("s3", "region", "region", true, false, false, false),
    Field("s3", "endpoint", "endpoint", true, true, false, false),
    Field("s3", "accessKeyId", "access-key", false, false, false, false),
    Field("s3", "secretAccessKey", "secret-key", false, false, false, true),
    Field("s3", "prefix", "prefix", true, false, false, false),
    Field("s3", "customDomain", "custom-domain", true, false, false, false),
    Field("s3", "excludeRegex", "exclude-regex", true, true, true, false),
    Field("s3", "maxFileLimit", "max-files", true, false, false, false)
  ]

  const GitHubFields: seq<FieldDefinition> := [
    Field("github", "owner", "owner", true, false, false, false),
    Field("github", "repo", "repo", true, false, false, false),
    Field("github", "branch", "branch", true, true, false, false),
    Field("github", "token", "token", true, false, false, true),
    Field("github", "path", "path", true, false, false, false),
    Field("github", "useRawUrl", "use-raw", true, true, false, false)
  ]

  /** `STORAGE_PROVIDER_FIELD_DEFINITIONS[t]`. */
  function FieldDefinitions(t: ProviderType): (r: seq<FieldDefinition>)
    ensures r != []
  {
    match t
    case S3 => S3Fields
    case GitHub => GitHubFields
  }

  /** The keys of a field list, in order. */
  function Keys(fields: seq<FieldDefinition>): (r: seq<string>)
    ensures |r| == |fields|
    ensures forall i :: 0 <= i < |fields| ==> r[i] == fields[i].key
  {
    if fields == [] then [] else [fields[0].key] + Keys(fields[1..])
  }

  /** The configuration keys a provider of type `t` carries, in table
      order (`FieldKeysMatchTable` ties them to the field table). */
  function FieldKeys(t: ProviderType): (r: seq<string>)
    ensures r != []
  {
    match t
    case S3 => ["bucket", "region", "endpoint", "accessKeyId", "secretAccessKey",
                "prefix", "customDomain", "excludeRegex", "maxFileLimit"]
    case GitHub => ["owner", "repo", "branch", "token", "path", "useRawUrl"]
  }

  // ---------------------------------------------------------------------
  // Facts about the tables
  // ---------------------------------------------------------------------

  /** The options offer exactly the provider types, in the same order, each
      with its own label key. */
  lemma TypeOptionsMatchTypes()
    ensures ProviderTypes == [S3, GitHub]
    ensures |TypeOptions| == |ProviderTypes|
    ensures forall i :: 0 <= i < |TypeOptions| ==>
              TypeOptions[i].value == ProviderTypes[i]
              && TypeOptions[i].labelKey == "storage.providers.types." + TypeName(ProviderTypes[i])
  {
  }

  /** The key list is the keys of the field table, in table order: for
      s3 bucket, region, endpoint, accessKeyId, secretAccessKey, prefix,
      customDomain, excludeRegex, maxFileLimit; for github owner, repo,
      branch, token, path, useRawUrl. */
  lemma FieldKeysMatchTable(t: ProviderType)
    ensures Keys(FieldDefinitions(t)) == FieldKeys(t)
  {
    if t == S3 {
      S3KeysMatch();
    } else {
      GitHubKeysMatch();
    }
  }

  lemma S3KeysMatch()
    ensures Keys(S3Fields) == FieldKeys(S3)
  {
    var ks := Keys(S3Fields);
    assert ks[0] == "bucket" && ks[1] == "region" && ks[2] == "endpoint";
    assert ks[3] == "accessKeyId" && ks[4] == "secretAccessKey" && ks[5] == "prefix";
    assert ks[6] == "customDomain" && ks[7] == "excludeRegex" && ks[8] == "maxFileLimit";
  }

  lemma GitHubKeysMatch()
    ensures Keys(GitHubFields) == FieldKeys(GitHub)
  {
    var ks := Keys(GitHubFields);
    assert ks[0] == "owner" && ks[1] == "repo" && ks[2] == "branch";
    assert ks[3] == "token" && ks[4] == "path" && ks[5] == "useRawUrl";
  }

  /** Within a type no two fields share a key, so a config has one entry
      per field. */
  lemma FieldKeysDistinct(t: ProviderType)
    ensures NoDuplicates(FieldKeys(t))
  {
    if t == S3 {
      S3KeysDistinct();
    } else {
      GitHubKeysDistinct();
    }
  }

  lemma S3KeysDistinct()
    ensures NoDuplicates(["bucket", "region", "endpoint", "accessKeyId", "secretAccessKey",
                          "prefix", "customDomain", "excludeRegex", "maxFileLimit"])
  {
    var keys := ["bucket", "region", "endpoint", "accessKeyId", "secretAccessKey",
                 "prefix", "customDomain", "excludeRegex", "maxFileLimit"];
    var firsts := ['b', 'r', 'e', 'a', 's', 'p', 'c', 'e', 'm'];
    var lens := [6, 6, 8, 11, 15, 6, 12, 12, 12];
    assert forall i :: 0 <= i < |keys| ==> |keys[i]| == lens[i] && keys[i][0] == firsts[i];
    forall i, j | 0 <= i < j < |keys|
      ensures keys[i] != keys[j]
    {
      assert firsts[i] != firsts[j] || lens[i] != lens[j];
    }
  }

  lemma GitHubKeysDistinct()
    ensures NoDuplicates(["owner", "repo", "branch", "token", "path", "useRawUrl"])
  {
    var keys := ["owner", "repo", "branch", "token", "path", "useRawUrl"];
    var firsts := ['o', 'r', 'b', 't', 'p', 'u'];
    assert forall i :: 0 <= i < |keys| ==> keys[i] != [] && keys[i][0] == firsts[i];
    forall i, j | 0 <= i < j < |keys|
      ensures keys[i] != keys[j]
    {
      assert firsts[i] != firsts[j];
    }
  }

  /** Only the secret access key and the token are sensitive, and only the
      exclusion pattern is multi-line. */
  lemma SensitiveAndMultilineFields(t: ProviderType, i: nat)
    requires i < |FieldDefinitions(t)|
    ensures FieldDefinitions(t)[i].sensitive <==>
              FieldDefinitions(t)[i].key == "secretAccessKey" || FieldDefinitions(t)[i].key == "token"
    ensures FieldDefinitions(t)[i].multiline <==> FieldDefinitions(t)[i].key == "excludeRegex"
  {
  }

  /** Every field has a placeholder; the S3 access-key pair alone has no
      description. */
  lemma PlaceholdersAndDescriptions(t: ProviderType, i: nat)
    requires i < |FieldDefinitions(t)|
    ensures FieldDefinitions(t)[i].placeholderKey.Some?
    ensures FieldDefinitions(t)[i].descriptionKey.None? <==>
              FieldDefinitions(t)[i].key == "accessKeyId" || FieldDefinitions(t)[i].key == "secretAccessKey"
  {
  }
}
