/** Setup's split of a provider's configuration between the platform database, the encrypted
    credential store and the configuration file. */
module ProviderSecrets {
  import opened Seqs
  import opened SecretCleaning

  type Fields = map<string, string>

  /** A configuration map; like the maps of the original it is shared by reference. */
  class ProviderConfig {
    var fields: Fields

    constructor (fields: Fields)
      ensures this.fields == fields
    {
      this.fields := fields;
    }
  }

  /** The credential store's file, decrypted. */
  class CredentialStore {
    var secrets: Fields

    constructor (secrets: Fields)
      ensures this.secrets == secrets
    {
      this.secrets := secrets;
    }
  }

  class PlatformSettings {
    var providers: map<string, Fields>
    var defaultProvider: string
    var defaultModel: string

    constructor ()
      ensures providers == map[] && defaultProvider == defaultModel == ""
    {
      providers, defaultProvider, defaultModel := map[], "", "";
    }
  }

  class AppConfig {
    var providers: map<string, ProviderConfig>
    var defaultProvider: string
    var defaultModel: string

    constructor (providers: map<string, ProviderConfig>, defaultModel: string)
      ensures this.providers == providers && this.defaultModel == defaultModel
    {
      this.providers, this.defaultProvider, this.defaultModel := providers, "", defaultModel;
    }
  }

  /** Which keys are moved to the credential store for a provider type. */
  function SecretKeys(providerType: string): seq<string> {
    if providerType == "sap_ai_core" then ["client_id", "client_secret", "auth_url"]
    else if providerType == "ollama" || providerType == "lm_studio" then []
    else if providerType == "xai_oauth" then ["access_token", "refresh_token", "expires_at"]
    else if providerType == "copilot_oauth" then ["github_token"]
    else ["api_key"]
  }

  /** Which keys the loader looks up in the credential store for a provider type. */
  function InjectedKeys(providerType: string): seq<string> {
    if providerType == "sap_ai_core" then ["client_id", "client_secret", "auth_url"]
    else if providerType == "xai_oauth" then ["access_token", "refresh_token", "expires_at"]
    else ["api_key"]
  }

  function StoreKey(instance: string, key: string): string { "provider." + (instance + ("." + key)) }

  /** A missing entry reads as the empty string. */
  function Get(fields: Fields, key: string): string { if key in fields then fields[key] else "" }

  /** The non-empty entries under the given keys, named for the credential store. */
  function SecretsOf(instance: string, keys: seq<string>, fields: Fields): Fields {
    if keys == [] then map[]
    else
      var before := SecretsOf(instance, keys[..|keys| - 1], fields);
      var key := keys[|keys| - 1];
      if Get(fields, key) == "" then before else before[StoreKey(instance, key) := Get(fields, key)]
  }

  function Cleaned(secrets: Fields): Fields { map k | k in secrets :: Clean(secrets[k]) }

  function Without(fields: Fields, keys: seq<string>): Fields { fields - Elems(keys) }

  /** What stays in the map when the save succeeds. */
  function Kept(instance: string, keys: seq<string>, fields: Fields): Fields {
    if SecretsOf(instance, keys, fields) == map[] then fields else Without(fields, keys)
  }

  /** Whether the credential store opens, whether what opening cleaned can be written back (its
      failure is ignored), and whether writing the new secrets succeeds. */
  datatype StoreOutcome = StoreOutcome(opens: bool, cleans: bool, saves: bool)

  /** Whether the call succeeds. */
  predicate Succeeds(secrets: Fields, o: StoreOutcome) { o.opens && (secrets == map[] || o.saves) }

  /** The store's file afterwards: opening alone already cleans what it holds. */
  function OnDisk(prior: Fields, secrets: Fields, o: StoreOutcome): Fields {
    if !o.opens then prior
    else if secrets != map[] && o.saves then Cleaned(prior) + Cleaned(secrets)
    else if o.cleans then Cleaned(prior)
    else prior
  }

  method CollectSecrets(instance: string, keys: seq<string>, cfg: ProviderConfig) returns (secrets: Fields)
    ensures secrets == SecretsOf(instance, keys, cfg.fields)
  {
    secrets := map[];
    for i := 0 to |keys|
      invariant secrets == SecretsOf(instance, keys[..i], cfg.fields)
    {
      assert keys[..i + 1][..i] == keys[..i];
      if keys[i] in cfg.fields && cfg.fields[keys[i]] != "" {
        secrets := secrets[StoreKey(instance, keys[i]) := cfg.fields[keys[i]]];
      }
    }
    assert keys[..|keys|] == keys;
  }

  method DeleteKeys(cfg: ProviderConfig, keys: seq<string>)
    modifies cfg
    ensures cfg.fields == Without(old(cfg.fields), keys)
  {
    for i := 0 to |keys|
      invariant cfg.fields == Without(old(cfg.fields), keys[..i])
    {
      ElemsStep(keys, i);
      cfg.fields := cfg.fields - {keys[i]};
    }
    assert keys[..|keys|] == keys;
  }

  /** Moves the secrets of a configuration to the credential store; on failure, or without
      secrets, the map is left alone and the store at most cleaned. */
  method SaveProviderSecrets(instance: string, providerType: string, cfg: ProviderConfig, store: CredentialStore,
                             outcome: StoreOutcome)
    returns (ok: bool)
    modifies cfg, store
    ensures var keys := SecretKeys(providerType);
      var secrets := SecretsOf(instance, keys, old(cfg.fields));
      && ok == Succeeds(secrets, outcome)
      && cfg.fields == (if ok then Kept(instance, keys, old(cfg.fields)) else old(cfg.fields))
      && store.secrets == OnDisk(old(store.secrets), secrets, outcome)
  {
    if !outcome.opens { return false; }
    var data := Cleaned(store.secrets);
    if outcome.cleans { store.secrets := data; }
    var keys := SecretKeys(providerType);
    hide SecretKeys, SecretsOf, Without;
    var secrets := CollectSecrets(instance, keys, cfg);
    if |secrets| == 0 { return true; }
    if !outcome.saves { return false; }
    store.secrets := data + Cleaned(secrets);
    DeleteKeys(cfg, keys);
    ok := true;
  }

  /** A new map with the same entries. */
  method Copy(cfg: ProviderConfig) returns (copy: ProviderConfig)
    ensures fresh(copy) && copy.fields == cfg.fields
  {
    copy := new ProviderConfig(map[]);
    var original := cfg.fields;
    var todo := original.Keys;
    while todo != {}
      invariant todo <= original.Keys
      invariant copy.fields == original - todo
      decreases |todo|
    {
      var k :| k in todo;
      copy.fields := copy.fields[k := original[k]];
      todo := todo - {k};
    }
    assert original - {} == original;
  }

  /** Saves a copy of the provider's configuration with the platform settings. */
  method SaveProviderToPlatform(app: AppConfig, instance: string, cfg: ProviderConfig, db: PlatformSettings,
                                loads: bool, saves: bool)
    returns (ok: bool)
    modifies db
    ensures ok == (loads && saves)
    ensures db.providers == if ok then old(db.providers)[instance := cfg.fields] else old(db.providers)
    ensures db.defaultProvider == if ok then instance else old(db.defaultProvider)
    ensures db.defaultModel == if ok && app.defaultModel != "" then app.defaultModel else old(db.defaultModel)
  {
    if !loads { return false; }
    var copy := Copy(cfg);
    if !saves { return false; }
    db.providers := db.providers[instance := copy.fields];
    db.defaultProvider := instance;
    if app.defaultModel != "" { db.defaultModel := app.defaultModel; }
    ok := true;
  }

  /** What the configuration file holds: the maps' contents at the time of writing. */
  function Snapshot(providers: map<string, ProviderConfig>): map<string, Fields>
    reads providers.Values
  {
    map i | i in providers :: providers[i].fields
  }

  /** The end of the setup form for a configured provider: the platform copy first, then the
      credential store, then the configuration file. */
  method SaveProvider(app: AppConfig, instance: string, providerType: string, platform: bool, db: PlatformSettings,
                      loads: bool, saves: bool, store: CredentialStore, outcome: StoreOutcome)
    returns (file: map<string, Fields>)
    requires instance in app.providers
    requires forall i :: i in app.providers && i != instance ==> app.providers[i] != app.providers[instance]
    modifies app, app.providers[instance], db, store
    ensures app.providers == old(app.providers) && app.defaultProvider == instance
    ensures db.providers ==
      if platform && loads && saves then old(db.providers)[instance := old(app.providers[instance].fields)]
      else old(db.providers)
    ensures db.defaultProvider == if platform && loads && saves then instance else old(db.defaultProvider)
    ensures db.defaultModel ==
      if platform && loads && saves && app.defaultModel != "" then app.defaultModel else old(db.defaultModel)
    ensures var keys := SecretKeys(providerType);
      var original := old(app.providers[instance].fields);
      var secrets := SecretsOf(instance, keys, original);
      && file == old(Snapshot(app.providers))[instance :=
           if Succeeds(secrets, outcome) then Kept(instance, keys, original) else original]
      && store.secrets == OnDisk(old(store.secrets), secrets, outcome)
  {
    hide SecretKeys, SecretsOf, Kept, Cleaned;
    var cfg := app.providers[instance];
    ghost var before := Snapshot(app.providers);
    app.defaultProvider := instance;
    if platform {
      var copied := SaveProviderToPlatform(app, instance, cfg, db, loads, saves);
    }
    var moved := SaveProviderSecrets(instance, providerType, cfg, store, outcome);
    file := Snapshot(app.providers);
    assert file == before[instance := cfg.fields];
  }

  /** The loader puts the stored secrets back into a configuration that lacks them. */
  method InjectProviderSecrets(instance: string, providerType: string, cfg: ProviderConfig, secrets: Fields)
    modifies cfg
    ensures cfg.fields == Injected(instance, InjectedKeys(providerType), old(cfg.fields), secrets)
  {
    var keys := InjectedKeys(providerType);
    hide InjectedKeys;
    for i := 0 to |keys|
      invariant cfg.fields == Injected(instance, keys[..i], old(cfg.fields), secrets)
    {
      assert keys[..i + 1][..i] == keys[..i];
      if keys[i] in cfg.fields && cfg.fields[keys[i]] != "" { continue; }
      var stored := Get(secrets, StoreKey(instance, keys[i]));
      if stored != "" { cfg.fields := cfg.fields[keys[i] := stored]; }
    }
    assert keys[..|keys|] == keys;
  }

  function Injected(instance: string, keys: seq<string>, fields: Fields, secrets: Fields): Fields {
    if keys == [] then fields
    else
      var before := Injected(instance, keys[..|keys| - 1], fields, secrets);
      var key := keys[|keys| - 1];
      var stored := Get(secrets, StoreKey(instance, key));
      if Get(before, key) != "" || stored == "" then before else before[key := stored]
  }
}
