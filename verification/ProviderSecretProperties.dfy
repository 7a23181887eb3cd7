/** The split loses nothing, and when the loader can undo it. */
module ProviderSecretProperties {
  import opened Seqs
  import opened SecretCleaning
  import opened ProviderSecrets

  lemma StoreKeyTail(i: string, k: string)
    ensures var s := StoreKey(i, k);
      && |s| == |i| + |k| + 10 && s[|s| - 1 - |k|] == '.' && s[|s| - |k|..] == k && s[9..|s| - 1 - |k|] == i
  {
    var s := StoreKey(i, k);
    assert |"provider."| == 9;
    assert s[|s| - |k|..] == k && s[9..|s| - 1 - |k|] == i;
  }

  lemma LongerKeyHasDot(i: string, j: string, k: string, l: string)
    requires StoreKey(i, k) == StoreKey(j, l) && |k| < |l|
    ensures '.' in l
  {
    StoreKeyTail(i, k);
    StoreKeyTail(j, l);
    var s := StoreKey(i, k);
    hide StoreKey;
    assert l[|l| - 1 - |k|] == s[|s| - |l|..][|l| - 1 - |k|] == '.';
  }

  /** Keys without dots tell both the entry and the instance apart. */
  lemma StoreKeyInjective(i: string, j: string, k: string, l: string)
    requires StoreKey(i, k) == StoreKey(j, l)
    requires '.' !in k && '.' !in l
    ensures i == j && k == l
  {
    if |k| < |l| { LongerKeyHasDot(i, j, k, l); }
    if |l| < |k| { LongerKeyHasDot(j, i, l, k); }
    StoreKeyTail(i, k);
    StoreKeyTail(j, l);
    hide StoreKey;
  }

  lemma KeysDiffer(instance: string, k: string, l: string)
    requires StoreKey(instance, k) == StoreKey(instance, l)
    ensures k == l
  {
    StoreKeyTail(instance, k);
    StoreKeyTail(instance, l);
    hide StoreKey;
  }

  /** The secrets found: one per key that has a non-empty value, under that key's name. */
  lemma {:induction false} SecretAt(instance: string, keys: seq<string>, fields: Fields, key: string)
    ensures var s := SecretsOf(instance, keys, fields);
      && (StoreKey(instance, key) in s <==> key in keys && Get(fields, key) != "")
      && (StoreKey(instance, key) in s ==> s[StoreKey(instance, key)] == Get(fields, key))
  {
    if keys != [] {
      hide StoreKey;
      var last := keys[|keys| - 1];
      SecretAt(instance, keys[..|keys| - 1], fields, key);
      if StoreKey(instance, last) == StoreKey(instance, key) { KeysDiffer(instance, last, key); }
      assert keys == keys[..|keys| - 1] + [last];
    }
  }

  lemma {:induction false} SecretsAreNamed(instance: string, keys: seq<string>, fields: Fields)
    ensures forall s :: s in SecretsOf(instance, keys, fields) ==> exists key :: key in keys && s == StoreKey(instance, key)
  {
    if keys != [] {
      hide StoreKey;
      SecretsAreNamed(instance, keys[..|keys| - 1], fields);
      assert forall key :: key in keys[..|keys| - 1] ==> key in keys;
    }
  }

  lemma KeptAt(instance: string, keys: seq<string>, fields: Fields, key: string)
    ensures Get(Kept(instance, keys, fields), key) == if key in keys then "" else Get(fields, key)
  {
    hide StoreKey, SecretsOf;
    SecretAt(instance, keys, fields, key);
  }

  /** Every non-empty entry of the original map ends up in exactly one place: unchanged in the
      map, or under its store key among the secrets; and no non-empty secret stays. */
  lemma SplitIsLossless(instance: string, keys: seq<string>, fields: Fields, key: string)
    requires Get(fields, key) != ""
    ensures var kept := Kept(instance, keys, fields);
      var secrets := SecretsOf(instance, keys, fields);
      && (Get(kept, key) == Get(fields, key)) != (StoreKey(instance, key) in secrets)
      && (StoreKey(instance, key) in secrets ==> secrets[StoreKey(instance, key)] == fields[key])
      && (key in keys <==> Get(kept, key) == "")
  {
    SecretAt(instance, keys, fields, key);
    KeptAt(instance, keys, fields, key);
    hide StoreKey, SecretsOf, Kept;
  }

  /** The secret entries of each provider type, by name. */
  predicate IsSecret(providerType: string, key: string) {
    match providerType
    case "sap_ai_core" => key == "client_id" || key == "client_secret" || key == "auth_url"
    case "ollama" => false
    case "lm_studio" => false
    case "xai_oauth" => key == "access_token" || key == "refresh_token" || key == "expires_at"
    case "copilot_oauth" => key == "github_token"
    case _ => key == "api_key"
  }

  /** The entries the loader looks up for each provider type. */
  predicate IsLookedUp(providerType: string, key: string) {
    match providerType
    case "sap_ai_core" => key == "client_id" || key == "client_secret" || key == "auth_url"
    case "xai_oauth" => key == "access_token" || key == "refresh_token" || key == "expires_at"
    case _ => key == "api_key"
  }

  lemma KeyTables(providerType: string, key: string)
    ensures key in SecretKeys(providerType) <==> IsSecret(providerType, key)
    ensures key in InjectedKeys(providerType) <==> IsLookedUp(providerType, key)
  {
    assert |"copilot_oauth"| == 13 && |"sap_ai_core"| == 11 && |"xai_oauth"| == 9 && |"ollama"| == 6 && |"lm_studio"| == 9;
    assert "xai_oauth"[0] == 'x' && "lm_studio"[0] == 'l';
  }

  /** After a save that goes through, the configuration file names no secret of the provider's
      type and everything else as before; the store holds each secret, cleaned, under the
      instance's and the entry's name. */
  lemma WhatASaveLeaves(instance: string, providerType: string, fields: Fields, prior: Fields, o: StoreOutcome, key: string)
    requires Succeeds(SecretsOf(instance, SecretKeys(providerType), fields), o)
    ensures var kept := Kept(instance, SecretKeys(providerType), fields);
            var disk := OnDisk(prior, SecretsOf(instance, SecretKeys(providerType), fields), o);
      && Get(kept, key) == (if IsSecret(providerType, key) then "" else Get(fields, key))
      && (IsSecret(providerType, key) && Get(fields, key) != "" ==>
            Get(disk, "provider." + instance + "." + key) == Clean(Get(fields, key)))
  {
    KeyTables(providerType, key);
    KeptAt(instance, SecretKeys(providerType), fields, key);
    SecretAt(instance, SecretKeys(providerType), fields, key);
    OnDiskAt(prior, SecretsOf(instance, SecretKeys(providerType), fields), o, StoreKey(instance, key));
    assert StoreKey(instance, key) == "provider." + instance + "." + key;
    hide SecretKeys, SecretsOf, Kept, OnDisk, Clean, IsSecret, StoreKey;
  }

  lemma OnDiskAt(prior: Fields, secrets: Fields, o: StoreOutcome, key: string)
    ensures Get(Cleaned(prior), key) == Clean(Get(prior, key))
    ensures key !in secrets || !Succeeds(secrets, o) ==>
      Get(OnDisk(prior, secrets, o), key) ==
      if o.opens && (o.cleans || (secrets != map[] && o.saves)) then Clean(Get(prior, key)) else Get(prior, key)
    ensures key in secrets && Succeeds(secrets, o) ==> Get(OnDisk(prior, secrets, o), key) == Clean(secrets[key])
  {
    CleanEmpty();
    hide Clean;
  }

  lemma CleanEmpty()
    ensures Clean("") == ""
  {
    CleanShrinks("");
    hide Clean;
  }

  /** Saving one instance leaves every other instance's stored secrets alone, or cleaned. */
  lemma OtherInstancesUntouched(instance: string, keys: seq<string>, fields: Fields, prior: Fields, o: StoreOutcome,
                                other: string, key: string)
    requires instance != other && '.' !in key && forall k :: k in keys ==> '.' !in k
    ensures var now := Get(OnDisk(prior, SecretsOf(instance, keys, fields), o), StoreKey(other, key));
      now == Get(prior, StoreKey(other, key)) || now == Clean(Get(prior, StoreKey(other, key)))
  {
    SecretsAreNamed(instance, keys, fields);
    hide SecretsOf, StoreKey, Clean, OnDisk;
    if StoreKey(other, key) in SecretsOf(instance, keys, fields) {
      var k :| k in keys && StoreKey(other, key) == StoreKey(instance, k);
      StoreKeyInjective(other, instance, key, k);
    }
    OnDiskAt(prior, SecretsOf(instance, keys, fields), o, StoreKey(other, key));
  }

  lemma {:induction false} InjectedAt(instance: string, keys: seq<string>, fields: Fields, secrets: Fields, key: string)
    ensures Get(Injected(instance, keys, fields, secrets), key) ==
      if key in keys && Get(fields, key) == "" then Get(secrets, StoreKey(instance, key)) else Get(fields, key)
  {
    if keys != [] {
      hide StoreKey;
      InjectedAt(instance, keys[..|keys| - 1], fields, secrets, key);
      assert keys == keys[..|keys| - 1] + [keys[|keys| - 1]];
      if key != keys[|keys| - 1] {
        InjectedAt(instance, keys[..|keys| - 1], fields, secrets, keys[|keys| - 1]);
      }
    }
  }

  /** Loading fills an entry exactly when it is empty, the type's entries include it and the
      store has something under the instance's and the entry's name. */
  lemma WhatTheLoaderFills(instance: string, providerType: string, fields: Fields, secrets: Fields, key: string)
    ensures Get(Injected(instance, InjectedKeys(providerType), fields, secrets), key) ==
      if IsLookedUp(providerType, key) && Get(fields, key) == "" then Get(secrets, "provider." + instance + "." + key)
      else Get(fields, key)
  {
    KeyTables(providerType, key);
    InjectedAt(instance, InjectedKeys(providerType), fields, secrets, key);
    assert StoreKey(instance, key) == "provider." + instance + "." + key;
    hide InjectedKeys, Injected, IsLookedUp, StoreKey;
  }

  ghost predicate SameView(a: Fields, b: Fields) { forall key :: Get(a, key) == Get(b, key) }

  /** What the loader finds under a key that setup did not move: the old secret, cleaned when
      the loader opens the store and perhaps once before, when setup did. */
  function Left(prior: Fields, secrets: Fields, cleans: bool, key: string): string {
    if secrets == map[] && !cleans then Clean(Get(prior, key)) else Clean(Clean(Get(prior, key)))
  }

  /** The configuration after a successful save, and loading in a later run, which again opens
      and cleans the store. */
  function Reloaded(instance: string, providerType: string, fields: Fields, prior: Fields, cleans: bool): Fields {
    var keys := SecretKeys(providerType);
    Injected(instance, InjectedKeys(providerType), Kept(instance, keys, fields),
             Cleaned(OnDisk(prior, SecretsOf(instance, keys, fields), StoreOutcome(true, cleans, true))))
  }

  lemma LoadedAt(prior: Fields, secrets: Fields, cleans: bool, key: string)
    ensures Get(Cleaned(OnDisk(prior, secrets, StoreOutcome(true, cleans, true))), key) ==
      if key in secrets then Clean(Clean(secrets[key])) else Left(prior, secrets, cleans, key)
  {
    CleanEmpty();
    hide Clean;
  }

  /** A key whose value survives saving and loading. */
  predicate Survives(instance: string, providerType: string, fields: Fields, prior: Fields, cleans: bool, key: string) {
    if key in SecretKeys(providerType) && Get(fields, key) != "" then
      key in InjectedKeys(providerType) && IsClean(Get(fields, key))
    else NoStaleSecret(instance, providerType, fields, prior, cleans, key)
  }

  /** The loader finds nothing for a looked-up key that the new configuration leaves empty. */
  predicate NoStaleSecret(instance: string, providerType: string, fields: Fields, prior: Fields, cleans: bool, key: string) {
    key in InjectedKeys(providerType) && Get(fields, key) == "" ==>
      Left(prior, SecretsOf(instance, SecretKeys(providerType), fields), cleans, StoreKey(instance, key)) == ""
  }

  lemma TwiceCleaned(s: string)
    ensures Clean(Clean(s)) == s <==> IsClean(s)
  {
    CleanShrinks(s);
    CleanShrinks(Clean(s));
    hide Clean, IsClean;
  }

  lemma ReloadedAt(instance: string, providerType: string, fields: Fields, prior: Fields, cleans: bool, key: string)
    ensures Get(Reloaded(instance, providerType, fields, prior, cleans), key) == Get(fields, key) <==>
            Survives(instance, providerType, fields, prior, cleans, key)
  {
    hide SecretKeys, InjectedKeys, Injected, Kept, SecretsOf, StoreKey, Clean, IsClean, OnDisk, Cleaned, Left;
    var keys := SecretKeys(providerType);
    var secrets := SecretsOf(instance, keys, fields);
    var disk := Cleaned(OnDisk(prior, secrets, StoreOutcome(true, cleans, true)));
    KeptAt(instance, keys, fields, key);
    SecretAt(instance, keys, fields, key);
    LoadedAt(prior, secrets, cleans, StoreKey(instance, key));
    InjectedAt(instance, InjectedKeys(providerType), Kept(instance, keys, fields), disk, key);
    TwiceCleaned(Get(fields, key));
  }

  /** The loader knows every key that setup moves, except the copilot token. */
  lemma MovedKeysAreInjected(providerType: string, key: string)
    requires key in SecretKeys(providerType)
    ensures key in InjectedKeys(providerType) <==> providerType != "copilot_oauth"
    ensures providerType == "copilot_oauth" ==> key == "github_token"
  {
    assert |"github_token"| == 12 && |"api_key"| == 7;
    assert |"copilot_oauth"| == 13 && |"sap_ai_core"| == 11 && |"xai_oauth"| == 9 && |"ollama"| == 6 && |"lm_studio"| == 9;
  }

  /** Saving and loading again gives back every value exactly when the secrets are clean text,
      no copilot token is among them, and the store holds no stale secret for a key that the
      new configuration leaves empty; whatever the store held and however opening it went. */
  lemma ReloadRestoresExactlyWhen(instance: string, providerType: string, fields: Fields, prior: Fields, cleans: bool)
    ensures SameView(Reloaded(instance, providerType, fields, prior, cleans), fields) <==>
      && (forall key :: key in SecretKeys(providerType) ==> IsClean(Get(fields, key)))
      && (providerType == "copilot_oauth" ==> Get(fields, "github_token") == "")
      && (forall key :: key in InjectedKeys(providerType) ==>
            NoStaleSecret(instance, providerType, fields, prior, cleans, key))
  {
    var token := "github_token";
    assert providerType == "copilot_oauth" ==> token in SecretKeys(providerType);
    forall key
      ensures Get(Reloaded(instance, providerType, fields, prior, cleans), key) == Get(fields, key) <==>
              Survives(instance, providerType, fields, prior, cleans, key)
      ensures key in SecretKeys(providerType) ==>
              (key in InjectedKeys(providerType) <==> providerType != "copilot_oauth")
              && (providerType == "copilot_oauth" ==> key == token)
    {
      ReloadedAt(instance, providerType, fields, prior, cleans, key);
      if key in SecretKeys(providerType) { MovedKeysAreInjected(providerType, key); }
    }
    hide SecretKeys, InjectedKeys, Reloaded, IsClean, StoreKey, Left, SecretsOf;
    assert IsClean("") by { EmptyIsClean(); }
    assert SameView(Reloaded(instance, providerType, fields, prior, cleans), fields) <==>
      forall key :: Survives(instance, providerType, fields, prior, cleans, key);
  }

  lemma EmptyIsClean()
    ensures IsClean("")
  {
  }
}
