/** The API-key store of app/lib/modules/llm/android/secure/SecureStorageManager.ts.
    Each provider's key is kept encrypted in the keychain under `api_key_<provider>`;
    the list of providers lives under the storage key `stored_providers`. The
    keychain is the map `keychain`, the stored list the field `stored` (`None` when
    missing or unparsable), and the encryption in force is a `Cipher` given to each
    operation. */
module SecureStorage {
  import opened Common

  /** The encryption manager's `encrypt` and `decrypt`. */
  datatype Cipher = Cipher(encrypt: string -> string, decrypt: string -> string)

  /** Decryption undoes encryption, and a ciphertext is never empty. */
  ghost predicate Sound(c: Cipher)
  {
    forall s :: c.decrypt(c.encrypt(s)) == s && c.encrypt(s) != ""
  }

  const KeyPrefix := "api_key_"

  function KeyName(provider: string): string
  {
    KeyPrefix + provider
  }

  lemma KeyNameInjective(p: string, q: string)
    ensures KeyName(p) == KeyName(q) ==> p == q
  {
    if KeyName(p) == KeyName(q) {
      assert p == KeyName(p)[|KeyPrefix|..];
    }
  }

  /** `getApiKey` on a keychain: nothing stored, or an empty item, reads as null. */
  function KeyOf(keychain: map<string, string>, provider: string, c: Cipher): Option<string>
  {
    var k := KeyName(provider);
    if k !in keychain || keychain[k] == "" then None else Some(c.decrypt(keychain[k]))
  }

  /** The `if (apiKey)` test of `getAllApiKeys`: a key that reads as null or as the
      empty string is left out. */
  function SetKey(keychain: map<string, string>, provider: string, c: Cipher): (r: Option<string>)
    ensures r.Some? <==> KeyOf(keychain, provider, c).Some? && KeyOf(keychain, provider, c).value != ""
    ensures r.Some? ==> r == KeyOf(keychain, provider, c)
  {
    var k := KeyOf(keychain, provider, c);
    if k.Some? && k.value != "" then k else None
  }

  function Firsts(entries: seq<(string, string)>): (r: seq<string>)
    ensures |r| == |entries| && forall i :: 0 <= i < |entries| ==> r[i] == entries[i].0
  {
    if entries == [] then [] else Firsts(entries[..|entries| - 1]) + [entries[|entries| - 1].0]
  }

  /** The value recorded for `p`, if any. */
  function Lookup(entries: seq<(string, string)>, p: string): Option<string>
  {
    if entries == [] then None
    else if entries[|entries| - 1].0 == p then Some(entries[|entries| - 1].1)
    else Lookup(entries[..|entries| - 1], p)
  }

  /** The record `getAllApiKeys` builds, as its entries in insertion order: each
      listed provider whose key is set, once, with its decrypted key. */
  function AllKeys(providers: seq<string>, keychain: map<string, string>, c: Cipher): (r: seq<(string, string)>)
    ensures NoDup(Firsts(r))
    ensures forall p :: p in Firsts(r) <==> p in providers && SetKey(keychain, p, c).Some?
  {
    if providers == [] then []
    else
      var init := providers[..|providers| - 1];
      var p := providers[|providers| - 1];
      var e := AllKeys(init, keychain, c);
      assert providers == init + [p];
      if SetKey(keychain, p, c).Some? && p !in Firsts(e) then
        var r := e + [(p, SetKey(keychain, p, c).value)];
        assert Firsts(r) == Firsts(e) + [p];
        r
      else e
  }

  /** Each provider's entry is its key: listed providers map to what `getApiKey`
      reads when that is set, others to nothing. */
  lemma {:induction false} AllKeysLookup(providers: seq<string>, keychain: map<string, string>, c: Cipher)
    ensures forall p :: Lookup(AllKeys(providers, keychain, c), p) == (if p in providers then SetKey(keychain, p, c) else None)
  {
    if providers != [] {
      var init := providers[..|providers| - 1];
      var q := providers[|providers| - 1];
      var e := AllKeys(init, keychain, c);
      assert providers == init + [q];
      AllKeysLookup(init, keychain, c);
      AllKeysSnoc(init, q, keychain, c);
      forall p ensures Lookup(AllKeys(providers, keychain, c), p) == (if p in providers then SetKey(keychain, p, c) else None) {
        if SetKey(keychain, q, c).Some? && q !in Firsts(e) {
          LookupSnoc(e, (q, SetKey(keychain, q, c).value), p);
        }
      }
    }
  }

  lemma FirstsSnoc(entries: seq<(string, string)>, e: (string, string))
    ensures Firsts(entries + [e]) == Firsts(entries) + [e.0]
  {
    assert (entries + [e])[..|entries|] == entries;
  }

  lemma LookupSnoc(entries: seq<(string, string)>, e: (string, string), p: string)
    ensures Lookup(entries + [e], p) == if e.0 == p then Some(e.1) else Lookup(entries, p)
  {
    assert (entries + [e])[..|entries|] == entries;
  }

  lemma AllKeysSnoc(providers: seq<string>, p: string, keychain: map<string, string>, c: Cipher)
    ensures var e := AllKeys(providers, keychain, c);
      AllKeys(providers + [p], keychain, c) ==
        if SetKey(keychain, p, c).Some? && p !in Firsts(e) then e + [(p, SetKey(keychain, p, c).value)] else e
  {
    assert (providers + [p])[..|providers|] == providers;
  }

  /** `providers.filter(p => p !== provider)`. */
  function Without(providers: seq<string>, provider: string): (r: seq<string>)
    ensures forall p :: p in r <==> p in providers && p != provider
    ensures NoDup(providers) ==> NoDup(r)
  {
    if providers == [] then []
    else
      var init := providers[..|providers| - 1];
      var last := providers[|providers| - 1];
      assert providers == init + [last];
      var rest := Without(init, provider);
      NoDupSnoc(init, last);
      NoDupSnoc(rest, last);
      if last == provider then rest else rest + [last]
  }

  class SecureStorageManager {
    var keychain: map<string, string>
    var stored: Option<seq<string>>

    constructor (keychain: map<string, string>, stored: Option<seq<string>>)
      ensures this.keychain == keychain && this.stored == stored
    {
      this.keychain := keychain;
      this.stored := stored;
    }

    /** `getStoredProviders`: a missing or unparsable list reads as empty. */
    function StoredProviders(): (r: seq<string>)
      reads this
      ensures stored.None? ==> r == []
      ensures stored.Some? ==> r == stored.value
    {
      ListOrEmpty(stored)
    }

    /** `getApiKey`. */
    function GetApiKey(provider: string, c: Cipher): (r: Option<string>)
      reads this
      ensures r.None? <==> KeyName(provider) !in keychain || keychain[KeyName(provider)] == ""
      ensures r.Some? ==> r.value == c.decrypt(keychain[KeyName(provider)])
    {
      KeyOf(keychain, provider, c)
    }

    /** `storeApiKey`: the encrypted key goes to the keychain, and the provider is
        appended to the list only when absent. */
    method StoreApiKey(provider: string, apiKey: string, c: Cipher)
      modifies this
      ensures keychain == old(keychain)[KeyName(provider) := c.encrypt(apiKey)]
      ensures provider in old(StoredProviders()) ==> stored == old(stored)
      ensures provider !in old(StoredProviders()) ==> stored == Some(old(StoredProviders()) + [provider])
      ensures NoDup(old(StoredProviders())) ==> NoDup(StoredProviders())
      ensures Sound(c) ==> GetApiKey(provider, c) == Some(apiKey)
    {
      keychain := keychain[KeyName(provider) := c.encrypt(apiKey)];
      var providers := StoredProviders();
      if provider !in providers {
        stored := Some(providers + [provider]);
      }
    }

    /** `removeApiKey`: the keychain item and the provider's entries in the list go;
        the list otherwise keeps its order. */
    method RemoveApiKey(provider: string)
      modifies this
      ensures keychain == old(keychain) - {KeyName(provider)}
      ensures stored == Some(Without(old(StoredProviders()), provider))
      ensures forall c :: GetApiKey(provider, c).None?
    {
      keychain := keychain - {KeyName(provider)};
      stored := Some(Without(StoredProviders(), provider));
    }

    /** `getAllApiKeys`: the loop over the stored providers. */
    method GetAllApiKeys(c: Cipher) returns (apiKeys: seq<(string, string)>)
      ensures apiKeys == AllKeys(StoredProviders(), keychain, c)
    {
      var providers := StoredProviders();
      apiKeys := [];
      var i := 0;
      while i < |providers|
        invariant 0 <= i <= |providers|
        invariant apiKeys == AllKeys(providers[..i], keychain, c)
      {
        var p := providers[i];
        assert providers[..i + 1] == providers[..i] + [p];
        AllKeysSnoc(providers[..i], p, keychain, c);
        var key := GetApiKey(p, c);
        if key.Some? && key.value != "" && p !in Firsts(apiKeys) {
          apiKeys := apiKeys + [(p, key.value)];
        }
        i := i + 1;
      }
      assert providers[..i] == providers;
    }

    /** `clearAllData`, as far as the keychain and the provider list go. */
    method ClearAllData()
      modifies this
      ensures keychain == map[] && stored.None?
    {
      keychain := map[];
      stored := None;
    }

    /** The loop of `changePassword` that re-stores the keys read beforehand into
        the cleared keychain and list. */
    method StoreAll(entries: seq<(string, string)>, c: Cipher)
      requires DistinctProviders(entries) && Sound(c)
      requires keychain == map[] && stored.None?
      modifies this
      ensures StoredProviders() == Firsts(entries)
      ensures forall p :: GetApiKey(p, c) == Lookup(entries, p)
    {
      var i := 0;
      while i < |entries|
        invariant 0 <= i <= |entries|
        invariant StoredProviders() == Firsts(entries[..i])
        invariant forall p :: KeyOf(keychain, p, c) == Lookup(entries[..i], p)
      {
        var entry := entries[i];
        NextEntryIsNew(entries, i);
        ghost var before := keychain;
        StoreApiKey(entry.0, entry.1, c);
        StoreStep(before, entries, i, c);
        i := i + 1;
      }
      assert entries[..i] == entries;
    }

    /** `changePassword`: every key readable under the old encryption is re-stored
        under the new one, so each listed provider keeps its key, and a provider
        without one is no longer listed. */
    method ChangePassword(oldCipher: Cipher, newCipher: Cipher)
      requires Sound(newCipher)
      modifies this
      ensures forall p :: GetApiKey(p, newCipher) == (if p in old(StoredProviders()) then old(SetKey(keychain, p, oldCipher)) else None)
      ensures forall p :: p in StoredProviders() <==> p in old(StoredProviders()) && old(SetKey(keychain, p, oldCipher)).Some?
      ensures NoDup(StoredProviders())
    {
      var currentKeys := GetAllApiKeys(oldCipher);
      AllKeysLookup(StoredProviders(), keychain, oldCipher);
      DistinctFromNoDup(currentKeys);
      ClearAllData();
      StoreAll(currentKeys, newCipher);
    }
  }

  /** No two entries name the same provider. */
  predicate DistinctProviders(entries: seq<(string, string)>)
  {
    forall a, b :: 0 <= a < b < |entries| ==> entries[a].0 != entries[b].0
  }

  lemma DistinctFromNoDup(entries: seq<(string, string)>)
    requires NoDup(Firsts(entries))
    ensures DistinctProviders(entries)
  {
    var f := Firsts(entries);
    forall a, b | 0 <= a < b < |entries|
      ensures entries[a].0 != entries[b].0
    {
      assert f[a] == entries[a].0 && f[b] == entries[b].0;
    }
  }

  /** The provider of the next entry to re-store is not among those stored so far. */
  lemma NextEntryIsNew(entries: seq<(string, string)>, i: nat)
    requires DistinctProviders(entries) && i < |entries|
    ensures entries[i].0 !in Firsts(entries[..i])
    ensures Firsts(entries[..i + 1]) == Firsts(entries[..i]) + [entries[i].0]
  {
    FirstsPrefix(entries, i);
    var done := Firsts(entries[..i]);
    forall k | 0 <= k < |done|
      ensures done[k] != entries[i].0
    {
      assert done[k] == entries[k].0;
    }
  }

  lemma FirstsPrefix(entries: seq<(string, string)>, i: nat)
    requires i < |entries|
    ensures forall k :: 0 <= k < i ==> Firsts(entries[..i])[k] == Firsts(entries)[k]
    ensures Firsts(entries)[i] == entries[i].0
    ensures Firsts(entries[..i + 1]) == Firsts(entries[..i]) + [entries[i].0]
  {
    assert entries[..i + 1] == entries[..i] + [entries[i]];
    FirstsSnoc(entries[..i], entries[i]);
  }

  /** Storing the next entry under a sound cipher extends what the keychain reads
      back by that entry. */
  lemma StoreStep(before: map<string, string>, entries: seq<(string, string)>, i: nat, c: Cipher)
    requires Sound(c) && i < |entries|
    requires forall p :: KeyOf(before, p, c) == Lookup(entries[..i], p)
    ensures var after := before[KeyName(entries[i].0) := c.encrypt(entries[i].1)];
      forall p :: KeyOf(after, p, c) == Lookup(entries[..i + 1], p)
  {
    var entry := entries[i];
    var after := before[KeyName(entry.0) := c.encrypt(entry.1)];
    assert entries[..i + 1] == entries[..i] + [entry];
    forall p ensures KeyOf(after, p, c) == Lookup(entries[..i + 1], p) {
      KeyNameInjective(p, entry.0);
      LookupSnoc(entries[..i], entry, p);
    }
  }
}
