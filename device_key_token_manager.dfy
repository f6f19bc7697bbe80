/** `DeviceKeyTokenManager`: keeps a device's key, group key and random
    password in a key-value storage under three keys derived once from the
    client id. `getCognitoKeys`, `KEY_PREFIX` and the `CognitoDeviceKey` enum
    are not part of this model: the key derivation is a parameter of the
    constructor. */
module DeviceKeyTokenManager {
  import opened Wrappers

  /** `CognitoDeviceKeyTokens` */
  datatype DeviceKeyTokens = DeviceKeyTokens(deviceGroupKey: string, deviceKey: string, randomPasswordKey: string)

  /** `CognitoKeys<CognitoDeviceKey>`: the storage key of each token. */
  datatype DeviceKeys = DeviceKeys(deviceKey: string, deviceGroupKey: string, randomPasswordKey: string)

  /** `Object.values(this.keys)` */
  function KeySet(keys: DeviceKeys): set<string> {
    {keys.deviceKey, keys.deviceGroupKey, keys.randomPasswordKey}
  }

  predicate Distinct(keys: DeviceKeys) {
    keys.deviceKey != keys.deviceGroupKey && keys.deviceKey != keys.randomPasswordKey
    && keys.deviceGroupKey != keys.randomPasswordKey
  }

  /** A stored value that JavaScript counts as true: present and not empty. */
  predicate Holds(items: map<string, string>, key: string) {
    key in items && items[key] != ""
  }

  /** What `loadTokens` returns from storage contents `items`. */
  function LoadFrom(items: map<string, string>, keys: DeviceKeys): (r: Option<DeviceKeyTokens>)
    ensures r.Some? <==> Holds(items, keys.deviceKey) && Holds(items, keys.deviceGroupKey)
                         && Holds(items, keys.randomPasswordKey)
    ensures r.Some? ==> && r.value.deviceKey == items[keys.deviceKey]
                        && r.value.deviceGroupKey == items[keys.deviceGroupKey]
                        && r.value.randomPasswordKey == items[keys.randomPasswordKey]
  {
    if Holds(items, keys.deviceKey) && Holds(items, keys.deviceGroupKey) && Holds(items, keys.randomPasswordKey)
    then Some(DeviceKeyTokens(items[keys.deviceGroupKey], items[keys.deviceKey], items[keys.randomPasswordKey]))
    else None
  }

  /** The storage contents after `storeTokens`: the three keys written in the
      record's order (group key, device key, random password), so a later write
      wins if two keys coincide; every other key unchanged. */
  function StoreInto(items: map<string, string>, keys: DeviceKeys, tokens: DeviceKeyTokens): (r: map<string, string>)
    ensures r.Keys == items.Keys + KeySet(keys)
    ensures forall k :: k in items && k !in KeySet(keys) ==> r[k] == items[k]
    ensures r[keys.randomPasswordKey] == tokens.randomPasswordKey
    ensures keys.deviceKey != keys.randomPasswordKey ==> r[keys.deviceKey] == tokens.deviceKey
    ensures keys.deviceGroupKey != keys.randomPasswordKey && keys.deviceGroupKey != keys.deviceKey ==>
      r[keys.deviceGroupKey] == tokens.deviceGroupKey
  {
    items[keys.deviceGroupKey := tokens.deviceGroupKey][keys.deviceKey := tokens.deviceKey]
         [keys.randomPasswordKey := tokens.randomPasswordKey]
  }

  /** The storage contents after `clearTokens`: the three keys are gone, nothing else changes. */
  function ClearFrom(items: map<string, string>, keys: DeviceKeys): (r: map<string, string>)
    ensures r.Keys == items.Keys - KeySet(keys)
    ensures forall k :: k in r ==> r[k] == items[k]
  {
    items - KeySet(keys)
  }

  /** Loading after storing non-empty tokens under distinct keys gives the tokens back. */
  lemma LoadAfterStore(items: map<string, string>, keys: DeviceKeys, tokens: DeviceKeyTokens)
    requires Distinct(keys)
    requires tokens.deviceKey != "" && tokens.deviceGroupKey != "" && tokens.randomPasswordKey != ""
    ensures LoadFrom(StoreInto(items, keys, tokens), keys) == Some(tokens)
  {
  }

  /** Storing a token that is empty makes the next load find nothing, provided the keys are distinct. */
  lemma LoadAfterStoreEmpty(items: map<string, string>, keys: DeviceKeys, tokens: DeviceKeyTokens)
    requires Distinct(keys)
    requires tokens.deviceKey == "" || tokens.deviceGroupKey == "" || tokens.randomPasswordKey == ""
    ensures LoadFrom(StoreInto(items, keys, tokens), keys) == None
  {
  }

  /** Loading after clearing finds nothing, whatever the keys. */
  lemma LoadAfterClear(items: map<string, string>, keys: DeviceKeys)
    ensures LoadFrom(ClearFrom(items, keys), keys) == None
  {
  }

  /** Storing the tokens that were just loaded leaves the storage as it was. */
  lemma StoreLoaded(items: map<string, string>, keys: DeviceKeys)
    requires Distinct(keys) && LoadFrom(items, keys).Some?
    ensures StoreInto(items, keys, LoadFrom(items, keys).value) == items
  {
  }

  /** `AuthStorage`: string values under string keys. */
  class KeyValueStorage {
    var items: map<string, string>

    constructor(items: map<string, string>)
      ensures this.items == items
    {
      this.items := items;
    }

    /** `getItem`: the value, or null when the key is absent. */
    method GetItem(key: string) returns (value: Option<string>)
      ensures value == if key in items then Some(items[key]) else None
    {
      value := if key in items then Some(items[key]) else None;
    }

    method SetItem(key: string, value: string)
      modifies this
      ensures items == old(items)[key := value]
    {
      items := items[key := value];
    }

    method RemoveItem(key: string)
      modifies this
      ensures items == old(items) - {key}
    {
      items := items - {key};
    }
  }

  class DeviceKeyTokenManager {
    const clientId: string
    const storage: KeyValueStorage
    const keys: DeviceKeys

    /** The keys are fixed here, once, from the client id. */
    constructor(clientId: string, storage: KeyValueStorage, cognitoKeys: string -> DeviceKeys)
      ensures this.clientId == clientId && this.storage == storage && keys == cognitoKeys(clientId)
    {
      this.clientId := clientId;
      this.storage := storage;
      keys := cognitoKeys(clientId);
    }

    /** `loadTokens`: reads the three keys and changes nothing. */
    method LoadTokens() returns (tokens: Option<DeviceKeyTokens>)
      ensures tokens == LoadFrom(storage.items, keys)
    {
      var deviceKey := storage.GetItem(keys.deviceKey);
      var deviceGroupKey := storage.GetItem(keys.deviceGroupKey);
      var randomPasswordKey := storage.GetItem(keys.randomPasswordKey);
      if deviceKey.Some? && deviceKey.value != "" && deviceGroupKey.Some? && deviceGroupKey.value != ""
         && randomPasswordKey.Some? && randomPasswordKey.value != "" {
        tokens := Some(DeviceKeyTokens(deviceGroupKey.value, deviceKey.value, randomPasswordKey.value));
      } else {
        tokens := None;
      }
    }

    /** `storeTokens`: writes the three keys. */
    method StoreTokens(tokens: DeviceKeyTokens)
      modifies storage
      ensures storage.items == StoreInto(old(storage.items), keys, tokens)
    {
      storage.SetItem(keys.deviceGroupKey, tokens.deviceGroupKey);
      storage.SetItem(keys.deviceKey, tokens.deviceKey);
      storage.SetItem(keys.randomPasswordKey, tokens.randomPasswordKey);
    }

    /** `clearTokens`: removes every key in `keys`. */
    method ClearTokens()
      modifies storage
      ensures storage.items == ClearFrom(old(storage.items), keys)
    {
      storage.RemoveItem(keys.deviceKey);
      storage.RemoveItem(keys.deviceGroupKey);
      storage.RemoveItem(keys.randomPasswordKey);
      assert storage.items == old(storage.items) - KeySet(keys);
    }
  }
}
