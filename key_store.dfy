// Per-device key derivation on the gateway:
//   device_key = Hash(master_key || device_id)[0:16]
// with an in-memory cache of derived keys.

module DeviceKeys {
  import opened Wrappers
  import opened Bytes

  const KEY_SIZE: nat := 16

  /**
   * The derived key: the first 16 bytes of the hash of master key and device
   * id (ASCON-Hash, or SHA-256 without the ascon library; both are foreign and
   * passed in as `hash`). Python's slice keeps fewer bytes if the digest is short.
   */
  function DeriveKey(hash: seq<byte> -> seq<byte>, masterKey: seq<byte>, deviceId: seq<byte>): (key: seq<byte>)
    ensures key <= hash(masterKey + deviceId)
    ensures |hash(masterKey + deviceId)| >= KEY_SIZE ==> |key| == KEY_SIZE
  {
    var digest := hash(masterKey + deviceId);
    if |digest| <= KEY_SIZE then digest else digest[..KEY_SIZE]
  }

  /** The ValueError raised by the constructor. */
  datatype KeyStoreError = MasterKeySize(got: nat)

  class KeyStore {
    const masterKey: seq<byte>
    const hash: seq<byte> -> seq<byte>
    var keyCache: map<seq<byte>, seq<byte>>

    /** Every cached key is the derivation for its id. */
    ghost predicate Valid()
      reads this
    {
      |masterKey| == KEY_SIZE
      && forall id | id in keyCache :: keyCache[id] == DeriveKey(hash, masterKey, id)
    }

    constructor(masterKey: seq<byte>, hash: seq<byte> -> seq<byte>)
      requires |masterKey| == KEY_SIZE
      ensures Valid() && this.masterKey == masterKey && this.hash == hash
      ensures keyCache == map[]
    {
      this.masterKey := masterKey;
      this.hash := hash;
      keyCache := map[];
    }

    /** The checking constructor: a master key that is not 16 bytes raises. */
    static method Create(masterKey: seq<byte>, hash: seq<byte> -> seq<byte>)
      returns (r: Result<KeyStore, KeyStoreError>)
      ensures r.Err? <==> |masterKey| != KEY_SIZE
      ensures r.Err? ==> r.error == MasterKeySize(|masterKey|)
      ensures r.Ok? ==> fresh(r.value) && r.value.Valid() && r.value.keyCache == map[]
      ensures r.Ok? ==> r.value.masterKey == masterKey && r.value.hash == hash
    {
      if |masterKey| != KEY_SIZE {
        return Err(MasterKeySize(|masterKey|));
      }
      var store := new KeyStore(masterKey, hash);
      return Ok(store);
    }

    /**
     * A hit returns the cached key and leaves the cache alone; a miss derives
     * the key and caches it. Either way the key is the derivation for the id,
     * so repeated calls, and calls after ClearCache, agree.
     */
    method GetDeviceKey(deviceId: seq<byte>) returns (key: seq<byte>)
      requires Valid()
      modifies this
      ensures Valid()
      ensures key == DeriveKey(hash, masterKey, deviceId)
      ensures deviceId in old(keyCache) ==> key == old(keyCache)[deviceId] && keyCache == old(keyCache)
      ensures deviceId !in old(keyCache) ==> keyCache == old(keyCache)[deviceId := key]
    {
      if deviceId in keyCache {
        return keyCache[deviceId];
      }
      var inputData := masterKey + deviceId;
      var hashOutput := hash(inputData);
      key := if |hashOutput| <= KEY_SIZE then hashOutput else hashOutput[..KEY_SIZE];
      keyCache := keyCache[deviceId := key];
    }

    method ClearCache()
      requires Valid()
      modifies this
      ensures Valid() && keyCache == map[]
    {
      keyCache := map[];
    }
  }
}
