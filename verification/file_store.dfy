/**
  The cloud file store the service hands uploaded map files to. Its internals
  are not part of this model: it is a set of objects by key, a content hash
  computed over the exact bytes stored, and a retrieval URL for each key.
*/
module FileStoreCloud {
  import opened MapModel

  class FileStore {
    /** The stored objects, by key. */
    var objects: map<string, seq<bv8>>
    /** The content hash of a byte string; its algorithm is not modelled. */
    const hashOf: seq<bv8> -> string
    /** The retrieval URL of a key. */
    const urlOf: string -> string

    constructor (hashOf: seq<bv8> -> string, urlOf: string -> string)
      ensures objects == map[]
      ensures this.hashOf == hashOf && this.urlOf == urlOf
    {
      objects := map[];
      this.hashOf := hashOf;
      this.urlOf := urlOf;
    }

    /** Stores `bytes` under `key`, replacing what was there, and reports where and what hash. */
    method StoreFileCloud(bytes: seq<bv8>, key: string) returns (stored: StoredFile)
      modifies this
      ensures objects == old(objects)[key := bytes]
      ensures stored == StoredFile(urlOf(key), hashOf(bytes))
      ensures stored.hash == hashOf(objects[key])
    {
      objects := objects[key := bytes];
      stored := StoredFile(urlOf(key), hashOf(bytes));
    }
  }
}
