/**
 * The process-wide disk cache (the `ez-cache` instance of index.js, line 5), as a map
 * from source URL to entry. `getFilePath` hashes a URL to a file name; the model keys
 * entries by the URL itself.
 */
module DiskCache {
  import Bracket
  import TeamFeed

  /** What a cache file holds: a bracket reply or a team-profile reply. */
  datatype Payload = BracketDoc(doc: Bracket.Document) | TeamDoc(reply: TeamFeed.TeamReply)

  /** A cache file: its payload, when it was written, and the never-expire flag. */
  datatype Entry = Entry(payload: Payload, created: nat, permanent: bool)

  class Cache {
    var entries: map<string, Entry>

    constructor ()
      ensures entries == map[]
    {
      entries := map[];
    }

    /** `cache.exists(file)`: whether a file is stored for `url`. */
    method Exists(url: string) returns (b: bool)
      ensures b <==> url in entries
    {
      b := url in entries;
    }

    /** `cache.get(file, ...)`: the entry stored under `url`, read without changing the cache. */
    method Get(url: string) returns (e: Entry)
      requires url in entries
      ensures e == entries[url]
    {
      e := entries[url];
    }

    /** `cache.set(file, payload, neverExpire)`: overwrites unconditionally, stamped `now`. */
    method Set(url: string, payload: Payload, now: nat, neverExpire: bool)
      modifies this
      ensures entries == old(entries)[url := Entry(payload, now, neverExpire)]
    {
      entries := entries[url := Entry(payload, now, neverExpire)];
    }
  }
}
