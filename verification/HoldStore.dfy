/** The Redis hold store: set-if-absent with a time to live, lookup, and compare-and-delete. */
module HoldStore {
  import opened Contracts
  import opened BookingModel

  class RedisHoldStore {
    var entries: map<Id, HoldEntry>
    const ttl: int

    constructor (ttl: int)
      ensures entries == map[] && this.ttl == ttl
    {
      entries := map[];
      this.ttl := ttl;
    }

    /** SET key token NX EX ttl. */
    method Acquire(slot: Id, token: Token, now: Instant) returns (acquired: bool)
      modifies this
      ensures acquired == (slot !in old(entries))
      ensures entries == if acquired then old(entries)[slot := HoldEntry(token, now + ttl)] else old(entries)
    {
      acquired := slot !in entries;
      if acquired {
        entries := entries[slot := HoldEntry(token, now + ttl)];
      }
    }

    method Matches(slot: Id, token: Token) returns (matches: bool)
      ensures matches == HoldMatches(entries, slot, token)
    {
      matches := slot in entries && entries[slot].token == token;
    }

    /** Delete the key only if it still carries the caller's token. */
    method Release(slot: Id, token: Token) returns (released: bool)
      modifies this
      ensures released == HoldMatches(old(entries), slot, token)
      ensures entries == if released then map k | k in old(entries) && k != slot :: old(entries)[k] else old(entries)
    {
      released := slot in entries && entries[slot].token == token;
      if released {
        entries := map k | k in entries && k != slot :: entries[k];
      }
    }

    /** Redis drops the keys whose time to live is over. */
    method DropExpired(now: Instant)
      modifies this
      ensures entries == map k | k in old(entries) && old(entries)[k].expiresAt > now :: old(entries)[k]
    {
      entries := map k | k in entries && entries[k].expiresAt > now :: entries[k];
    }
  }
}
