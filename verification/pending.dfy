/**
 The table of waiting requests as an object, with the channels its entries share
 with callers.  A send needs an open channel with room and a close an open one:
 that these hold at every interleaving is proved in `PendingTheorems`; here they
 hold for everything that is still in the table.
 */
module PendingMaps {
  import opened Options
  import P = PendingModel

  /** A channel of capacity one. */
  class WaitChannel {
    var buffer: seq<P.Message>
    var closed: bool

    ghost predicate Unused()
      reads this
    {
      buffer == [] && !closed
    }

    constructor ()
      ensures Unused()
    {
      buffer, closed := [], false;
    }

    method Send(m: P.Message)
      requires !closed && |buffer| < 1
      modifies `buffer
      ensures buffer == old(buffer) + [m]
    {
      buffer := buffer + [m];
    }

    method Close()
      requires !closed
      modifies `closed
      ensures closed
    {
      closed := true;
    }
  }

  class PendingEntry {
    const ch: WaitChannel
    const originalID: string
    ghost const number: nat

    constructor (ch: WaitChannel, originalID: string, ghost number: nat)
      ensures this.ch == ch && this.originalID == originalID && this.number == number
    {
      this.ch, this.originalID, this.number := ch, originalID, number;
    }
  }

  class PendingMap {
    var entries: map<string, PendingEntry>
    var nextID: nat

    ghost function Channels(): set<WaitChannel>
      reads this
    {
      set k | k in entries :: entries[k].ch
    }

    /** Entries sit under their own decimal id and have channels of their own, unused so far. */
    ghost predicate Valid()
      reads this, Channels()
    {
      && nextID >= 1
      && (forall k :: k in entries ==>
            k == P.KeyOf(entries[k].number) && entries[k].number + 2 <= nextID && entries[k].ch.Unused())
      && (forall k, l :: k in entries && l in entries && k != l ==> entries[k].ch != entries[l].ch)
    }

    /** The table as `PendingModel` sees it. */
    ghost function Numbers(): map<string, nat>
      reads this
    {
      map k | k in entries :: entries[k].number
    }

    constructor ()
      ensures Valid() && Numbers() == map[] && nextID == 1
    {
      entries, nextID := map[], 1;
    }

    /** `Register` up to the unlock: a new id and an entry under it. */
    method Register(originalID: string) returns (internalID: string, entry: PendingEntry)
      requires Valid()
      modifies this
      ensures Valid() && nextID == old(nextID) + 1 && internalID == P.Decimal(nextID)
      ensures fresh(entry) && fresh(entry.ch) && entry.originalID == originalID && entry.ch.Unused()
      ensures entry.number + 2 == nextID && P.KeyOf(entry.number) == internalID
      ensures internalID !in old(entries) && entries == old(entries)[internalID := entry]
      ensures Numbers() == P.Insert(old(Numbers()), internalID, entry.number)
    {
      nextID := nextID + 1;
      internalID := P.Decimal(nextID);
      var ch := new WaitChannel();
      entry := new PendingEntry(ch, originalID, nextID - 2);
      forall k | k in entries
        ensures k != internalID
      {
        if k == internalID {
          P.DecimalInjective(entries[k].number + 2, nextID);
        }
      }
      Add(internalID, entry);
    }

    /** `pm.entries[key] = entry` for a new key. */
    method Add(key: string, entry: PendingEntry)
      requires Valid() && key !in entries && key == P.KeyOf(entry.number) && entry.number + 2 <= nextID
      requires entry.ch.Unused() && entry.ch !in Channels()
      modifies `entries
      ensures Valid() && entries == old(entries)[key := entry]
      ensures Numbers() == P.Insert(old(Numbers()), key, entry.number)
    {
      ghost var before := entries;
      forall k | k in before
        ensures before[k].ch != entry.ch && before[k].ch.Unused()
      {
        assert before[k].ch in Channels();
      }
      entries := entries[key := entry];
      forall k, l | k in entries && l in entries && k != l
        ensures entries[k].ch != entries[l].ch
      {
        assert k == key || k in before;
        assert l == key || l in before;
      }
    }

    /** `delete(pm.entries, key)`. */
    method RemoveKey(key: string)
      requires Valid() && key in entries
      modifies `entries
      ensures Valid() && entries == old(entries) - {key}
      ensures Numbers() == old(Numbers()) - {key}
      ensures Channels() <= old(Channels()) && old(entries)[key].ch !in Channels()
    {
      ghost var before := entries;
      entries := entries - {key};
      forall k | k in entries
        ensures entries[k] == before[k] && entries[k].ch != before[key].ch
      {
        assert k in before && k != key;
      }
    }

    /** The timer of an entry: if it is still in the table, remove it and close its channel. */
    method Expire(idKey: string, entry: PendingEntry)
      requires Valid() && idKey == P.KeyOf(entry.number)
      requires idKey in entries && entries[idKey].number == entry.number ==> entries[idKey] == entry
      modifies this, entry.ch
      ensures Valid() && nextID == old(nextID)
      ensures Numbers() == P.Expire(old(Numbers()), idKey, entry.number)
      ensures if idKey in old(entries) && old(entries[idKey]) == entry then entry.ch.closed
        else entry.ch.closed == old(entry.ch.closed) && entries == old(entries)
      ensures entry.ch.buffer == old(entry.ch.buffer)
    {
      ghost var before := Numbers();
      if idKey in entries && entries[idKey] == entry {
        RemoveKey(idKey);
        entry.ch.Close();
      } else {
        assert P.Expire(before, idKey, entry.number) == before;
      }
    }

    /** `Dispatch` under the lock: look the id up and take the entry out. */
    method Claim(m: P.Message) returns (entry: PendingEntry?)
      requires Valid()
      modifies this
      ensures Valid() && nextID == old(nextID)
      ensures Numbers() == P.Claim(old(Numbers()), m)
      ensures (entry == null) == P.Claimant(old(Numbers()), m).None?
      ensures entry != null ==>
        && m.id in old(entries) && entry == old(entries)[m.id] && entry.ch.Unused()
        && P.Claimant(old(Numbers()), m) == Some(entry.number)
        && entry.ch !in Channels()
    {
      if !P.IsResponse(m) {
        return null;
      }
      if m.id !in entries {
        assert Numbers() == Numbers() - {m.id};
        return null;
      }
      entry := entries[m.id];
      RemoveKey(m.id);
    }

    /** `Dispatch` outside the lock: hand the message over with the caller's id. */
    static method Deliver(entry: PendingEntry, m: P.Message)
      requires entry.ch.Unused()
      modifies entry.ch
      ensures entry.ch.buffer == [m.(id := entry.originalID)] && !entry.ch.closed
    {
      entry.ch.Send(m.(id := entry.originalID));
    }

    /** Of the entries there were before, those no longer in the table are closed and were never used. */
    ghost predicate Swept(before: map<string, PendingEntry>)
      reads this, set k | k in before :: before[k], set k | k in before :: before[k].ch
    {
      && entries.Keys <= before.Keys
      && (forall k :: k in entries ==> entries[k] == before[k])
      && (forall k :: k in before && k !in entries ==> before[k].ch.closed && before[k].ch.buffer == [])
      && (forall k, l :: k in before && l in before && k != l ==> before[k].ch != before[l].ch)
    }

    /** One turn of the loop: `close(entry.ch)` and `delete(pm.entries, key)`. */
    method CloseOne(key: string, ghost before: map<string, PendingEntry>)
      requires Valid() && key in entries && Swept(before)
      modifies `entries, entries[key].ch
      ensures Valid() && Swept(before) && entries == old(entries) - {key}
    {
      var entry := entries[key];
      RemoveKey(key);
      entry.ch.Close();
    }

    method CloseAll()
      requires Valid()
      modifies this, Channels()
      ensures Valid() && nextID == old(nextID) && entries == map[]
      ensures forall ch :: ch in old(Channels()) ==> ch.closed && ch.buffer == []
    {
      ghost var before := entries;
      while entries != map[]
        invariant Valid() && nextID == old(nextID) && Swept(before)
        decreases entries.Keys
      {
        var key :| key in entries;
        CloseOne(key, before);
      }
    }
  }
}
