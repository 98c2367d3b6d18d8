/** The idempotency check: a request id is looked up in a key/value store
    with per-key expiry, and marked with a 24-hour time to live when it is
    not there. Store time is a parameter, in seconds. */
module Dedup {
  import opened Envelope

  const KeyPrefix: string := "idempotency:"
  const Marker: string := "1"
  const TtlSeconds: int := 24 * 60 * 60

  /** A stored string value and the time from which it has expired. */
  datatype Entry = Entry(value: string, expiresAt: int)

  type Entries = map<string, Entry>

  /** The store key of a request id. */
  function Key(requestId: string): string
  {
    KeyPrefix + requestId
  }

  /** GET at time `now`: the value, unless the key is absent or expired. */
  function Lookup(entries: Entries, key: string, now: int): Option<string>
  {
    if key in entries && now < entries[key].expiresAt then Some(entries[key].value) else None
  }

  /** Whether the id counts as already seen at `now`: the lookup must give a
      truthy string, so an empty stored value does not count. */
  predicate Seen(entries: Entries, requestId: string, now: int)
  {
    var v := Lookup(entries, Key(requestId), now);
    v.Some? && v.value != ""
  }

  /** The result of a check-and-mark and the store it leaves. */
  datatype Checked = Checked(duplicate: bool, entries: Entries)

  /** `isDuplicate` on store values. */
  function CheckAndMark(entries: Entries, requestId: string, now: int): (c: Checked)
    ensures c.duplicate <==> Seen(entries, requestId, now)
    ensures c.duplicate ==> c.entries == entries
    ensures !c.duplicate ==>
      forall t :: now <= t < now + TtlSeconds ==> Lookup(c.entries, Key(requestId), t) == Some(Marker)
    ensures forall k :: k != Key(requestId) && k in entries ==> k in c.entries && c.entries[k] == entries[k]
  {
    if Seen(entries, requestId, now) then Checked(true, entries)
    else Checked(false, entries[Key(requestId) := Entry(Marker, now + TtlSeconds)])
  }

  /** The key/value store, updated in place. */
  class KeyValueStore {
    var entries: Entries

    constructor ()
      ensures entries == map[]
    {
      entries := map[];
    }

    function Get(key: string, now: int): Option<string>
      reads this
    {
      Lookup(entries, key, now)
    }

    /** SET key value EX ttl, at time `now`. */
    method SetWithTtl(key: string, value: string, ttl: int, now: int)
      modifies this
      ensures entries == old(entries)[key := Entry(value, now + ttl)]
    {
      entries := entries[key := Entry(value, now + ttl)];
    }
  }

  /** `isDuplicate(requestId)`: true when the id was already marked; otherwise
      marks it and answers false. */
  method IsDuplicate(store: KeyValueStore, requestId: string, now: int) returns (duplicate: bool)
    modifies store
    ensures Checked(duplicate, store.entries) == CheckAndMark(old(store.entries), requestId, now)
  {
    var key := Key(requestId);
    var stored := store.Get(key, now);
    if stored.Some? && stored.value != "" {
      return true;
    }
    store.SetWithTtl(key, Marker, TtlSeconds, now);
    return false;
  }

  // ----- properties -----

  /** A marked id is a duplicate, and the check leaves the store and the
      key's expiry as they were. */
  lemma SeenIsDuplicate(entries: Entries, requestId: string, now: int)
    requires Seen(entries, requestId, now)
    ensures CheckAndMark(entries, requestId, now) == Checked(true, entries)
  {
  }

  /** An id that is not marked is not a duplicate; it is marked with "1" for
      86400 seconds from `now`, and no other key changes. */
  lemma UnseenIsMarked(entries: Entries, requestId: string, now: int)
    requires !Seen(entries, requestId, now)
    ensures var c := CheckAndMark(entries, requestId, now);
      && !c.duplicate
      && c.entries.Keys == entries.Keys + {"idempotency:" + requestId}
      && c.entries["idempotency:" + requestId] == Entry("1", now + 86400)
      && forall k :: k in entries && k != "idempotency:" + requestId ==> c.entries[k] == entries[k]
  {
  }

  /** Two checks of a fresh id within the time to live answer false, then true. */
  lemma SecondCheckIsDuplicate(entries: Entries, requestId: string, now: int, later: int)
    requires !Seen(entries, requestId, now)
    requires later < now + TtlSeconds
    ensures var first := CheckAndMark(entries, requestId, now);
      !first.duplicate && CheckAndMark(first.entries, requestId, later).duplicate
  {
  }

  /** Once the time to live has passed, the id counts as unseen again and is
      marked anew. */
  lemma ExpiredIsRemarked(entries: Entries, requestId: string, now: int, later: int)
    requires !Seen(entries, requestId, now)
    requires later >= now + TtlSeconds
    ensures var second := CheckAndMark(CheckAndMark(entries, requestId, now).entries, requestId, later);
      !second.duplicate && second.entries[Key(requestId)] == Entry(Marker, later + TtlSeconds)
  {
  }

  /** Distinct request ids have distinct keys. */
  lemma KeyInjective(a: string, b: string)
    requires a != b
    ensures Key(a) != Key(b)
  {
    assert Key(a)[|KeyPrefix|..] == a;
    assert Key(b)[|KeyPrefix|..] == b;
  }

  /** Checking and marking one id never changes the answer for another id. */
  lemma OtherIdsUnaffected(entries: Entries, id: string, other: string, now: int, later: int)
    requires id != other
    ensures Seen(CheckAndMark(entries, id, now).entries, other, later) == Seen(entries, other, later)
    ensures CheckAndMark(CheckAndMark(entries, id, now).entries, other, later).duplicate
         == CheckAndMark(entries, other, later).duplicate
  {
    KeyInjective(id, other);
  }
}
