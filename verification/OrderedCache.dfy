/**
 * Insertion-ordered cache maps with expiry times: setting a present key keeps its place, setting a new one appends, and
 * the oldest entries go first when a map outgrows its limit.
 */
module OrderedCache {
  import opened Wrappers

  datatype Slot<V> = Slot(key: string, value: V, expiresAt: int)

  type Slots<V> = seq<Slot<V>>

  function IndexOf<V>(m: Slots<V>, key: string): (i: nat)
    ensures i <= |m| && (i < |m| ==> m[i].key == key)
    ensures forall j :: 0 <= j < i ==> m[j].key != key
  {
    if m == [] || m[0].key == key then 0 else 1 + IndexOf(m[1..], key)
  }

  predicate Has<V>(m: Slots<V>, key: string) {
    exists i :: 0 <= i < |m| && m[i].key == key
  }

  function Put<V>(m: Slots<V>, slot: Slot<V>): Slots<V> {
    var i := IndexOf(m, slot.key);
    if i < |m| then m[i := slot] else m + [slot]
  }

  function Drop<V>(m: Slots<V>, key: string): Slots<V> {
    var i := IndexOf(m, key);
    if i < |m| then m[..i] + m[i + 1..] else m
  }

  /** The newest entries, no more than the limit. */
  function Newest<V>(m: Slots<V>, limit: nat): Slots<V> {
    if |m| > limit then m[|m| - limit..] else m
  }

  function Live<V>(m: Slots<V>, key: string, now: int): Option<V> {
    var i := IndexOf(m, key);
    if i < |m| && m[i].expiresAt > now then Some(m[i].value) else None
  }

  /** A read deletes the entry it finds expired. */
  function AfterRead<V>(m: Slots<V>, key: string, now: int): Slots<V> {
    var i := IndexOf(m, key);
    if i < |m| && m[i].expiresAt <= now then Drop(m, key) else m
  }

  predicate DistinctKeys<V>(m: Slots<V>) {
    forall i, j :: 0 <= i < j < |m| ==> m[i].key != m[j].key
  }

  /** Iteration order is expiry order. */
  predicate InExpiryOrder<V>(m: Slots<V>) {
    forall i, j :: 0 <= i < j < |m| ==> m[i].expiresAt <= m[j].expiresAt
  }

  predicate ExpireBy<V>(m: Slots<V>, limit: int) {
    forall i :: 0 <= i < |m| ==> m[i].expiresAt <= limit
  }

  ghost predicate Within<V>(m: Slots<V>, n: Slots<V>) {
    forall i :: 0 <= i < |m| ==> m[i] in n
  }

  lemma DropAt<V>(m: Slots<V>, key: string, j: nat)
    requires j < |Drop(m, key)|
    ensures var k := if j < IndexOf(m, key) then j else j + 1; k < |m| && Drop(m, key)[j] == m[k]
  {
    var i := IndexOf(m, key);
    if i < |m| { Concatenated(m[..i], m[i + 1..], j); }
  }

  lemma Concatenated<V>(front: Slots<V>, back: Slots<V>, j: nat)
    requires j < |front| + |back|
    ensures (front + back)[j] == if j < |front| then front[j] else back[j - |front|]
  {
  }

  lemma DropMeans<V>(m: Slots<V>, key: string)
    ensures Within(Drop(m, key), m) && |Drop(m, key)| <= |m|
    ensures !Has(m, key) ==> Drop(m, key) == m
  {
    forall j | 0 <= j < |Drop(m, key)| ensures Drop(m, key)[j] in m { DropAt(m, key, j); }
  }

  lemma DropKeepsOrder<V>(m: Slots<V>, key: string)
    ensures InExpiryOrder(m) ==> InExpiryOrder(Drop(m, key))
    ensures DistinctKeys(m) ==> DistinctKeys(Drop(m, key)) && !Has(Drop(m, key), key)
  {
    forall j | 0 <= j < |Drop(m, key)|
      ensures var k := if j < IndexOf(m, key) then j else j + 1; k < |m| && Drop(m, key)[j] == m[k]
    {
      DropAt(m, key, j);
    }
  }

  lemma NewestMeans<V>(m: Slots<V>, limit: nat)
    ensures Within(Newest(m, limit), m) && |Newest(m, limit)| <= limit
    ensures DistinctKeys(m) ==> DistinctKeys(Newest(m, limit))
    ensures InExpiryOrder(m) ==> InExpiryOrder(Newest(m, limit))
  {
  }

  lemma PutMeans<V>(m: Slots<V>, slot: Slot<V>)
    ensures Within(Put(m, slot), m + [slot])
    ensures DistinctKeys(m) ==> DistinctKeys(Put(m, slot))
    ensures !Has(m, slot.key) ==> Put(m, slot) == m + [slot]
  {
    if IndexOf(m, slot.key) == |m| { assert forall j :: 0 <= j < |m| ==> m[j].key != slot.key; }
  }

  lemma WithinTwice<V>(a: Slots<V>, b: Slots<V>, c: Slots<V>)
    requires Within(a, b) && Within(b, c)
    ensures Within(a, c)
  {
    forall i | 0 <= i < |a| ensures a[i] in c {
      assert a[i] in b;
      var j :| 0 <= j < |b| && b[j] == a[i];
    }
  }

  lemma AppendOrdered<V>(m: Slots<V>, slot: Slot<V>)
    requires InExpiryOrder(m) && ExpireBy(m, slot.expiresAt)
    ensures InExpiryOrder(m + [slot]) && ExpireBy(m + [slot], slot.expiresAt)
  {
  }

  /** A map with a fixed limit, read and written in place. */
  class TtlCache<V> {
    var slots: Slots<V>
    const ttl: nat
    const limit: nat

    constructor (ttl: nat, limit: nat)
      ensures slots == [] && this.ttl == ttl && this.limit == limit
    {
      slots := [];
      this.ttl := ttl;
      this.limit := limit;
    }

    method Delete(key: string)
      modifies this
      ensures slots == Drop(old(slots), key)
    {
      var i := IndexOf(slots, key);
      if i < |slots| { slots := slots[..i] + slots[i + 1..]; }
    }

    method Read(key: string, now: int) returns (found: Option<V>)
      modifies this
      ensures slots == AfterRead(old(slots), key, now) && found == Live(old(slots), key, now)
    {
      var i := IndexOf(slots, key);
      if i == |slots| { return None; }
      if slots[i].expiresAt <= now {
        Delete(key);
        return None;
      }
      return Some(slots[i].value);
    }

    /** The oldest entries are dropped one by one until the map is back at its limit. */
    method Trim()
      requires DistinctKeys(slots)
      modifies this
      ensures slots == Newest(old(slots), limit)
    {
      var excess := if |slots| > limit then |slots| - limit else 0;
      var removed := 0;
      while removed < excess
        invariant removed <= excess && slots == old(slots)[removed..]
      {
        Delete(slots[0].key);
        removed := removed + 1;
      }
    }

    method Write(key: string, value: V, now: int)
      requires DistinctKeys(slots)
      modifies this
      ensures slots == Newest(Put(old(slots), Slot(key, value, now + ttl)), limit) && DistinctKeys(slots)
    {
      var slot := Slot(key, value, now + ttl);
      PutMeans(slots, slot);
      NewestMeans(Put(slots, slot), limit);
      var i := IndexOf(slots, key);
      slots := if i < |slots| then slots[i := slot] else slots + [slot];
      Trim();
    }

    /** As a write, but an entry already present loses its place first. */
    method Renew(key: string, value: V, now: int)
      requires DistinctKeys(slots)
      modifies this
      ensures slots == Newest(Drop(old(slots), key) + [Slot(key, value, now + ttl)], limit) && DistinctKeys(slots)
    {
      DropKeepsOrder(slots, key);
      Delete(key);
      slots := slots + [Slot(key, value, now + ttl)];
      NewestMeans(slots, limit);
      Trim();
    }

    method Clear()
      modifies this
      ensures slots == []
    {
      slots := [];
    }
  }
}
