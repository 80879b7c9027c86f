/**
 * The answer cache of backend/app/services/ai_cache.py: answers are kept in a
 * key/value store (Redis) under "ai_answer:" + question and expire one hour
 * after they were written.  The store is a map from key to (value, expiry
 * time) and the Redis clock is an explicit field.
 */
module Cache {
  import opened Text

  const KeyPrefix: string := "ai_answer:"

  /** Time to live of a cached answer, in seconds. */
  const CacheExpireSeconds: nat := 3600

  /** A stored value and its expiry instant, in seconds.  Like Redis, which
      drops a key only once the clock is past its expiry time, the entry is
      still live at that instant and reads as absent after it. */
  datatype Entry = Entry(value: string, expiresAt: int)

  type Store = map<string, Entry>

  /** The Redis key an answer for `question` lives under. */
  function StoredKey(question: string): (k: string)
    ensures KeyPrefix <= k && k[|KeyPrefix|..] == question
  {
    KeyPrefix + question
  }

  /** The reply of `GET` at time `now`: the stored value, or absent when the
      key was never written or its entry has expired. */
  function Read(store: Store, now: int, question: string): Option<string>
  {
    var k := StoredKey(question);
    if k in store && now <= store[k].expiresAt then Some(store[k].value) else None
  }

  /** The store after `SET key answer EX 3600` at time `now`. */
  function Write(store: Store, now: int, question: string, answer: string): Store
  {
    store[StoredKey(question) := Entry(answer, now + CacheExpireSeconds)]
  }

  /** The prefix is constant, so distinct questions use distinct keys. */
  lemma StoredKeyInjective(q1: string, q2: string)
    ensures StoredKey(q1) == StoredKey(q2) ==> q1 == q2
  {
    if StoredKey(q1) == StoredKey(q2) {
      assert q1 == StoredKey(q1)[|KeyPrefix|..];
    }
  }

  /** A read up to an hour after a write returns the written answer. */
  lemma ReadAfterWrite(store: Store, written: int, question: string, answer: string, now: int)
    requires written <= now <= written + CacheExpireSeconds
    ensures Read(Write(store, written, question, answer), now, question) == Some(answer)
  {
  }

  /** Once more than an hour has passed since the write, the entry reads as absent. */
  lemma ReadAfterExpiry(store: Store, written: int, question: string, answer: string, now: int)
    requires now > written + CacheExpireSeconds
    ensures Read(Write(store, written, question, answer), now, question) == None
  {
  }

  /** A write leaves every other question's entry as it was. */
  lemma WriteIsolation(store: Store, written: int, question: string, answer: string,
                       other: string, now: int)
    requires other != question
    ensures Read(Write(store, written, question, answer), now, other) == Read(store, now, other)
  {
    StoredKeyInjective(question, other);
  }

  /** A second write to the same question replaces the first: the last writer wins. */
  lemma LastWriterWins(store: Store, t1: int, t2: int, question: string, a1: string, a2: string)
    ensures Write(Write(store, t1, question, a1), t2, question, a2) == Write(store, t2, question, a2)
  {
  }

  /** A key that was never written reads as absent at every time. */
  lemma NeverWrittenIsAbsent(store: Store, question: string, now: int)
    requires StoredKey(question) !in store
    ensures Read(store, now, question) == None
  {
  }

  /** Expiry is passive and final: once absent, an entry stays absent until it
      is written again. */
  lemma AbsentStaysAbsent(store: Store, question: string, now: int, later: int)
    requires now <= later
    ensures Read(store, now, question) == None ==> Read(store, later, question) == None
  {
  }

  /** The shared Redis instance as far as the answer cache uses it. */
  class AnswerCache {
    /** Every key written so far, with its value and expiry instant. */
    var store: Store
    /** The store's clock, in seconds. */
    var now: int

    constructor (start: int)
      ensures store == map[] && now == start
    {
      store := map[];
      now := start;
    }

    /** `get_cached_answer`: look up "ai_answer:" + question. */
    method Get(question: string) returns (r: Option<string>)
      ensures r == Read(store, now, question)
      ensures r.Some? <==> StoredKey(question) in store && now <= store[StoredKey(question)].expiresAt
    {
      var k := KeyPrefix + question;
      if k in store && now <= store[k].expiresAt {
        r := Some(store[k].value);
      } else {
        r := None;
      }
    }

    /** `set_cached_answer`: store the answer under "ai_answer:" + question for an hour. */
    method Set(question: string, answer: string)
      modifies this
      ensures store == Write(old(store), old(now), question, answer)
      ensures now == old(now)
    {
      store := store[KeyPrefix + question := Entry(answer, now + CacheExpireSeconds)];
    }

    /** Time passes between requests. */
    method Advance(seconds: nat)
      modifies this
      ensures now == old(now) + seconds
      ensures store == old(store)
    {
      now := now + seconds;
    }
  }
}
