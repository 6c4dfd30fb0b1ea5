/**
 * The expires table: an append-only list of (id, code_or_token, expires_at)
 * entries whose ids come from an auto-increment counter. Nothing makes
 * `code_or_token` unique, so one key may have several entries.
 */
module Expiry {

  datatype ExpiryEntry = ExpiryEntry(id: nat, codeOrToken: string, expiresAt: int)

  /** Ids strictly increase along the table, as auto-increment hands them out. */
  predicate Increasing(entries: seq<ExpiryEntry>) {
    forall i, j :: 0 <= i < j < |entries| ==> entries[i].id < entries[j].id
  }

  /** The table after deleting every entry whose code_or_token is `key`. */
  function WithoutKey(entries: seq<ExpiryEntry>, key: string): (r: seq<ExpiryEntry>)
    ensures forall e :: e in r <==> e in entries && e.codeOrToken != key
    ensures |r| <= |entries|
  {
    if entries == [] then []
    else if entries[0].codeOrToken == key then WithoutKey(entries[1..], key)
    else [entries[0]] + WithoutKey(entries[1..], key)
  }

  /** An increasing table stays increasing without its first entry, whose id is below all the others. */
  lemma IncreasingTail(entries: seq<ExpiryEntry>)
    requires Increasing(entries) && entries != []
    ensures Increasing(entries[1..])
    ensures forall e :: e in entries[1..] ==> entries[0].id < e.id
  {
    forall e | e in entries[1..] ensures entries[0].id < e.id {
      var k :| 0 <= k < |entries[1..]| && entries[1..][k] == e;
      assert entries[k + 1] == e;
    }
  }

  /** An entry whose id is below all ids of an increasing table may go in front of it. */
  lemma IncreasingCons(x: ExpiryEntry, rest: seq<ExpiryEntry>)
    requires Increasing(rest) && forall e :: e in rest ==> x.id < e.id
    ensures Increasing([x] + rest)
  {
    var r := [x] + rest;
    forall i, j | 0 <= i < j < |r| ensures r[i].id < r[j].id {
      assert r[j] == rest[j - 1];
      if i > 0 {
        assert r[i] == rest[i - 1];
      } else {
        assert r[j] in rest;
      }
    }
  }

  /** Deleting entries keeps the ids increasing. */
  lemma {:induction false} WithoutKeyIncreasing(entries: seq<ExpiryEntry>, key: string)
    requires Increasing(entries)
    ensures Increasing(WithoutKey(entries, key))
  {
    if entries != [] {
      IncreasingTail(entries);
      WithoutKeyIncreasing(entries[1..], key);
      if entries[0].codeOrToken != key {
        IncreasingCons(entries[0], WithoutKey(entries[1..], key));
      }
    }
  }

  /** Deleting a key that no entry carries leaves the table as it was. */
  lemma {:induction false} WithoutAbsentKey(entries: seq<ExpiryEntry>, key: string)
    requires forall e :: e in entries ==> e.codeOrToken != key
    ensures WithoutKey(entries, key) == entries
  {
    if entries != [] {
      assert entries[0] in entries;
      WithoutAbsentKey(entries[1..], key);
      assert [entries[0]] + entries[1..] == entries;
    }
  }

  /** Deleting a key twice has the effect of deleting it once. */
  lemma WithoutKeyIdempotent(entries: seq<ExpiryEntry>, key: string)
    ensures WithoutKey(WithoutKey(entries, key), key) == WithoutKey(entries, key)
  {
    WithoutAbsentKey(WithoutKey(entries, key), key);
  }
}
