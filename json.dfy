/**
 * JSON values as the HTTP client's JSON parser hands them to the decoders.
 * An object keeps its entries in document order, duplicates included, since
 * the parser streams every entry to the decoder.
 */
module Json {
  import opened Wrappers

  datatype Json =
    | JNull
    | JBool(b: bool)
    | JInt(i: int)        // a number written without fraction or exponent, other than `-0`
    | JFloat(r: real)     // a number written with a fraction or an exponent, and `-0`
    | JString(s: string)
    | JArray(items: seq<Json>)
    | JObject(entries: seq<(string, Json)>)

  /** How many entries of an object carry the key `key`. */
  function Count(entries: seq<(string, Json)>, key: string): (n: nat)
    ensures n <= |entries|
    ensures n == 0 <==> forall i :: 0 <= i < |entries| ==> entries[i].0 != key
  {
    if entries == [] then 0
    else (if entries[0].0 == key then 1 else 0) + Count(entries[1..], key)
  }

  /** The value of the first entry whose key is `key`, if any. */
  function Lookup(entries: seq<(string, Json)>, key: string): (r: Option<Json>)
    ensures r.None? <==> Count(entries, key) == 0
    ensures r.Some? ==> (key, r.value) in entries
  {
    if entries == [] then None
    else if entries[0].0 == key then Some(entries[0].1)
    else Lookup(entries[1..], key)
  }

  lemma {:induction false} CountAppend(a: seq<(string, Json)>, b: seq<(string, Json)>, key: string)
    ensures Count(a + b, key) == Count(a, key) + Count(b, key)
  {
    if a == [] {
      assert a + b == b;
    } else {
      assert (a + b)[1..] == a[1..] + b;
      CountAppend(a[1..], b, key);
    }
  }

  lemma {:induction false} LookupAppend(a: seq<(string, Json)>, b: seq<(string, Json)>, key: string)
    ensures Lookup(a + b, key) == if Lookup(a, key).Some? then Lookup(a, key) else Lookup(b, key)
  {
    if a == [] {
      assert a + b == b;
    } else {
      assert (a + b)[1..] == a[1..] + b;
      LookupAppend(a[1..], b, key);
    }
  }

  /**
   * Inserting an entry with another key anywhere in an object changes neither
   * the count nor the first value of `key`.
   */
  lemma InsertOtherKey(a: seq<(string, Json)>, b: seq<(string, Json)>, k: string, v: Json, key: string)
    requires k != key
    ensures Count(a + [(k, v)] + b, key) == Count(a + b, key)
    ensures Lookup(a + [(k, v)] + b, key) == Lookup(a + b, key)
  {
    CountAppend(a + [(k, v)], b, key);
    CountAppend(a, [(k, v)], key);
    CountAppend(a, b, key);
    LookupAppend(a + [(k, v)], b, key);
    LookupAppend(a, [(k, v)], key);
    LookupAppend(a, b, key);
  }

  /** The first entry with a key is the one `Lookup` finds. */
  lemma {:induction false} LookupFirst(entries: seq<(string, Json)>, i: nat)
    requires i < |entries|
    requires forall j :: 0 <= j < i ==> entries[j].0 != entries[i].0
    ensures Lookup(entries, entries[i].0) == Some(entries[i].1)
  {
    if i > 0 {
      assert entries[1..][i - 1] == entries[i];
      LookupFirst(entries[1..], i - 1);
    }
  }

  /** In an object whose keys are pairwise distinct, no key occurs twice. */
  lemma {:induction false} CountDistinctAtMostOne(entries: seq<(string, Json)>, key: string)
    requires forall j, l :: 0 <= j < l < |entries| ==> entries[j].0 != entries[l].0
    ensures Count(entries, key) <= 1
  {
    if entries != [] {
      var rest := entries[1..];
      assert forall j, l :: 0 <= j < l < |rest| ==> rest[j].0 != rest[l].0 by {
        forall j, l | 0 <= j < l < |rest| ensures rest[j].0 != rest[l].0 {
          assert rest[j] == entries[j + 1] && rest[l] == entries[l + 1];
        }
      }
      CountDistinctAtMostOne(rest, key);
      if entries[0].0 == key {
        assert forall j :: 0 <= j < |rest| ==> rest[j].0 != key by {
          forall j | 0 <= j < |rest| ensures rest[j].0 != key {
            assert rest[j] == entries[j + 1];
          }
        }
      }
    }
  }
}
