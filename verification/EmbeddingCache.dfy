/** The embedding cache is an exact least-recently-used cache, over every sequence of operations. */
module EmbeddingCache {
  import opened Options

  /** Entries in the order of a JavaScript `Map`: by insertion. */
  datatype Embedding = Embedding(vector: seq<real>, mode: string)

  datatype Entry = Entry(key: string, value: Embedding)

  type Entries = seq<Entry>

  predicate Has(entries: Entries, key: string) {
    exists i :: 0 <= i < |entries| && entries[i].key == key
  }

  function Deleted(entries: Entries, key: string): (r: Entries)
    ensures |r| <= |entries|
  {
    if entries == [] then []
    else
      var n := |entries| - 1;
      Deleted(entries[..n], key) + if entries[n].key == key then [] else [entries[n]]
  }

  function Lookup(entries: Entries, key: string): (v: Option<Embedding>)
    ensures v.Some? <==> Has(entries, key)
    ensures v.Some? ==> Entry(key, v.value) in entries
  {
    if entries == [] then None
    else if entries[0].key == key then
      assert entries[0] == Entry(key, entries[0].value);
      Some(entries[0].value)
    else
      var v := Lookup(entries[1..], key);
      assert forall i :: 1 <= i < |entries| ==> entries[i] == entries[1..][i - 1];
      v
  }

  datatype Op = Get(key: string) | Set(key: string, value: Embedding) | Clear

  /** The cache after an operation, as the code does it. */
  function Apply(maxSize: int, cache: Entries, op: Op): Entries {
    match op
    case Get(key) => if Has(cache, key) then Deleted(cache, key) + [Entry(key, Lookup(cache, key).value)] else cache
    case Set(key, value) =>
      (if Has(cache, key) then Deleted(cache, key)
       else if |cache| >= maxSize && cache != [] then cache[1..]
       else cache) + [Entry(key, value)]
    case Clear => []
  }

  class LruCache {
    const maxSize: int
    var cache: Entries

    constructor (maxSize: int)
      ensures this.maxSize == maxSize && cache == []
    {
      this.maxSize := maxSize;
      cache := [];
    }

    method GetEntry(key: string) returns (result: Option<Embedding>)
      modifies this
      ensures result == Lookup(old(cache), key) && cache == Apply(maxSize, old(cache), Get(key))
    {
      result := Lookup(cache, key);
      if result.Some? {
        Delete(key);
        cache := cache + [Entry(key, result.value)];
      }
    }

    method SetEntry(key: string, value: Embedding)
      modifies this
      ensures cache == Apply(maxSize, old(cache), Set(key, value))
    {
      if Lookup(cache, key).Some? {
        Delete(key);
      } else if |cache| >= maxSize {
        if cache != [] {
          cache := cache[1..];
        }
      }
      cache := cache + [Entry(key, value)];
    }

    method Delete(key: string)
      modifies this
      ensures cache == Deleted(old(cache), key)
    {
      var kept := [];
      for i := 0 to |cache|
        invariant cache == old(cache) && kept == Deleted(cache[..i], key)
      {
        assert cache[..i + 1][..i] == cache[..i];
        if cache[i].key != key {
          kept := kept + [cache[i]];
        }
      }
      assert cache[..|cache|] == cache;
      cache := kept;
    }

    method ClearAll()
      modifies this
      ensures cache == Apply(maxSize, old(cache), Clear)
    {
      cache := [];
    }
  }

  // ---- What a least-recently-used cache keeps ----

  /** The index of a key's last touch. */
  function LastTouch(log: seq<Entry>, key: string): (i: int)
    ensures -1 <= i < |log|
    ensures i >= 0 ==> log[i].key == key
    ensures forall j :: i < j < |log| ==> log[j].key != key
  {
    if log == [] then -1
    else if log[|log| - 1].key == key then |log| - 1
    else LastTouch(log[..|log| - 1], key)
  }

  /** All keys ever touched, each once with its latest value, by their last touch. */
  function ByRecency(log: seq<Entry>): Entries {
    if log == [] then []
    else Deleted(ByRecency(log[..|log| - 1]), log[|log| - 1].key) + [log[|log| - 1]]
  }

  function Last(entries: Entries, n: nat): Entries {
    if |entries| <= n then entries else entries[|entries| - n..]
  }

  function Capacity(maxSize: int): nat {
    if maxSize < 1 then 1 else maxSize
  }

  /** The touches since the last clearing: each set, and each get of a key that is kept. */
  function Touched(maxSize: int, log: seq<Entry>, op: Op): seq<Entry> {
    match op
    case Get(key) =>
      var kept := Last(ByRecency(log), Capacity(maxSize));
      if Has(kept, key) then log + [Entry(key, Lookup(kept, key).value)] else log
    case Set(key, value) => log + [Entry(key, value)]
    case Clear => []
  }

  function CacheAfter(maxSize: int, ops: seq<Op>): Entries {
    if ops == [] then [] else Apply(maxSize, CacheAfter(maxSize, ops[..|ops| - 1]), ops[|ops| - 1])
  }

  function LogAfter(maxSize: int, ops: seq<Op>): seq<Entry> {
    if ops == [] then [] else Touched(maxSize, LogAfter(maxSize, ops[..|ops| - 1]), ops[|ops| - 1])
  }

  // ---- Recency ----

  predicate DistinctKeys(entries: Entries) {
    forall i, j :: 0 <= i < j < |entries| ==> entries[i].key != entries[j].key
  }

  lemma {:induction false} DeletedMembers(entries: Entries, key: string)
    ensures forall e :: e in Deleted(entries, key) <==> e in entries && e.key != key
  {
    if entries == [] {
    } else {
      var n := |entries| - 1;
      DeletedMembers(entries[..n], key);
      assert entries == entries[..n] + [entries[n]];
    }
  }

  lemma DeletedLast(entries: Entries, key: string)
    requires entries != []
    ensures var n := |entries| - 1;
      Deleted(entries, key) == if entries[n].key == key then Deleted(entries[..n], key) else Deleted(entries[..n], key) + [entries[n]]
  {
  }

  lemma {:induction false} DeletedNone(entries: Entries, key: string)
    requires !Has(entries, key)
    ensures Deleted(entries, key) == entries
  {
    hide Has;
    if entries == [] {
    } else {
      HasInit(entries, key);
      DeletedNone(entries[..|entries| - 1], key);
    }
  }

  lemma HasInit(entries: Entries, key: string)
    requires entries != [] && !Has(entries, key)
    ensures var n := |entries| - 1; !Has(entries[..n], key) && entries[n].key != key
  {
  }

  lemma DistinctInit(entries: Entries)
    requires entries != [] && DistinctKeys(entries)
    ensures var n := |entries| - 1;
      DistinctKeys(entries[..n]) && forall e :: e in entries[..n] ==> e.key != entries[n].key
  {
  }

  lemma {:induction false} DistinctSnoc(entries: Entries, e: Entry)
    requires DistinctKeys(entries) && forall x :: x in entries ==> x.key != e.key
    ensures DistinctKeys(entries + [e])
  {
    assert forall i :: 0 <= i < |entries| ==> entries[i] in entries;
  }

  lemma {:induction false} DeletedDistinct(entries: Entries, key: string)
    requires DistinctKeys(entries)
    ensures DistinctKeys(Deleted(entries, key))
  {
    hide DistinctKeys;
    if entries == [] {
    } else {
      var n := |entries| - 1;
      DistinctInit(entries);
      DeletedDistinct(entries[..n], key);
      DeletedMembers(entries[..n], key);
      hide Deleted;
      DeletedLast(entries, key);
      DistinctSnoc(Deleted(entries[..n], key), entries[n]);
    }
  }

  /** Deleting from entries with distinct keys takes out the one with the key. */
  lemma {:induction false} DeletedSplits(entries: Entries, i: nat)
    requires DistinctKeys(entries) && i < |entries|
    ensures Deleted(entries, entries[i].key) == entries[..i] + entries[i + 1..]
  {
    hide Deleted;
    var n := |entries| - 1;
    var key := entries[i].key;
    DeletedLast(entries, key);
    if i == n {
      DeletedNone(entries[..n], key);
      assert entries[..i] + entries[i + 1..] == entries[..n];
    } else {
      DeletedSplits(entries[..n], i);
      assert entries[..n][i + 1..] + [entries[n]] == entries[i + 1..];
      assert entries[..n][..i] == entries[..i];
    }
  }

  lemma {:induction false} ByRecencyDistinct(log: seq<Entry>)
    ensures DistinctKeys(ByRecency(log))
  {
    hide DistinctKeys, Deleted;
    if log == [] {
      EmptyDistinct();
    } else {
      var rest, e := ByRecency(log[..|log| - 1]), log[|log| - 1];
      ByRecencyDistinct(log[..|log| - 1]);
      DeletedDistinct(rest, e.key);
      DeletedMembers(rest, e.key);
      DistinctSnoc(Deleted(rest, e.key), e);
    }
  }

  lemma EmptyDistinct()
    ensures DistinctKeys([])
  {
  }

  lemma LastTouchUnfolds(log: seq<Entry>, key: string)
    requires log != []
    ensures var n := |log| - 1; LastTouch(log, key) == if log[n].key == key then n else LastTouch(log[..n], key)
  {
  }

  predicate IsLatest(log: seq<Entry>, e: Entry) {
    LastTouch(log, e.key) >= 0 && log[LastTouch(log, e.key)] == e
  }

  lemma {:induction false} ByRecencyIsLatest(log: seq<Entry>, x: Entry)
    ensures x in ByRecency(log) <==> IsLatest(log, x)
  {
    hide LastTouch, Deleted;
    if log == [] {
      assert ByRecency(log) == [];
    } else {
      var n := |log| - 1;
      var rest, e := ByRecency(log[..n]), log[n];
      ByRecencyIsLatest(log[..n], x);
      DeletedMembers(rest, e.key);
      LastTouchUnfolds(log, x.key);
    }
  }

  predicate InOrder(log: seq<Entry>, entries: Entries) {
    forall i, j :: 0 <= i < j < |entries| ==> LastTouch(log, entries[i].key) < LastTouch(log, entries[j].key)
  }

  lemma {:induction false} OrderInit(log: seq<Entry>, entries: Entries)
    requires entries != [] && InOrder(log, entries)
    ensures var n := |entries| - 1;
      InOrder(log, entries[..n]) && forall e :: e in entries[..n] ==> LastTouch(log, e.key) < LastTouch(log, entries[n].key)
  {
    hide LastTouch;
  }

  lemma {:induction false} OrderSnoc(log: seq<Entry>, entries: Entries, e: Entry)
    requires InOrder(log, entries) && forall x :: x in entries ==> LastTouch(log, x.key) < LastTouch(log, e.key)
    ensures InOrder(log, entries + [e])
  {
    hide LastTouch;
    assert forall i :: 0 <= i < |entries| ==> entries[i] in entries;
  }

  lemma {:induction false} DeletedKeepsOrder(log: seq<Entry>, entries: Entries, key: string)
    requires InOrder(log, entries)
    ensures InOrder(log, Deleted(entries, key))
  {
    hide LastTouch, InOrder;
    if entries == [] {
    } else {
      var n := |entries| - 1;
      OrderInit(log, entries);
      DeletedKeepsOrder(log, entries[..n], key);
      DeletedMembers(entries[..n], key);
      hide Deleted;
      DeletedLast(entries, key);
      OrderSnoc(log, Deleted(entries[..n], key), entries[n]);
    }
  }

  /** A later touch of another key changes no order. */
  lemma {:induction false} OrderAfterTouch(log: seq<Entry>, entries: Entries, e: Entry)
    requires InOrder(log, entries) && forall x :: x in entries ==> x.key != e.key
    ensures InOrder(log + [e], entries)
    ensures forall x :: x in entries ==> LastTouch(log + [e], x.key) < |log| == LastTouch(log + [e], e.key)
  {
    hide LastTouch;
    assert (log + [e])[..|log|] == log;
    forall x | x in entries
      ensures LastTouch(log + [e], x.key) == LastTouch(log, x.key)
    {
      LastTouchUnfolds(log + [e], x.key);
    }
    LastTouchUnfolds(log + [e], e.key);
    assert forall i :: 0 <= i < |entries| ==> entries[i] in entries;
  }

  lemma {:induction false} ByRecencyInOrder(log: seq<Entry>)
    ensures InOrder(log, ByRecency(log))
  {
    hide LastTouch, Deleted;
    if log == [] {
    } else {
      hide InOrder;
      var n := |log| - 1;
      var rest, e := ByRecency(log[..n]), log[n];
      assert log == log[..n] + [e];
      ByRecencyInOrder(log[..n]);
      DeletedKeepsOrder(log[..n], rest, e.key);
      DeletedMembers(rest, e.key);
      OrderAfterTouch(log[..n], Deleted(rest, e.key), e);
      OrderSnoc(log, Deleted(rest, e.key), e);
    }
  }

  /** The list by recency holds just the touched keys, each with the value of its last touch, in the
      order of their last touches. */
  lemma {:induction false} ByRecencyIsByLastTouch(log: seq<Entry>)
    ensures forall x :: x in ByRecency(log) <==> IsLatest(log, x)
    ensures InOrder(log, ByRecency(log))
  {
    hide ByRecency, InOrder, IsLatest;
    forall x
      ensures x in ByRecency(log) <==> IsLatest(log, x)
    {
      ByRecencyIsLatest(log, x);
    }
    ByRecencyInOrder(log);
  }

  // ---- The cache is exact ----

  lemma LastDistinct(entries: Entries, n: nat)
    requires DistinctKeys(entries)
    ensures DistinctKeys(Last(entries, n))
  {
  }

  /** Moving a kept key to the end of all is moving it to the end of what is kept. */
  lemma {:induction false} TouchKept(all: Entries, n: nat, key: string, value: Embedding)
    requires DistinctKeys(all) && n >= 1 && Has(Last(all, n), key)
    ensures Last(Deleted(all, key) + [Entry(key, value)], n) == Deleted(Last(all, n), key) + [Entry(key, value)]
  {
    var k :| 0 <= k < |Last(all, n)| && Last(all, n)[k].key == key;
    TouchKeptAt(all, n, k, value);
  }

  lemma {:induction false} TouchKeptAt(all: Entries, n: nat, k: nat, value: Embedding)
    requires DistinctKeys(all) && n >= 1 && k < |Last(all, n)|
    ensures var key := Last(all, n)[k].key;
      Last(Deleted(all, key) + [Entry(key, value)], n) == Deleted(Last(all, n), key) + [Entry(key, value)]
  {
    hide *;
    var skip := Skipped(all, n);
    LastIsRest(all, n);
    var kept := all[skip..];
    LastDistinct(all, n);
    DeletedSplits(kept, k);
    DeletedSplits(all, skip + k);
    Rejoined(all, skip, k, Entry(kept[k].key, value), n);
  }

  /** How many entries are too old to be kept. */
  function Skipped(all: Entries, n: nat): (skip: nat)
    ensures skip <= |all|
    ensures skip == if |all| <= n then 0 else |all| - n
  {
    if |all| <= n then 0 else |all| - n
  }

  lemma LastIsRest(all: Entries, n: nat)
    ensures Last(all, n) == all[Skipped(all, n)..]
  {
  }

  lemma {:induction false} Rejoined(all: Entries, skip: nat, k: nat, e: Entry, n: nat)
    requires skip + k < |all| && n >= 1 && skip == if |all| <= n then 0 else |all| - n
    ensures var kept := all[skip..];
      Last(all[..skip + k] + all[skip + k + 1..] + [e], n) == kept[..k] + kept[k + 1..] + [e]
  {
    var kept := all[skip..];
    assert all[..skip + k] == all[..skip] + kept[..k];
    assert all[skip + k + 1..] == kept[k + 1..];
    var end := kept[..k] + kept[k + 1..] + [e];
    assert all[..skip + k] + all[skip + k + 1..] + [e] == all[..skip] + end;
    assert (all[..skip] + end)[skip..] == end;
    if |all| <= n {
      assert all[..skip] + end == end;
    }
  }

  /** A key that is not kept pushes out the oldest. */
  lemma {:induction false} TouchOther(all: Entries, n: nat, key: string, value: Embedding)
    requires DistinctKeys(all) && n >= 1 && !Has(Last(all, n), key)
    ensures Last(Deleted(all, key) + [Entry(key, value)], n) ==
      (if |Last(all, n)| == n then Last(all, n)[1..] else Last(all, n)) + [Entry(key, value)]
  {
    hide Deleted, DistinctKeys;
    if Has(all, key) {
      var k :| 0 <= k < |all| && all[k].key == key;
      DeletedSplits(all, k);
      KeptHas(all, n, k);
      PushesOut(all[..k] + all[k + 1..], all, n, Entry(key, value));
    } else {
      DeletedNone(all, key);
      PushesOut(all, all, n, Entry(key, value));
    }
  }

  lemma {:induction false} KeptHas(all: Entries, n: nat, k: nat)
    requires k < |all| && n >= 1 && !Has(Last(all, n), all[k].key)
    ensures |all| > n && k < |all| - n
  {
    var kept := Last(all, n);
    assert forall i :: 0 <= i < |kept| ==> kept[i] == all[|all| - |kept| + i];
    assert forall i :: |all| - |kept| <= i < |all| ==> all[i] == kept[i - (|all| - |kept|)];
  }

  /** `rest` is all of `all`, or all but one that is not kept. */
  lemma PushesOut(rest: Entries, all: Entries, n: nat, e: Entry)
    requires n >= 1
    requires rest == all || (|all| > n && |rest| == |all| - 1 && rest[|rest| - n..] == all[|all| - n..])
    ensures Last(rest + [e], n) == (if |Last(all, n)| == n then Last(all, n)[1..] else Last(all, n)) + [e]
  {
  }

  lemma {:induction false} TouchesAgree(maxSize: int, log: seq<Entry>, op: Op)
    ensures Apply(maxSize, Last(ByRecency(log), Capacity(maxSize)), op) ==
      Last(ByRecency(Touched(maxSize, log, op)), Capacity(maxSize))
  {
    hide Deleted, Last, Lookup;
    var n := Capacity(maxSize);
    var all := ByRecency(log);
    var kept := Last(all, n);
    ByRecencyDistinct(log);
    LastLength(all, n);
    match op {
      case Clear => EmptyLast(n);
      case Get(key) =>
        if Has(kept, key) {
          var value := Lookup(kept, key).value;
          ByRecencySnoc(log, key, value);
          TouchKept(all, n, key, value);
        }
      case Set(key, value) =>
        ByRecencySnoc(log, key, value);
        if Has(kept, key) {
          TouchKept(all, n, key, value);
        } else {
          TouchOther(all, n, key, value);
        }
    }
  }

  lemma {:induction false} ByRecencySnoc(log: seq<Entry>, key: string, value: Embedding)
    ensures ByRecency(log + [Entry(key, value)]) == Deleted(ByRecency(log), key) + [Entry(key, value)]
  {
    assert (log + [Entry(key, value)])[..|log|] == log;
  }

  lemma LastLength(entries: Entries, n: nat)
    ensures |Last(entries, n)| == if |entries| <= n then |entries| else n
  {
  }

  lemma EmptyLast(n: nat)
    ensures Last([], n) == [] && ByRecency([]) == []
  {
  }

  /** After any operations the entries, in order, are the last `maxSize` keys by their last touch (and
      one key where `maxSize` is less than one), each with its latest value. */
  lemma {:induction false} CacheIsExact(maxSize: int, ops: seq<Op>)
    ensures CacheAfter(maxSize, ops) == Last(ByRecency(LogAfter(maxSize, ops)), Capacity(maxSize))
  {
    hide Apply, Touched, ByRecency, Last;
    if ops == [] {
      EmptyLast(Capacity(maxSize));
    } else {
      CacheIsExact(maxSize, ops[..|ops| - 1]);
      TouchesAgree(maxSize, LogAfter(maxSize, ops[..|ops| - 1]), ops[|ops| - 1]);
    }
  }
}
