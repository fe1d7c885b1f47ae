/** Plain JavaScript objects used as dictionaries, with the insertion order of
    their keys kept: an association list of distinct keys. `Buckets` hold
    lists (`obj[k].push(x)`), `Tally` holds numbers (`obj[k] = (obj[k] || 0) + v`). */
module Buckets {
  import opened Common

  datatype Bucket<K, T> = Bucket(key: K, items: seq<T>)

  function Keys<K, T>(bs: seq<Bucket<K, T>>): (r: seq<K>)
    ensures |r| == |bs|
    ensures forall i :: 0 <= i < |bs| ==> r[i] == bs[i].key
  {
    seq(|bs|, i requires 0 <= i < |bs| => bs[i].key)
  }

  /** `obj[k] || []`: the items under the first bucket with key `k`. */
  function Get<K(==), T>(bs: seq<Bucket<K, T>>, k: K): seq<T>
  {
    if |bs| == 0 then []
    else if bs[0].key == k then bs[0].items
    else Get(bs[1..], k)
  }

  /** Under distinct keys, `Get` reads the bucket at the key's position. */
  lemma {:induction false} GetAt<K, T>(bs: seq<Bucket<K, T>>, i: nat)
    requires i < |bs| && NoDup(Keys(bs))
    ensures Get(bs, bs[i].key) == bs[i].items
  {
    if i > 0 {
      assert Keys(bs[1..]) == Keys(bs)[1..];
      GetAt(bs[1..], i - 1);
    }
  }

  /** A key with no bucket reads as the empty list. */
  lemma {:induction false} GetMissing<K, T>(bs: seq<Bucket<K, T>>, k: K)
    requires k !in Keys(bs)
    ensures Get(bs, k) == []
  {
    if |bs| > 0 {
      assert Keys(bs[1..]) == Keys(bs)[1..];
      GetMissing(bs[1..], k);
    }
  }

  function ItemCount<K, T>(): Bucket<K, T> -> int
  {
    (b: Bucket<K, T>) => |b.items|
  }

  /** The number of items over all buckets. */
  function TotalSize<K, T>(bs: seq<Bucket<K, T>>): int
  {
    SumOf(bs, ItemCount())
  }

  /** A bucket put in front: its key first, its items counted, and `Get`
      finds it before the rest. */
  lemma BucketCons<K, T>(b: Bucket<K, T>, bs: seq<Bucket<K, T>>)
    ensures Keys([b] + bs) == [b.key] + Keys(bs)
    ensures TotalSize([b] + bs) == |b.items| + TotalSize(bs)
  {
    SumOfCons(b, bs, ItemCount());
  }

  lemma GetCons<K, T>(b: Bucket<K, T>, bs: seq<Bucket<K, T>>, k: K)
    ensures Get([b] + bs, k) == if b.key == k then b.items else Get(bs, k)
  {
    assert ([b] + bs)[1..] == bs;
  }

  /** Adding a key to a key list keeps it when present and appends it
      otherwise; a different key in front does not change that. */
  lemma KeyAfterOther<K>(h: K, ks: seq<K>, ks': seq<K>, k: K)
    requires h != k
    requires ks' == if k in ks then ks else ks + [k]
    ensures [h] + ks' == if k in [h] + ks then [h] + ks else [h] + ks + [k]
  {
    assert (k in [h] + ks) == (k in ks);
    if k !in ks {
      assert [h] + (ks + [k]) == [h] + ks + [k];
    }
  }

  /** `obj[k] ? obj[k].push(x) : obj[k] = [x]`. */
  function Push<K(==), T>(bs: seq<Bucket<K, T>>, k: K, x: T): seq<Bucket<K, T>>
  {
    if |bs| == 0 then [Bucket(k, [x])]
    else if bs[0].key == k then [Bucket(k, bs[0].items + [x])] + bs[1..]
    else [bs[0]] + Push(bs[1..], k, x)
  }

  /** An existing key keeps its place; a new key is appended. */
  lemma {:induction false} PushKeys<K, T>(bs: seq<Bucket<K, T>>, k: K, x: T)
    ensures Keys(Push(bs, k, x)) == if k in Keys(bs) then Keys(bs) else Keys(bs) + [k]
  {
    if |bs| > 0 {
      var b, tail := bs[0], bs[1..];
      assert bs == [b] + tail;
      BucketCons(b, tail);
      if b.key == k {
        BucketCons(Bucket(k, b.items + [x]), tail);
      } else {
        var rest := Push(tail, k, x);
        PushKeys(tail, k, x);
        BucketCons(b, rest);
        KeyAfterOther(b.key, Keys(tail), Keys(rest), k);
      }
    }
  }

  /** The item lands at the end of its key's list; no other list changes. */
  lemma {:induction false} PushGet<K, T>(bs: seq<Bucket<K, T>>, k: K, x: T, k': K)
    ensures Get(Push(bs, k, x), k') == Get(bs, k') + (if k' == k then [x] else [])
  {
    if |bs| > 0 {
      var b, tail := bs[0], bs[1..];
      assert bs == [b] + tail;
      GetCons(b, tail, k');
      if b.key == k {
        GetCons(Bucket(k, b.items + [x]), tail, k');
      } else {
        PushGet(tail, k, x, k');
        GetCons(b, Push(tail, k, x), k');
      }
    }
  }

  /** One more item in total. */
  lemma {:induction false} PushSize<K, T>(bs: seq<Bucket<K, T>>, k: K, x: T)
    ensures TotalSize(Push(bs, k, x)) == TotalSize(bs) + 1
  {
    if |bs| == 0 {
      BucketCons(Bucket(k, [x]), []);
    } else {
      var b, tail := bs[0], bs[1..];
      assert bs == [b] + tail;
      BucketCons(b, tail);
      if b.key == k {
        BucketCons(Bucket(k, b.items + [x]), tail);
      } else {
        PushSize(tail, k, x);
        BucketCons(b, Push(tail, k, x));
      }
    }
  }

  /** One key/number entry of a tally. */
  datatype Entry<K> = Entry(key: K, value: int)

  function TallyKeys<K>(t: seq<Entry<K>>): (r: seq<K>)
    ensures |r| == |t|
    ensures forall i :: 0 <= i < |t| ==> r[i] == t[i].key
  {
    seq(|t|, i requires 0 <= i < |t| => t[i].key)
  }

  /** `obj[k] || 0`: the number under key `k`, 0 when the key is absent. */
  function Lookup<K(==)>(t: seq<Entry<K>>, k: K): int
  {
    if |t| == 0 then 0
    else if t[0].key == k then t[0].value
    else Lookup(t[1..], k)
  }

  lemma LookupCons<K>(e: Entry<K>, rest: seq<Entry<K>>, k: K)
    ensures Lookup([e] + rest, k) == if e.key == k then e.value else Lookup(rest, k)
  {
    assert ([e] + rest)[1..] == rest;
  }

  function EntryValue<K>(): Entry<K> -> int
  {
    (e: Entry<K>) => e.value
  }

  /** The sum of all numbers of a tally. */
  function SumValues<K>(t: seq<Entry<K>>): int
  {
    SumOf(t, EntryValue())
  }

  lemma EntryCons<K>(e: Entry<K>, rest: seq<Entry<K>>)
    ensures TallyKeys([e] + rest) == [e.key] + TallyKeys(rest)
    ensures SumValues([e] + rest) == e.value + SumValues(rest)
  {
    SumOfCons(e, rest, EntryValue());
  }

  /** `obj[k] = (obj[k] || 0) + v`. */
  function AddTo<K(==)>(t: seq<Entry<K>>, k: K, v: int): seq<Entry<K>>
  {
    if |t| == 0 then [Entry(k, v)]
    else if t[0].key == k then [Entry(k, t[0].value + v)] + t[1..]
    else [t[0]] + AddTo(t[1..], k, v)
  }

  /** An existing key keeps its place; a new key is appended. */
  lemma {:induction false} AddToKeys<K>(t: seq<Entry<K>>, k: K, v: int)
    ensures TallyKeys(AddTo(t, k, v)) == if k in TallyKeys(t) then TallyKeys(t) else TallyKeys(t) + [k]
  {
    if |t| > 0 {
      var e, tail := t[0], t[1..];
      assert t == [e] + tail;
      EntryCons(e, tail);
      if e.key == k {
        EntryCons(Entry(k, e.value + v), tail);
      } else {
        var rest := AddTo(tail, k, v);
        AddToKeys(tail, k, v);
        EntryCons(e, rest);
        KeyAfterOther(e.key, TallyKeys(tail), TallyKeys(rest), k);
      }
    }
  }

  /** The number under `k` grows by `v`; every other number stays. */
  lemma {:induction false} AddToLookup<K>(t: seq<Entry<K>>, k: K, v: int, k': K)
    ensures Lookup(AddTo(t, k, v), k') == Lookup(t, k') + (if k' == k then v else 0)
  {
    if |t| > 0 {
      var e, tail := t[0], t[1..];
      assert t == [e] + tail;
      LookupCons(e, tail, k');
      if e.key == k {
        LookupCons(Entry(k, e.value + v), tail, k');
      } else {
        AddToLookup(tail, k, v, k');
        LookupCons(e, AddTo(tail, k, v), k');
      }
    }
  }

  /** The sum of the numbers grows by `v`. */
  lemma {:induction false} AddToSum<K>(t: seq<Entry<K>>, k: K, v: int)
    ensures SumValues(AddTo(t, k, v)) == SumValues(t) + v
  {
    if |t| == 0 {
      EntryCons(Entry(k, v), []);
    } else {
      var e, tail := t[0], t[1..];
      assert t == [e] + tail;
      EntryCons(e, tail);
      if e.key == k {
        EntryCons(Entry(k, e.value + v), tail);
      } else {
        AddToSum(tail, k, v);
        EntryCons(e, AddTo(tail, k, v));
      }
    }
  }

  /** Every number of the tally is at least zero. */
  predicate NonNegativeTally<K>(t: seq<Entry<K>>)
  {
    forall i :: 0 <= i < |t| ==> t[i].value >= 0
  }

  /** Adding a non-negative amount keeps a tally non-negative. */
  lemma {:induction false} AddToNonNegative<K>(t: seq<Entry<K>>, k: K, v: int)
    requires NonNegativeTally(t) && v >= 0
    ensures NonNegativeTally(AddTo(t, k, v))
  {
    if |t| > 0 && t[0].key != k {
      AddToNonNegative(t[1..], k, v);
    }
  }

  /** A tally of distinct keys each set to zero (`Object.fromEntries(keys.map(k => [k, 0]))`). */
  function Zeros<K>(ks: seq<K>): (r: seq<Entry<K>>)
    ensures TallyKeys(r) == ks
    ensures NonNegativeTally(r)
  {
    seq(|ks|, i requires 0 <= i < |ks| => Entry(ks[i], 0))
  }

  lemma {:induction false} ZerosSum<K>(ks: seq<K>)
    ensures SumValues(Zeros(ks)) == 0
  {
    if |ks| > 0 {
      var init := ks[..|ks| - 1];
      ZerosSum(init);
      assert Zeros(ks) == Zeros(init) + [Entry(ks[|ks| - 1], 0)];
      SumOfSnoc(Zeros(init), Entry(ks[|ks| - 1], 0), EntryValue());
    }
  }

  lemma {:induction false} ZerosLookup<K>(ks: seq<K>, k: K)
    ensures Lookup(Zeros(ks), k) == 0
  {
    if |ks| > 0 {
      assert Zeros(ks)[1..] == Zeros(ks[1..]);
      ZerosLookup(ks[1..], k);
    }
  }
}
