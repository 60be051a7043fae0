/**
 * The "group into an object of arrays" idiom: `items.reduce((acc, x) => { if (!acc[k]) acc[k] = [];
 * acc[k].push(x); return acc; }, {})`. The object is modelled by its keys in insertion order
 * and a map from each key to its array.
 */
module Grouping {
  import opened Seqs

  datatype Groups<T> = Groups(keys: seq<string>, buckets: map<string, seq<T>>)

  /** The items with key `k`, in input order: what `acc[k]` holds at the end. */
  function Bucket<T>(items: seq<T>, key: T -> string, k: string): seq<T> {
    Filter(items, x => key(x) == k)
  }

  /** Some item has key `k`. */
  predicate HasKey<T>(items: seq<T>, key: T -> string, k: string) {
    exists i :: 0 <= i < |items| && key(items[i]) == k
  }

  /** The position of the first item with key `k`, or `|items|` when no item has it. */
  function FirstIndex<T>(items: seq<T>, key: T -> string, k: string): (n: nat)
    ensures n <= |items|
  {
    if items == [] then 0 else if key(items[0]) == k then 0 else 1 + FirstIndex(items[1..], key, k)
  }

  /** `keys` and `buckets` are the object that grouping `items` builds. */
  ghost predicate GroupsOf<T>(items: seq<T>, key: T -> string, keys: seq<string>, buckets: map<string, seq<T>>) {
    KeysOf(items, key, keys, buckets) && BucketsOf(items, key, buckets) && OrderOf(items, key, keys)
  }

  /** The keys are listed in the order in which their first items come: insertion order. */
  ghost predicate OrderOf<T>(items: seq<T>, key: T -> string, keys: seq<string>) {
    forall i, j :: 0 <= i < j < |keys| ==> FirstIndex(items, key, keys[i]) < FirstIndex(items, key, keys[j])
  }

  /** The object has a key exactly for the keys of the items, listed once each. */
  ghost predicate KeysOf<T>(items: seq<T>, key: T -> string, keys: seq<string>, buckets: map<string, seq<T>>) {
    && Distinct(keys)
    && (forall k :: k in buckets <==> k in keys)
    && (forall k :: k in buckets <==> HasKey(items, key, k))
  }

  /** Each key's array holds the items with that key, in order. */
  ghost predicate BucketsOf<T>(items: seq<T>, key: T -> string, buckets: map<string, seq<T>>) {
    forall k :: k in buckets ==> buckets[k] == Bucket(items, key, k)
  }

  lemma HasKeySnoc<T>(items: seq<T>, key: T -> string, x: T, k: string)
    ensures HasKey(items + [x], key, k) <==> HasKey(items, key, k) || k == key(x)
  {
    if HasKey(items + [x], key, k) && k != key(x) {
      var j :| 0 <= j < |items| + 1 && key((items + [x])[j]) == k;
      assert j < |items| && (items + [x])[j] == items[j];
    }
    if HasKey(items, key, k) {
      var j :| 0 <= j < |items| && key(items[j]) == k;
      assert (items + [x])[j] == items[j];
    }
    assert (items + [x])[|items|] == x;
  }

  /** An item with key `k` exists exactly when the first index is inside, and it is that item. */
  lemma {:induction false} FirstIndexFound<T>(items: seq<T>, key: T -> string, k: string)
    ensures FirstIndex(items, key, k) < |items| <==> HasKey(items, key, k)
    ensures HasKey(items, key, k) ==> key(items[FirstIndex(items, key, k)]) == k
  {
    if items != [] {
      if key(items[0]) == k {
        assert HasKey(items, key, k);
      } else {
        FirstIndexFound(items[1..], key, k);
        if HasKey(items, key, k) {
          var j :| 0 <= j < |items| && key(items[j]) == k;
          assert j > 0 && items[1..][j - 1] == items[j];
        }
        if HasKey(items[1..], key, k) {
          var j :| 0 <= j < |items[1..]| && key(items[1..][j]) == k;
          assert items[j + 1] == items[1..][j];
          assert items[FirstIndex(items, key, k)] == items[1..][FirstIndex(items[1..], key, k)];
        }
      }
    }
  }

  /** Appending an item moves no first index that exists already. */
  lemma {:induction false} FirstIndexSnoc<T>(items: seq<T>, key: T -> string, x: T, k: string)
    ensures FirstIndex(items + [x], key, k)
            == if FirstIndex(items, key, k) < |items| then FirstIndex(items, key, k)
               else if key(x) == k then |items| else |items| + 1
  {
    if items == [] {
      assert items + [x] == [x] && [x][1..] == [];
    } else {
      assert (items + [x])[0] == items[0];
      assert (items + [x])[1..] == items[1..] + [x];
      FirstIndexSnoc(items[1..], key, x, k);
    }
  }

  lemma OrderOfPush<T>(items: seq<T>, key: T -> string, keys: seq<string>, buckets: map<string, seq<T>>, x: T)
    requires KeysOf(items, key, keys, buckets) && OrderOf(items, key, keys)
    ensures var k := key(x);
      OrderOf(items + [x], key, if k in buckets then keys else keys + [k])
  {
    var k := key(x);
    var keys' := if k in buckets then keys else keys + [k];
    forall i | 0 <= i < |keys|
      ensures FirstIndex(items + [x], key, keys[i]) == FirstIndex(items, key, keys[i]) < |items|
    {
      assert keys[i] in keys;
      FirstIndexFound(items, key, keys[i]);
      FirstIndexSnoc(items, key, x, keys[i]);
    }
    if k !in buckets {
      FirstIndexFound(items, key, k);
      FirstIndexSnoc(items, key, x, k);
      assert keys'[|keys|] == k;
      assert forall i :: 0 <= i < |keys| ==> keys'[i] == keys[i];
    }
  }

  lemma KeysOfPush<T>(items: seq<T>, key: T -> string, keys: seq<string>, buckets: map<string, seq<T>>, x: T)
    requires KeysOf(items, key, keys, buckets)
    ensures var k := key(x);
      KeysOf(items + [x], key, if k in buckets then keys else keys + [k],
             buckets[k := (if k in buckets then buckets[k] else []) + [x]])
  {
    forall k' ensures HasKey(items + [x], key, k') <==> HasKey(items, key, k') || k' == key(x) {
      HasKeySnoc(items, key, x, k');
    }
  }

  lemma BucketsOfPush<T>(items: seq<T>, key: T -> string, keys: seq<string>, buckets: map<string, seq<T>>, x: T)
    requires KeysOf(items, key, keys, buckets) && BucketsOf(items, key, buckets)
    ensures var k := key(x);
      BucketsOf(items + [x], key, buckets[k := (if k in buckets then buckets[k] else []) + [x]])
  {
    var k := key(x);
    if k !in buckets {
      assert !HasKey(items, key, k);
      FilterEmpty(items, y => key(y) == k);
    }
    forall k' ensures Bucket(items + [x], key, k') == Bucket(items, key, k') + (if k' == k then [x] else []) {
      FilterSnoc(items, x, y => key(y) == k');
    }
  }

  /** Pushing one more item into its key's array keeps the object in step with the items. */
  lemma GroupsOfPush<T>(items: seq<T>, key: T -> string, keys: seq<string>, buckets: map<string, seq<T>>, x: T)
    requires GroupsOf(items, key, keys, buckets)
    ensures var k := key(x);
      GroupsOf(items + [x], key,
               if k in buckets then keys else keys + [k],
               buckets[k := (if k in buckets then buckets[k] else []) + [x]])
  {
    KeysOfPush(items, key, keys, buckets, x);
    BucketsOfPush(items, key, keys, buckets, x);
    OrderOfPush(items, key, keys, buckets, x);
  }

  /** One step of the loop, stated as the loop body performs it. */
  lemma GroupsOfStep<T>(items: seq<T>, key: T -> string, i: int, keys: seq<string>, buckets: map<string, seq<T>>)
    requires 0 <= i < |items| && GroupsOf(items[..i], key, keys, buckets)
    ensures var k := key(items[i]);
      var created := if k in buckets then buckets else buckets[k := []];
      GroupsOf(items[..i + 1], key, if k in buckets then keys else keys + [k],
               created[k := created[k] + [items[i]]])
  {
    GroupsOfPush(items[..i], key, keys, buckets, items[i]);
    assert items[..i + 1] == items[..i] + [items[i]];
    CreateThenPush(buckets, key(items[i]), items[i]);
  }

  /** Creating a missing array and then pushing is pushing onto the array or onto []. */
  lemma CreateThenPush<T>(buckets: map<string, seq<T>>, k: string, x: T)
    ensures var created := if k in buckets then buckets else buckets[k := []];
      created[k := created[k] + [x]] == buckets[k := (if k in buckets then buckets[k] else []) + [x]]
  {
  }

  method GroupBy<T>(items: seq<T>, key: T -> string) returns (g: Groups<T>)
    ensures Distinct(g.keys)
    ensures forall k :: k in g.buckets <==> k in g.keys
    ensures forall k :: k in g.buckets <==> HasKey(items, key, k)
    ensures forall k :: k in g.buckets ==> g.buckets[k] == Bucket(items, key, k)
    ensures forall i, j :: 0 <= i < j < |g.keys| ==> FirstIndex(items, key, g.keys[i]) < FirstIndex(items, key, g.keys[j])
  {
    var keys: seq<string> := [];
    var buckets: map<string, seq<T>> := map[];
    for i := 0 to |items|
      invariant GroupsOf(items[..i], key, keys, buckets)
    {
      var x := items[i];
      var k := key(x);
      GroupsOfStep(items, key, i, keys, buckets);
      if k !in buckets {
        keys := keys + [k];
        buckets := buckets[k := []];
      }
      buckets := buckets[k := buckets[k] + [x]];
    }
    assert items[..|items|] == items;
    g := Groups(keys, buckets);
  }

  /**
   * Every copy of an item lands in the bucket of its own key, and in no other:
   * each item belongs to exactly one group.
   */
  lemma BucketCount<T>(items: seq<T>, key: T -> string, k: string, x: T)
    ensures multiset(Bucket(items, key, k))[x] == if key(x) == k then multiset(items)[x] else 0
  {
    FilterCount(items, y => key(y) == k, x);
  }

  /** Membership in a bucket. */
  lemma BucketMember<T>(items: seq<T>, key: T -> string, k: string, x: T)
    ensures x in Bucket(items, key, k) <==> x in items && key(x) == k
  {
    FilterMember(items, y => key(y) == k, x);
  }
}
