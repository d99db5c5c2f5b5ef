/** `dedupeByKey` (src/bulk.ts): last-write-wins dedup by natural id, keeping first-seen order. */
module Dedupe {
  import opened Utf16
  import opened Graph

  /** The name an id lands as: numbers and strings are separate namespaces, and a string is keyed by its
      well-formed spelling. */
  function Landed(k: Key): Key {
    match k
    case Num(n) => Num(n)
    case Str(s) => Str(WellFormed(s))
  }

  /** The insertion-ordered map the loop fills, and the elements that have no key. */
  datatype Buckets<T> = Buckets(keys: seq<Key>, last: map<Key, T>, anonymous: seq<T>)

  function Put<T>(b: Buckets<T>, k: Option<Key>, item: T): Buckets<T> {
    match k
    case None => b.(anonymous := b.anonymous + [item])
    case Some(key) =>
      b.(keys := if Landed(key) in b.last then b.keys else b.keys + [Landed(key)],
         last := b.last[Landed(key) := item])
  }

  function Fill<T>(items: seq<T>, keyOf: T -> Option<Key>): Buckets<T> {
    if items == [] then Buckets([], map[], [])
    else Put(Fill(items[..|items| - 1], keyOf), keyOf(items[|items| - 1]), items[|items| - 1])
  }

  ghost predicate Filled<T>(b: Buckets<T>) {
    && (forall k :: k in b.keys <==> k in b.last)
    && forall i, j | 0 <= i < j < |b.keys| :: b.keys[i] != b.keys[j]
  }

  lemma {:induction false} FillIsFilled<T>(items: seq<T>, keyOf: T -> Option<Key>)
    ensures Filled(Fill(items, keyOf))
  {
    if items != [] { FillIsFilled(items[..|items| - 1], keyOf); }
  }

  function Values<T>(keys: seq<Key>, last: map<Key, T>): seq<T>
    requires forall k | k in keys :: k in last
  {
    seq(|keys|, i requires 0 <= i < |keys| => last[keys[i]])
  }

  /** The deduplicated batch: each key's last definition in first-seen order, then the keyless elements. */
  function Deduped<T>(items: seq<T>, keyOf: T -> Option<Key>): seq<T> {
    FillIsFilled(items, keyOf);
    var b := Fill(items, keyOf);
    Values(b.keys, b.last) + b.anonymous
  }

  method DedupeByKey<T>(items: seq<T>, keyOf: T -> Option<Key>) returns (kept: seq<T>)
    ensures kept == Deduped(items, keyOf)
  {
    var keys: seq<Key>, last: map<Key, T>, anonymous: seq<T> := [], map[], [];
    for at := 0 to |items|
      invariant Buckets(keys, last, anonymous) == Fill(items[..at], keyOf)
    {
      assert items[..at + 1][..at] == items[..at];
      var item := items[at];
      match keyOf(item) {
        case None => anonymous := anonymous + [item];
        case Some(key) =>
          var k := Landed(key);
          if k !in last { keys := keys + [k]; }
          last := last[k := item];
      }
    }
    assert items[..|items|] == items;
    FillIsFilled(items, keyOf);
    kept := Values(keys, last) + anonymous;
  }

  // ---------- what the loop keeps ----------

  predicate HasKey<T>(item: T, keyOf: T -> Option<Key>, k: Key) {
    keyOf(item).Some? && Landed(keyOf(item).value) == k
  }

  /** `at` is the first (last) position of key `k`. */
  ghost predicate FirstAt<T>(items: seq<T>, keyOf: T -> Option<Key>, k: Key, at: int) {
    && 0 <= at < |items| && HasKey(items[at], keyOf, k)
    && forall i | 0 <= i < at :: !HasKey(items[i], keyOf, k)
  }

  ghost predicate LastAt<T>(items: seq<T>, keyOf: T -> Option<Key>, k: Key, at: int) {
    && 0 <= at < |items| && HasKey(items[at], keyOf, k)
    && forall i | at < i < |items| :: !HasKey(items[i], keyOf, k)
  }

  /** Key `k` first occurs before key `k'` does. */
  ghost predicate SeenBefore<T>(items: seq<T>, keyOf: T -> Option<Key>, k: Key, k': Key) {
    exists p, q :: FirstAt(items, keyOf, k, p) && FirstAt(items, keyOf, k', q) && p < q
  }

  /** A key is kept exactly when some element carries it, with the last definition given for it. */
  lemma {:induction false} LastWriteWins<T>(items: seq<T>, keyOf: T -> Option<Key>, k: Key)
    ensures k in Fill(items, keyOf).last <==> exists i :: 0 <= i < |items| && HasKey(items[i], keyOf, k)
    ensures k in Fill(items, keyOf).last ==>
      exists i :: LastAt(items, keyOf, k, i) && Fill(items, keyOf).last[k] == items[i]
  {
    if items != [] {
      var n := |items| - 1;
      LastWriteWins(items[..n], keyOf, k);
      var b, b' := Fill(items[..n], keyOf), Fill(items, keyOf);
      if HasKey(items[n], keyOf, k) {
        assert LastAt(items, keyOf, k, n);
      } else if k in b.last {
        var i :| LastAt(items[..n], keyOf, k, i) && b.last[k] == items[..n][i];
        assert LastAt(items, keyOf, k, i) && b'.last[k] == items[i];
      } else {
        forall i | 0 <= i < |items| ensures !HasKey(items[i], keyOf, k) {
          assert i < n ==> items[..n][i] == items[i];
        }
      }
    }
  }

  /** Keys stand in the order in which they first occur. */
  lemma {:induction false} FirstSeenOrder<T>(items: seq<T>, keyOf: T -> Option<Key>, i: nat, j: nat)
    requires i < j < |Fill(items, keyOf).keys|
    ensures SeenBefore(items, keyOf, Fill(items, keyOf).keys[i], Fill(items, keyOf).keys[j])
  {
    FirstSeen(items, keyOf, i);
    var n := |items| - 1;
    var front, keys := Fill(items[..n], keyOf), Fill(items, keyOf).keys;
    if j < |front.keys| {
      FirstSeenOrder(items[..n], keyOf, i, j);
      var p, q :| FirstAt(items[..n], keyOf, keys[i], p) && FirstAt(items[..n], keyOf, keys[j], q) && p < q;
      assert FirstAt(items, keyOf, keys[i], p) && FirstAt(items, keyOf, keys[j], q);
    } else {
      FirstSeen(items[..n], keyOf, i);
      var p :| FirstAt(items[..n], keyOf, keys[i], p);
      assert FirstAt(items, keyOf, keys[i], p);
      LastWriteWins(items[..n], keyOf, keys[j]);
      assert FirstAt(items, keyOf, keys[j], n);
    }
  }

  lemma {:induction false} FirstSeen<T>(items: seq<T>, keyOf: T -> Option<Key>, i: nat)
    requires i < |Fill(items, keyOf).keys|
    ensures exists p :: FirstAt(items, keyOf, Fill(items, keyOf).keys[i], p)
  {
    var n := |items| - 1;
    var front, keys := Fill(items[..n], keyOf), Fill(items, keyOf).keys;
    if i < |front.keys| {
      FirstSeen(items[..n], keyOf, i);
      var p :| FirstAt(items[..n], keyOf, keys[i], p);
      assert FirstAt(items, keyOf, keys[i], p);
    } else {
      LastWriteWins(items[..n], keyOf, keys[i]);
      assert FirstAt(items, keyOf, keys[i], n);
    }
  }

  /** The keyless elements of a batch, in order. */
  function Keyless<T>(items: seq<T>, keyOf: T -> Option<Key>): seq<T> {
    if items == [] then []
    else
      var rest, item := Keyless(items[..|items| - 1], keyOf), items[|items| - 1];
      if keyOf(item).None? then rest + [item] else rest
  }

  /** The whole of `dedupeByKey`, read off the input alone: one element per key, the last that carries it,
      in order of the keys' first occurrence, and after them every keyless element in order. */
  lemma DedupedMeaning<T>(items: seq<T>, keyOf: T -> Option<Key>) returns (keys: seq<Key>)
    ensures forall k :: k in keys <==> exists i :: 0 <= i < |items| && HasKey(items[i], keyOf, k)
    ensures forall i, j | 0 <= i < j < |keys| :: keys[i] != keys[j]
    ensures forall i, j | 0 <= i < j < |keys| :: SeenBefore(items, keyOf, keys[i], keys[j])
    ensures |Deduped(items, keyOf)| == |keys| + |Keyless(items, keyOf)|
    ensures forall i | 0 <= i < |keys| ::
      exists p :: LastAt(items, keyOf, keys[i], p) && Deduped(items, keyOf)[i] == items[p]
    ensures Deduped(items, keyOf)[|keys|..] == Keyless(items, keyOf)
  {
    FillIsFilled(items, keyOf);
    keys := Fill(items, keyOf).keys;
    forall k ensures k in keys <==> exists i :: 0 <= i < |items| && HasKey(items[i], keyOf, k) {
      LastWriteWins(items, keyOf, k);
    }
    forall i, j | 0 <= i < j < |keys|
      ensures SeenBefore(items, keyOf, keys[i], keys[j])
    {
      FirstSeenOrder(items, keyOf, i, j);
    }
    forall i | 0 <= i < |keys|
      ensures exists p :: LastAt(items, keyOf, keys[i], p) && Deduped(items, keyOf)[i] == items[p]
    {
      LastWriteWins(items, keyOf, keys[i]);
    }
    AnonymousIsKeyless(items, keyOf);
  }

  lemma {:induction false} AnonymousIsKeyless<T>(items: seq<T>, keyOf: T -> Option<Key>)
    ensures Fill(items, keyOf).anonymous == Keyless(items, keyOf)
  {
    if items != [] { AnonymousIsKeyless(items[..|items| - 1], keyOf); }
  }

  /** A numeric id and a string id never merge, however they are spelled: with both in a batch, each is kept for
      itself, at a place of its own. */
  lemma NumbersAndStringsStayApart<T>(items: seq<T>, keyOf: T -> Option<Key>, a: T, b: T) returns (i: nat, j: nat)
    requires a in items && b in items && keyOf(a).Some? && keyOf(b).Some? && keyOf(a).value.Num? && keyOf(b).value.Str?
    ensures i < |Deduped(items, keyOf)| && j < |Deduped(items, keyOf)| && i != j
    ensures HasKey(Deduped(items, keyOf)[i], keyOf, Landed(keyOf(a).value))
    ensures HasKey(Deduped(items, keyOf)[j], keyOf, Landed(keyOf(b).value))
  {
    var keys := DedupedMeaning(items, keyOf);
    var p :| 0 <= p < |items| && items[p] == a;
    var q :| 0 <= q < |items| && items[q] == b;
    assert HasKey(items[p], keyOf, Landed(keyOf(a).value)) && HasKey(items[q], keyOf, Landed(keyOf(b).value));
    hide Deduped;
    assert Landed(keyOf(a).value) in keys && Landed(keyOf(b).value) in keys;
    i :| 0 <= i < |keys| && keys[i] == Landed(keyOf(a).value);
    j :| 0 <= j < |keys| && keys[j] == Landed(keyOf(b).value);
    var x :| LastAt(items, keyOf, keys[i], x) && Deduped(items, keyOf)[i] == items[x];
    var y :| LastAt(items, keyOf, keys[j], y) && Deduped(items, keyOf)[j] == items[y];
  }

  // ---------- dedup absorbs an earlier dedup ----------

  ghost predicate AllKeyed<T>(items: seq<T>, keyOf: T -> Option<Key>) {
    forall i | 0 <= i < |items| :: keyOf(items[i]).Some?
  }

  /** Putting distinct keys' definitions back one after the other rebuilds the map over those keys. */
  lemma {:induction false} Refill<T>(keys: seq<Key>, last: map<Key, T>, keyOf: T -> Option<Key>)
    requires forall i, j | 0 <= i < j < |keys| :: keys[i] != keys[j]
    requires forall k | k in keys :: k in last && HasKey(last[k], keyOf, k)
    ensures var r := Fill(Values(keys, last), keyOf);
      r.keys == keys && r.anonymous == [] && r.last == map k | k in keys :: last[k]
  {
    if keys != [] {
      var n := |keys| - 1;
      var front, k := keys[..n], keys[n];
      assert keys == front + [k] && k !in front && k in keys;
      Refill(front, last, keyOf);
      ValuesAppend(front, k, last);
      FillAppend(Values(front, last), last[k], keyOf);
      PutOneMore(front, k, last, Fill(Values(front, last), keyOf), keyOf(last[k]));
    }
  }

  lemma PutOneMore<T>(front: seq<Key>, k: Key, last: map<Key, T>, b: Buckets<T>, id: Option<Key>)
    requires k !in front && k in last && forall i | i in front :: i in last
    requires b.keys == front && b.anonymous == [] && b.last == map i | i in front :: last[i]
    requires id.Some? && Landed(id.value) == k
    ensures var r := Put(b, id, last[k]);
      r.keys == front + [k] && r.anonymous == [] && r.last == map i | i in front + [k] :: last[i]
  {
    assert forall i :: i in front + [k] <==> i in front || i == k;
  }

  lemma ValuesAppend<T>(front: seq<Key>, k: Key, last: map<Key, T>)
    requires forall i | i in front + [k] :: i in last
    ensures Values(front + [k], last) == Values(front, last) + [last[k]]
  {
    assert forall i | i in front :: i in front + [k];
    assert k in front + [k];
  }

  lemma FillAppend<T>(items: seq<T>, item: T, keyOf: T -> Option<Key>)
    ensures Fill(items + [item], keyOf) == Put(Fill(items, keyOf), keyOf(item), item)
  {
    assert (items + [item])[..|items|] == items;
  }

  lemma {:induction false} KeyedHaveNoAnonymous<T>(items: seq<T>, keyOf: T -> Option<Key>)
    requires AllKeyed(items, keyOf)
    ensures Fill(items, keyOf).anonymous == []
  {
    if items != [] { KeyedHaveNoAnonymous(items[..|items| - 1], keyOf); }
  }

  lemma RefillDeduped<T>(items: seq<T>, keyOf: T -> Option<Key>)
    requires AllKeyed(items, keyOf)
    ensures Fill(Deduped(items, keyOf), keyOf) == Fill(items, keyOf)
  {
    var b := Fill(items, keyOf);
    FillIsFilled(items, keyOf);
    KeyedHaveNoAnonymous(items, keyOf);
    forall k | k in b.keys ensures HasKey(b.last[k], keyOf, k) { LastWriteWins(items, keyOf, k); }
    Refill(b.keys, b.last, keyOf);
    assert (map k | k in b.keys :: b.last[k]) == b.last;
    assert Values(b.keys, b.last) + [] == Values(b.keys, b.last);
  }

  lemma {:induction false} FillAbsorbs<T>(xs: seq<T>, ys: seq<T>, keyOf: T -> Option<Key>)
    requires AllKeyed(xs, keyOf)
    ensures Fill(xs + ys, keyOf) == Fill(Deduped(xs, keyOf) + ys, keyOf)
  {
    if ys == [] {
      RefillDeduped(xs, keyOf);
      assert xs + [] == xs && Deduped(xs, keyOf) + [] == Deduped(xs, keyOf);
    } else {
      var n := |ys| - 1;
      FillAbsorbs(xs, ys[..n], keyOf);
      assert (xs + ys)[..|xs| + n] == xs + ys[..n];
      assert (Deduped(xs, keyOf) + ys)[..|Deduped(xs, keyOf)| + n] == Deduped(xs, keyOf) + ys[..n];
    }
  }

  /** Deduplicating a first part of a keyed batch beforehand changes nothing. */
  lemma DedupAbsorbs<T>(xs: seq<T>, ys: seq<T>, keyOf: T -> Option<Key>)
    requires AllKeyed(xs, keyOf)
    ensures Deduped(xs + ys, keyOf) == Deduped(Deduped(xs, keyOf) + ys, keyOf)
  {
    FillAbsorbs(xs, ys, keyOf);
  }
}
