/** The byte-capped LRU of decompressed chunks, and ranged reads of a file through it. */
module ChunkCache {
  import opened Basics
  import Catalog

  type ChunkId = Catalog.Digest

  // ---------------------------------------------------------------- sums over the access order

  function Total(chunks: map<ChunkId, Bytes>, order: seq<ChunkId>): nat
    requires forall x :: x in order ==> x in chunks
  {
    if order == [] then 0 else |chunks[order[0]]| + Total(chunks, order[1..])
  }

  predicate Distinct(order: seq<ChunkId>) {
    forall i, j :: 0 <= i < j < |order| ==> order[i] != order[j]
  }

  function IndexOf(order: seq<ChunkId>, id: ChunkId): (i: nat)
    requires id in order
    ensures i < |order| && order[i] == id
  {
    if order[0] == id then 0 else 1 + IndexOf(order[1..], id)
  }

  /** Remove `id` and append it: most recently used is last. */
  function Promote(order: seq<ChunkId>, id: ChunkId): seq<ChunkId>
    requires id in order
  {
    var i := IndexOf(order, id);
    order[..i] + order[i + 1..] + [id]
  }

  lemma {:induction false} TotalAppend(chunks: map<ChunkId, Bytes>, a: seq<ChunkId>, b: seq<ChunkId>)
    requires forall x :: x in a || x in b ==> x in chunks
    ensures Total(chunks, a + b) == Total(chunks, a) + Total(chunks, b)
  {
    if a == [] {
      assert a + b == b;
    } else {
      TotalAppend(chunks, a[1..], b);
      assert (a + b)[1..] == a[1..] + b;
    }
  }

  lemma {:induction false} TotalSame(a: map<ChunkId, Bytes>, b: map<ChunkId, Bytes>, order: seq<ChunkId>)
    requires forall x :: x in order ==> x in a && x in b && a[x] == b[x]
    ensures Total(a, order) == Total(b, order)
  {
    if order != [] { TotalSame(a, b, order[1..]); }
  }

  /** Promoting reorders, nothing else. */
  lemma PromotePermutes(order: seq<ChunkId>, id: ChunkId)
    requires id in order && Distinct(order)
    ensures multiset(Promote(order, id)) == multiset(order)
    ensures Distinct(Promote(order, id))
    ensures forall x :: x in Promote(order, id) <==> x in order
  {
    var i := IndexOf(order, id);
    var a, b := order[..i], order[i + 1..];
    assert order == a + [id] + b;
    SwapEnds(a, [id], b);
    PromoteDistinct(order, i);
    forall x ensures x in Promote(order, id) <==> x in order {
      assert x in multiset(Promote(order, id)) <==> x in multiset(order);
    }
  }

  /** Everything but the promoted entry. */
  function Others(order: seq<ChunkId>, id: ChunkId): seq<ChunkId> {
    if order == [] then []
    else Others(order[..|order| - 1], id) + (if order[|order| - 1] == id then [] else [order[|order| - 1]])
  }

  lemma {:induction false} OthersOfSum(a: seq<ChunkId>, b: seq<ChunkId>, id: ChunkId)
    ensures Others(a + b, id) == Others(a, id) + Others(b, id)
  {
    if b == [] {
      assert a + b == a;
    } else {
      OthersOfSum(a, b[..|b| - 1], id);
      assert (a + b)[..|a + b| - 1] == a + b[..|b| - 1];
    }
  }

  /** Promoting moves one entry to the most recent end and leaves the order of all others. */
  lemma PromoteKeepsOthers(order: seq<ChunkId>, id: ChunkId)
    requires id in order
    ensures Promote(order, id) != [] && Promote(order, id)[|order| - 1] == id
    ensures Others(Promote(order, id), id) == Others(order, id)
  {
    hide Others;
    var i := IndexOf(order, id);
    var a, b := order[..i], order[i + 1..];
    assert order == a + [id] + b;
    OthersOfMoved(a, b, id);
  }

  lemma OthersOfMoved(a: seq<ChunkId>, b: seq<ChunkId>, id: ChunkId)
    ensures Others(a + [id] + b, id) == Others(a + b + [id], id)
  {
    NoOthers(id);
    hide Others;
    OthersOfSum(a + [id], b, id);
    OthersOfSum(a, [id], id);
    OthersOfSum(a + b, [id], id);
    OthersOfSum(a, b, id);
    var x, y := Others(a, id), Others(b, id);
    assert x + [] + y == x + y && x + y + [] == x + y;
  }

  lemma NoOthers(id: ChunkId)
    ensures Others([id], id) == []
  {
    assert [id][..0] == [];
  }

  lemma SwapEnds(a: seq<ChunkId>, m: seq<ChunkId>, b: seq<ChunkId>)
    ensures multiset(a + m + b) == multiset(a + b + m)
  {
  }

  lemma PromoteDistinct(order: seq<ChunkId>, i: nat)
    requires i < |order| && Distinct(order)
    ensures Distinct(order[..i] + order[i + 1..] + [order[i]])
  {
    var after := order[..i] + order[i + 1..] + [order[i]];
    forall j, k | 0 <= j < k < |after| ensures after[j] != after[k] {
      assert after[j] == order[if j < i then j else j + 1];
      assert after[k] == order[if k == |after| - 1 then i else if k < i then k else k + 1];
    }
  }

  lemma PromoteKeepsTotal(chunks: map<ChunkId, Bytes>, order: seq<ChunkId>, id: ChunkId)
    requires id in order && forall x :: x in order ==> x in chunks
    ensures forall x :: x in Promote(order, id) ==> x in chunks
    ensures Total(chunks, Promote(order, id)) == Total(chunks, order)
  {
    var i := IndexOf(order, id);
    var a, b := order[..i], order[i + 1..];
    assert order == a + ([id] + b);
    assert Promote(order, id) == (a + b) + [id];
    TotalAppend(chunks, a, [id] + b);
    TotalAppend(chunks, [id], b);
    TotalAppend(chunks, a + b, [id]);
    TotalAppend(chunks, a, b);
  }

  // ---------------------------------------------------------------- the cache

  /** The order is a permutation of the keys and `bytes` their true size. */
  ghost predicate Consistent(chunks: map<ChunkId, Bytes>, order: seq<ChunkId>, bytes: nat) {
    && Distinct(order)
    && (forall x :: x in chunks <==> x in order)
    && bytes == Total(chunks, order)
  }

  lemma PromoteConsistent(chunks: map<ChunkId, Bytes>, order: seq<ChunkId>, bytes: nat, id: ChunkId)
    requires Consistent(chunks, order, bytes) && id in chunks
    ensures id in order && Consistent(chunks, Promote(order, id), bytes)
    ensures Promote(order, id)[|order| - 1] == id && |Promote(order, id)| == |order|
  {
    PromotePermutes(order, id);
    PromoteKeepsTotal(chunks, order, id);
  }

  lemma EvictConsistent(chunks: map<ChunkId, Bytes>, order: seq<ChunkId>, bytes: nat)
    requires Consistent(chunks, order, bytes) && order != []
    ensures order[0] in chunks && bytes >= |chunks[order[0]]|
    ensures Consistent(chunks - {order[0]}, order[1..], bytes - |chunks[order[0]]|)
  {
    assert order == [order[0]] + order[1..];
    TotalSame(chunks, chunks - {order[0]}, order[1..]);
  }

  lemma AppendConsistent(chunks: map<ChunkId, Bytes>, order: seq<ChunkId>, bytes: nat, id: ChunkId, data: Bytes)
    requires Consistent(chunks, order, bytes) && id !in chunks
    ensures Consistent(chunks[id := data], order + [id], bytes + |data|)
  {
    TotalSame(chunks, chunks[id := data], order);
    TotalAppend(chunks[id := data], order, [id]);
  }

  class Cache {
    var chunks: map<ChunkId, Bytes>
    var order: seq<ChunkId>
    var bytes: nat
    const max: nat

    /** The cap holds unless a single entry alone exceeds it. */
    ghost predicate Valid()
      reads this
    {
      Consistent(chunks, order, bytes) && (bytes <= max || |order| == 1)
    }

    constructor (capacity: nat)
      ensures Valid() && chunks == map[] && max == if capacity == 0 then 134217728 else capacity
    {
      chunks, order, bytes := map[], [], 0;
      max := if capacity == 0 then 134217728 else capacity;
    }

    method Get(id: ChunkId) returns (data: Option<Bytes>)
      requires Valid()
      modifies this`order
      ensures Valid()
      ensures data == if id in chunks then Some(chunks[id]) else None
      ensures id in chunks ==> id in old(order) && order == Promote(old(order), id)
      ensures id !in chunks ==> order == old(order)
    {
      hide Consistent, Promote;
      if id in chunks {
        PromoteConsistent(chunks, order, bytes, id);
        order := Promote(order, id);
        return Some(chunks[id]);
      }
      return None;
    }

    /** Insert a chunk, evicting from the least recently used end; an entry already present stays. */
    method Insert(id: ChunkId, data: Bytes) returns (result: Bytes)
      requires Valid()
      modifies this
      ensures Valid() && order != [] && order[|order| - 1] == id
      ensures id in chunks && result == chunks[id]
      ensures result == if id in old(chunks) then old(chunks)[id] else data
      ensures forall k :: k in chunks && k != id ==> k in old(chunks) && chunks[k] == old(chunks)[k]
      ensures id in old(chunks) ==> chunks == old(chunks)
      ensures id in old(chunks) ==> id in old(order) && order == Promote(old(order), id)
      ensures id !in old(chunks) ==>
                InOrder(old(chunks), old(order)) && order == Fitting(old(chunks), old(order), |data|, max) + [id]
    {
      hide Consistent, Promote, Fitting, InOrder;
      if id in chunks {
        PromoteConsistent(chunks, order, bytes, id);
        order := Promote(order, id);
        return chunks[id];
      }
      Evict(|data|);
      AppendConsistent(chunks, order, bytes, id, data);
      chunks := chunks[id := data];
      order := order + [id];
      bytes := bytes + |data|;
      return data;
    }

    /** Drop least recently used entries until `size` more bytes fit or nothing is left. */
    method Evict(size: nat)
      requires Valid()
      modifies this
      ensures Consistent(chunks, order, bytes) && (bytes + size <= max || order == [])
      ensures order == [] ==> bytes == 0
      ensures InOrder(old(chunks), old(order)) && order == Fitting(old(chunks), old(order), size, max)
      ensures forall k :: k in chunks ==> k in old(chunks) && chunks[k] == old(chunks)[k]
    {
      hide Consistent, Fitting, InOrder;
      KeysInOrder(chunks, order, bytes);
      while bytes + size > max && order != []
        invariant Consistent(chunks, order, bytes)
        invariant forall k :: k in chunks ==> k in old(chunks) && chunks[k] == old(chunks)[k]
        invariant InOrder(old(chunks), order) &&
                  Fitting(old(chunks), order, size, max) == Fitting(old(chunks), old(order), size, max)
        decreases |order|
      {
        EvictConsistent(chunks, order, bytes);
        FittingStep(old(chunks), chunks, order, bytes, size, max);
        var evicted := order[0];
        bytes := bytes - |chunks[evicted]|;
        chunks := chunks - {evicted};
        order := order[1..];
      }
      FittingEnds(old(chunks), chunks, order, bytes, size, max);
    }
  }

  predicate InOrder(chunks: map<ChunkId, Bytes>, order: seq<ChunkId>) {
    forall x :: x in order ==> x in chunks
  }

  /** What eviction keeps: the most recently used entries that leave room. */
  function Fitting(chunks: map<ChunkId, Bytes>, order: seq<ChunkId>, size: nat, max: nat): seq<ChunkId>
    requires InOrder(chunks, order)
  {
    if order == [] || Total(chunks, order) + size <= max then order else Fitting(chunks, order[1..], size, max)
  }

  /** It is the longest such end of the access order: nothing is evicted needlessly. */
  lemma {:induction false} FittingIsLongest(chunks: map<ChunkId, Bytes>, order: seq<ChunkId>, size: nat, max: nat,
                                            d: nat)
    requires InOrder(chunks, order) && d <= |order|
    ensures var kept := Fitting(chunks, order, size, max);
            && |kept| <= |order| && kept == order[|order| - |kept|..]
            && InOrder(chunks, order[d..])
            && (|order[d..]| > |kept| ==> Total(chunks, order[d..]) + size > max)
  {
    if order != [] && Total(chunks, order) + size > max {
      if d == 0 {
        FittingIsLongest(chunks, order[1..], size, max, 0);
      } else {
        FittingIsLongest(chunks, order[1..], size, max, d - 1);
        assert order[1..][d - 1..] == order[d..];
      }
    }
  }

  lemma KeysInOrder(chunks: map<ChunkId, Bytes>, order: seq<ChunkId>, bytes: nat)
    requires Consistent(chunks, order, bytes)
    ensures InOrder(chunks, order)
  {
  }

  lemma FittingStep(all: map<ChunkId, Bytes>, chunks: map<ChunkId, Bytes>, order: seq<ChunkId>, bytes: nat, size: nat,
                    max: nat)
    requires Consistent(chunks, order, bytes) && order != [] && bytes + size > max
    requires forall k :: k in chunks ==> k in all && chunks[k] == all[k]
    ensures InOrder(all, order) && InOrder(all, order[1..]) &&
            Fitting(all, order, size, max) == Fitting(all, order[1..], size, max)
  {
    TotalSame(all, chunks, order);
  }

  lemma FittingEnds(all: map<ChunkId, Bytes>, chunks: map<ChunkId, Bytes>, order: seq<ChunkId>, bytes: nat, size: nat,
                    max: nat)
    requires Consistent(chunks, order, bytes) && (bytes + size <= max || order == [])
    requires forall k :: k in chunks ==> k in all && chunks[k] == all[k]
    ensures InOrder(all, order) && Fitting(all, order, size, max) == order && (order == [] ==> bytes == 0)
  {
    TotalSame(all, chunks, order);
  }

  // ---------------------------------------------------------------- ranged reads

  predicate AllPresent(store: map<ChunkId, Bytes>, ids: seq<ChunkId>) {
    forall i :: 0 <= i < |ids| ==> ids[i] in store
  }

  /** The file a chunk list spells in a store. */
  function Content(store: map<ChunkId, Bytes>, ids: seq<ChunkId>): Bytes
    requires AllPresent(store, ids)
  {
    if ids == [] then [] else Content(store, ids[..|ids| - 1]) + store[ids[|ids| - 1]]
  }

  lemma {:induction false} ContentPrefix(store: map<ChunkId, Bytes>, ids: seq<ChunkId>, k: nat)
    requires k <= |ids| && AllPresent(store, ids)
    ensures Content(store, ids[..k]) <= Content(store, ids)
  {
    if k == |ids| {
      assert ids[..k] == ids;
    } else {
      assert ids[..|ids| - 1][..k] == ids[..k];
      ContentPrefix(store, ids[..|ids| - 1], k);
    }
  }

  /** `[from, to)` of `whole`, cut back to what exists. */
  function Slice(whole: Bytes, from: nat, to: nat): Bytes {
    whole[Min(from, Min(to, |whole|))..Min(to, |whole|)]
  }

  /** The part of a chunk at offset `at` that the slice `[from, to)` needs. */
  function Part(chunk: Bytes, at: nat, from: nat, to: nat): Bytes
    requires at < to
  {
    var start := if from > at then from - at else 0;
    var stop := if to < at + |chunk| then to - at else |chunk|;
    if start < stop then chunk[start..stop] else []
  }

  /** Extending the walked prefix by a chunk extends the slice by that chunk's part. */
  lemma SliceNext(done: Bytes, chunk: Bytes, from: nat, to: nat)
    requires |done| < to && from < to
    ensures Slice(done + chunk, from, to) == Slice(done, from, to) + Part(chunk, |done|, from, to)
  {
  }

  datatype Result = Ok(bytes: Bytes) | NotFound(id: ChunkId) | Unreadable(id: ChunkId)

  /** Cached bytes are the stored ones. */
  /** Nothing enters a cache but what the store holds. */
  predicate FromStore(before: map<ChunkId, Bytes>, after: map<ChunkId, Bytes>, store: map<ChunkId, Bytes>) {
    forall id :: id in after ==> (id in before && after[id] == before[id]) || (id in store && after[id] == store[id])
  }

  predicate Coherent(cached: map<ChunkId, Bytes>, store: map<ChunkId, Bytes>) {
    forall id :: id in cached && id in store ==> cached[id] == store[id]
  }

  lemma MissingChunk(store: map<ChunkId, Bytes>, ids: seq<ChunkId>, k: nat)
    requires k < |ids| && ids[k] !in store
    ensures !AllPresent(store, ids)
  {
  }

  lemma NoContent(store: map<ChunkId, Bytes>, ids: seq<ChunkId>)
    ensures AllPresent(store, ids[..0]) && Content(store, ids[..0]) == []
  {
  }

  lemma PrefixGrows(store: map<ChunkId, Bytes>, ids: seq<ChunkId>, k: nat)
    requires k < |ids| && AllPresent(store, ids[..k]) && ids[k] in store
    ensures AllPresent(store, ids[..k + 1])
    ensures Content(store, ids[..k + 1]) == Content(store, ids[..k]) + store[ids[k]]
  {
    assert ids[..k + 1] == ids[..k] + [ids[k]];
    assert ids[..k + 1][..k] == ids[..k];
  }

  /** `read_range`: the bytes from `offset` to `min(offset + size, total)`, whatever is cached. `store` is
      what the index lists, and `broken` the chunks of it that cannot be read. A chunk missing from the
      index is reported when the walk needs to pass it, a broken one when the range needs its bytes and
      they are not cached. */
  method ReadRange(cache: Cache, store: map<ChunkId, Bytes>, broken: set<ChunkId>, totalSize: nat, ids: seq<ChunkId>,
                   offset: nat, size: nat)
    returns (r: Result, ghost walked: nat)
    requires cache.Valid() && Coherent(cache.chunks, store)
    modifies cache
    ensures cache.Valid() && Coherent(cache.chunks, store) && FromStore(old(cache.chunks), cache.chunks, store)
    ensures AllPresent(store, ids) && totalSize == |Content(store, ids)| && NoneBroken(broken, ids) ==>
              r == Ok(Slice(Content(store, ids), offset, offset + size))
    ensures size == 0 || offset >= totalSize ==> r == Ok([])
    ensures size > 0 && offset < totalSize ==>
              Walked(store, broken, ids, walked, offset, offset + Min(size, totalSize - offset), r)
  {
    hide Content, Slice, Part, Consistent, Coherent, AllPresent;
    walked := 0;
    if size == 0 || offset >= totalSize {
      if AllPresent(store, ids) &&
          totalSize == |Content(store, ids)| { SliceOutside(Content(store, ids), offset, size); }
      return Ok([]), 0;
    }
    var end := offset + Min(size, totalSize - offset);
    var result, current, k := [], 0, 0;
    NoContent(store, ids);
    SliceOutside([], offset, end - offset);
    while k < |ids|
      invariant 0 <= k <= |ids| && cache.Valid() && Coherent(cache.chunks, store)
      invariant FromStore(old(cache.chunks), cache.chunks, store)
      invariant AllPresent(store, ids[..k])
      invariant current == |Content(store, ids[..k])| && current < end
      invariant result == Slice(Content(store, ids[..k]), offset, end)
    {
      if ids[k] !in store {
        assert !AllPresent(store, ids) by { MissingChunk(store, ids, k); }
        return NotFound(ids[k]), k;
      }
      PrefixGrows(store, ids, k);
      SliceNext(Content(store, ids[..k]), store[ids[k]], offset, end);
      var part := ReadPart(cache, store, broken, ids[k], current, offset, end);
      if part.None? { return Unreadable(ids[k]), k; }
      result := result + part.value;
      current := current + |store[ids[k]]|;
      k := k + 1;
      if current >= end { break; }
    }
    if AllPresent(store, ids) && totalSize == |Content(store, ids)| {
      RangeIsRead(store, ids, k, current, offset, size, end);
    }
    return Ok(result), k;
  }

  predicate NoneBroken(broken: set<ChunkId>, ids: seq<ChunkId>) {
    forall id :: id in ids ==> id !in broken
  }

  /** The walk passed the chunks before `walked`, all present, and no further than the range needs: it
      ended behind the range or behind the last chunk, or met a missing chunk before that. */
  ghost predicate Walked(store: map<ChunkId, Bytes>, broken: set<ChunkId>, ids: seq<ChunkId>, walked: nat,
                         offset: nat, end: nat, r: Result) {
    && walked <= |ids| && AllPresent(store, ids[..walked])
    && var passed := Content(store, ids[..walked]);
    match r
    case Ok(bytes) => bytes == Slice(passed, offset, end) && (walked == |ids| || |passed| >= end)
    case NotFound(id) => walked < |ids| && id == ids[walked] && id !in store && |passed| < end
    case Unreadable(id) =>
      walked < |ids| && id == ids[walked] && id in broken && id in store && |passed| < end &&
          offset < |passed| + |store[id]|
  }

  /** One round of the walk: fetch the chunk if it intersects, and take its slice. */
  method ReadPart(cache: Cache, store: map<ChunkId, Bytes>, broken: set<ChunkId>, id: ChunkId, current: nat,
                  offset: nat, end: nat)
    returns (part: Option<Bytes>)
    requires cache.Valid() && id in store && Coherent(cache.chunks, store) && current < end
    modifies cache
    ensures cache.Valid() && Coherent(cache.chunks, store) && FromStore(old(cache.chunks), cache.chunks, store)
    ensures part.None? <==> id in broken && id !in old(cache.chunks) && offset < current + |store[id]|
    ensures part.Some? ==> part.value == Part(store[id], current, offset, end)
  {
    hide Consistent, Coherent;
    part := Some([]);
    var chunkEnd := current + |store[id]|;
    if chunkEnd > offset && current < end {
      var fetched := Fetch(cache, store, broken, id);
      if fetched.None? { return None; }
      var data := fetched.value;
      var start := if offset > current then offset - current else 0;
      var stop := if end < chunkEnd then end - current else |data|;
      if start < |data| && stop <= |data| && start < stop {
        part := Some(data[start..stop]);
      }
    }
  }

  lemma SliceOutside(whole: Bytes, offset: nat, size: nat)
    requires size == 0 || offset >= |whole|
    ensures Slice(whole, offset, offset + size) == []
  {
  }

  /** The walk stops early only behind the end of the range. */
  lemma RangeIsRead(store: map<ChunkId, Bytes>, ids: seq<ChunkId>, k: nat, current: nat, offset: nat, size: nat,
                    end: nat)
    requires AllPresent(store, ids) && k <= |ids| && current == |Content(store, ids[..k])|
    requires k == |ids| || current >= end
    requires var total := |Content(store, ids)|; offset < total && end == offset + Min(size, total - offset)
    ensures Slice(Content(store, ids[..k]), offset, end) == Slice(Content(store, ids), offset, offset + size)
  {
    ContentPrefix(store, ids, k);
    if k == |ids| { assert ids[..k] == ids; }
  }

  /** Cached bytes if present, otherwise read from the store and cache; a broken chunk cannot be read. */
  method Fetch(cache: Cache, store: map<ChunkId, Bytes>, broken: set<ChunkId>, id: ChunkId) returns
               (data: Option<Bytes>)
    requires cache.Valid() && id in store && Coherent(cache.chunks, store)
    modifies cache
    ensures cache.Valid() && Coherent(cache.chunks, store) && FromStore(old(cache.chunks), cache.chunks, store)
    ensures data.None? <==> id in broken && id !in old(cache.chunks)
    ensures data.Some? ==> data.value == store[id]
  {
    var cached := cache.Get(id);
    if cached.Some? { return cached; }
    if id in broken { return None; }
    var bytes := cache.Insert(id, store[id]);
    return Some(bytes);
  }
}
