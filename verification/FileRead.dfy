/** Reading a range of a stored file: the engine's tables and chunks through the chunk cache. */
module FileRead {
  import opened Basics
  import opened Catalog
  import opened Engine
  import opened EngineSafety
  import ChunkCache

  /** Cached bytes are those their digest was taken of. */
  predicate Truthful(cached: map<Digest, Bytes>) {
    forall d :: d in cached ==> cached[d] == d.data
  }

  /** The file a manifest's chunks hold is what they spell. */
  lemma {:induction false} ContentIsSpell(written: map<Digest, Bytes>, chunks: seq<Digest>)
    requires Truthful(written) && ChunkCache.AllPresent(written, chunks)
    ensures ChunkCache.Content(written, chunks) == Spell(chunks)
  {
    if chunks != [] {
      var init, last := chunks[..|chunks| - 1], chunks[|chunks| - 1];
      ContentIsSpell(written, init);
      ChunkCache.PrefixGrows(written, chunks, |chunks| - 1);
      assert chunks[..|chunks| - 1 + 1] == chunks;
    }
  }

  /** `read_range` on a manifest that a version or a snapshot refers to: the bytes of the file itself, from
      `offset` to `min(offset + size, length)`, whatever is cached. The size a put recorded is the length. */
  method ReadFileRange(cache: ChunkCache.Cache, s: State, id: Digest, offset: nat, size: nat) returns (bytes: Bytes)
    requires Sound(s) && Referenced(s.tables, id)
    requires cache.Valid() && Truthful(cache.chunks)
    modifies cache
    ensures cache.Valid() && Truthful(cache.chunks)
    ensures bytes == ChunkCache.Slice(id.data, offset, offset + size)
  {
    hide Sound, ChunkCache.Consistent, Referenced;
    Readable(s, id);
    var m := s.tables.manifests[id];
    ContentIsSpell(s.written, m.chunks);
    var r, walked := ChunkCache.ReadRange(cache, s.written, {}, m.totalSize, m.chunks, offset, size);
    return r.bytes;
  }

  /** What a referenced manifest promises its readers. */
  lemma Readable(s: State, id: Digest)
    requires Sound(s) && Referenced(s.tables, id)
    ensures id in s.tables.manifests && Truthful(s.written)
    ensures var m := s.tables.manifests[id];
            && ChunkCache.AllPresent(s.written, m.chunks)
            && m.totalSize == |id.data| && Spell(m.chunks) == id.data
  {
    ReferencedIsBacked(s.tables, s.durable, id);
  }
}
