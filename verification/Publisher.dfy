/** The publisher object as one uninterrupted call sees it. (Publishing interleaves its steps.) */
module Publisher {
  import opened Prelude
  import opened StatusList
  import opened BitmapStore
  import Publishing

  type Shard = string

  /** A signed token, as an opaque wrapper around version, lifetime, width and bytes. */
  datatype Token = Token(version: nat, ttl: int, bits: int, bytes: seq<bv8>)

  datatype Error = NoShard | BadBitmap

  /** The row of the list to publish. */
  datatype ListMeta = ListMeta(id: ListId, shard: Shard, size: nat, bits: int)

  /** What a call returns, from the cached token, the live version and the live bytes. */
  function Outcome(cached: Option<Token>, lm: ListMeta, version: nat, live: RedisString, ttl: int)
    : Result<Token, Error>
  {
    if cached.Some? && cached.value.version == version && cached.value.ttl == ttl then Ok(cached.value)
    else if !ValidBitWidth(lm.bits) then Err(BadBitmap)
    else Ok(Token(version, ttl, lm.bits, Padded(live, ByteLen(lm.size, lm.bits))))
  }

  class Publisher {
    const bitmapsByShard: map<Shard, Store>
    var cache: map<ListId, Token>

    constructor (bitmapsByShard: map<Shard, Store>)
      ensures this.bitmapsByShard == bitmapsByShard && cache == map[]
    {
      this.bitmapsByShard, cache := bitmapsByShard, map[];
    }

    function Cached(id: ListId): Option<Token>
      reads this
    {
      if id in cache then Some(cache[id]) else None
    }

    method Get(id: ListId) returns (r: Option<Token>)
      ensures r == Cached(id)
    {
      r := if id in cache then Some(cache[id]) else None;
    }

    /** Returns the cached token while version and lifetime match, otherwise a token of the live
        bytes, which it caches; a failure leaves the cache alone, as do other lists' calls. */
    method PublishIfStale(lm: ListMeta, ttl: int) returns (r: Result<Token, Error>)
      modifies this
      ensures lm.shard !in bitmapsByShard ==> r == Err(NoShard) && cache == old(cache)
      ensures lm.shard in bitmapsByShard ==>
        var store := bitmapsByShard[lm.shard];
        && r == Outcome(old(Cached(lm.id)), lm, store.VersionOf(lm.id), store.StringOf(lm.id), ttl)
        && cache == (if r.Ok? then old(cache)[lm.id := r.value] else old(cache))
        && (r.Ok? ==> r.value.version == store.VersionOf(lm.id) && r.value.ttl == ttl)
        && (r.Ok? && old(Cached(lm.id)) != Some(r.value) ==>
            r.value.bits == lm.bits && r.value.bytes == Padded(store.StringOf(lm.id), ByteLen(lm.size, lm.bits)))
        && (r.Err? ==> !ValidBitWidth(lm.bits))
    {
      if lm.shard !in bitmapsByShard {
        return Err(NoShard);
      }
      var bitmaps := bitmapsByShard[lm.shard];
      var liveVersion := bitmaps.Version(lm.id);
      if lm.id in cache && cache[lm.id].version == liveVersion && cache[lm.id].ttl == ttl {
        assert cache == cache[lm.id := cache[lm.id]];
        return Ok(cache[lm.id]);
      }
      if !ValidBitWidth(lm.bits) {
        return Err(BadBitmap);
      }
      var raw := bitmaps.Snapshot(lm.id, ByteLen(lm.size, lm.bits));
      var pub := Token(liveVersion, ttl, lm.bits, raw);
      cache := cache[lm.id := pub];
      return Ok(pub);
    }
  }

  /** The machine's view of a token. */
  function AsToken(t: Publishing.Published, bits: int): Token {
    Token(t.version, t.ttl, bits, t.bytes)
  }

  /** The machine after the first three steps of a call: the version is read, the cache consulted. */
  function Looked(s: Publishing.State, c: nat, p: nat, ttl: int, l: Publishing.List): Publishing.State
    requires Fits(l.size, l.bits)
  {
    var s1 := Publishing.Step(s, Publishing.Begin(c, p, ttl), l);
    var s2 := Publishing.Step(s1, Publishing.ReadVersion(c), l);
    Publishing.Step(s2, Publishing.ReadCache(c), l)
  }

  lemma LookedUp(s: Publishing.State, c: nat, p: nat, ttl: int, l: Publishing.List)
    requires Fits(l.size, l.bits) && c !in s.calls
    ensures var call := Publishing.Call(p, ttl, s.numbers.Keys, s.purges, Publishing.Begun);
      var phase :=
        if Publishing.Hit(s, call, s.version) then Publishing.Returned(s.caches[p], true)
        else Publishing.Missed(s.version);
      Looked(s, c, p, ttl, l) == s.(calls := s.calls[c := call.(phase := phase)])
  {
  }

  /** A publish call whose steps nothing interrupts takes the machine exactly where the method
      takes the object. */
  lemma UninterruptedCall(s: Publishing.State, c: nat, p: nat, lm: ListMeta, ttl: int)
    requires Fits(lm.size, lm.bits) && c !in s.calls
    ensures var l := Publishing.List(lm.size, lm.bits);
      var s4 := Publishing.Step(Looked(s, c, p, ttl, l), Publishing.ReadBytes(c), l);
      var s5 := Publishing.Step(s4, Publishing.Store(c), l);
      var cached := if p in s.caches then Some(AsToken(s.caches[p], lm.bits)) else None;
      && s5.calls[c].phase.Returned?
      && Outcome(cached, lm, s.version, s.bitmap, ttl) == Ok(AsToken(s5.calls[c].phase.token, lm.bits))
      && s5.caches == s.caches[p := s5.calls[c].phase.token]
      && s5.bitmap == s.bitmap && s5.version == s.version
  {
    LookedUp(s, c, p, ttl, Publishing.List(lm.size, lm.bits));
    if p in s.caches {
      assert s.caches == s.caches[p := s.caches[p]];
    }
  }
}
