/**
 * `generate_embedding_openrouter`: an embedding provider behind a key-value
 * cache. The cache is keyed by `"embed:"` and the text's digest and keeps
 * an entry for one hour; the provider is asked only on a miss.
 */
module Embedding {
  import opened Wrappers

  /** An embedding; its float components are left abstract. */
  type Vector = seq<real>

  /** The expiry `setex` gives a cached embedding, in seconds. */
  const CacheTtl := 3600
  const KeyPrefix := "embed:"

  /**
   * The cache as one call finds it: there is no client (`redis_client` is
   * None), or the client's server answers, or it does not, so that the
   * command raises. The client connects per command, so whether the server
   * answers is a property of the moment of the call, not of startup.
   */
  datatype CacheLink = NoClient | Connected | Unreachable

  /** The link a call sees, given whether startup left a client and whether the server answers now. */
  function LinkAt(hasClient: bool, answers: bool): (link: CacheLink)
    ensures link == NoClient <==> !hasClient
    ensures link == Connected <==> hasClient && answers
    ensures link == Unreachable <==> hasClient && !answers
  {
    if !hasClient then NoClient else if answers then Connected else Unreachable
  }

  /** A cached embedding and the second at which it expires. */
  datatype CacheEntry = CacheEntry(value: Vector, expiresAt: int)

  type Cache = map<string, CacheEntry>

  /** `f"embed:{md5(text).hexdigest()}"`, with the digest left abstract. */
  function CacheKey(digest: string -> string, text: string): (key: string)
    ensures |key| == |KeyPrefix| + |digest(text)|
    ensures key[..|KeyPrefix|] == KeyPrefix && key[|KeyPrefix|..] == digest(text)
  {
    KeyPrefix + digest(text)
  }

  /** Two texts share a cache entry exactly when their digests agree. */
  lemma SharedKeyIffSameDigest(digest: string -> string, a: string, b: string)
    ensures CacheKey(digest, a) == CacheKey(digest, b) <==> digest(a) == digest(b)
  {
  }

  /** `redis_client.get(key)` answers with a value at time `now`: the key is present and not yet expired. */
  predicate IsHit(cache: Cache, key: string, now: int) {
    key in cache && now < cache[key].expiresAt
  }

  /** How one call ends: its result, the cache afterwards, and whether the provider was asked. */
  datatype Outcome = Outcome(result: Result<Vector>, cache: Cache, called: bool)

  /**
   * One call for the text whose key is `key`, at time `now`, given the reply
   * the provider would send. An unreachable cache makes `get` raise, which
   * ends as 500 before the provider is asked; a hit is returned as cached;
   * otherwise the provider is asked, and a success is stored for an hour
   * when there is a cache.
   */
  function EmbedOutcome(link: CacheLink, cache: Cache, key: string, now: int, reply: ProviderReply<Vector>): (o: Outcome)
    ensures o.called <==> link == NoClient || (link == Connected && !IsHit(cache, key, now))
    ensures o.result.Success? ==>
      || (!o.called && IsHit(cache, key, now) && o.result.value == cache[key].value)
      || (o.called && reply == Replied(Ok, Some(o.result.value)))
    ensures o.cache == cache || (link == Connected && o.result.Success? && o.cache == cache[key := CacheEntry(o.result.value, now + CacheTtl)])
  {
    match link
    case Unreachable => Outcome(Failure(InternalError), cache, false)
    case Connected =>
      if IsHit(cache, key, now) then Outcome(Success(cache[key].value), cache, false)
      else
        var r := FromProvider(reply);
        Outcome(r, if r.Success? then cache[key := CacheEntry(r.value, now + CacheTtl)] else cache, true)
    case NoClient => Outcome(FromProvider(reply), cache, true)
  }

  /** A cache server that does not answer makes `get` raise: 500, no provider call, nothing stored, hit or not. */
  lemma UnreachableFails(cache: Cache, key: string, now: int, reply: ProviderReply<Vector>)
    ensures EmbedOutcome(Unreachable, cache, key, now, reply) == Outcome(Failure(InternalError), cache, false)
  {
  }

  /** With a cache, a hit is answered from it: no provider call, nothing stored. */
  lemma HitSkipsProvider(cache: Cache, key: string, now: int, reply: ProviderReply<Vector>)
    requires IsHit(cache, key, now)
    ensures var o := EmbedOutcome(Connected, cache, key, now, reply);
      !o.called && o.result == Success(cache[key].value) && o.cache == cache
  {
  }

  /**
   * With a cache, a miss asks the provider; a successful answer is then
   * cached under the key, for the next hour, and no other entry changes.
   */
  lemma MissAsksProviderAndStores(cache: Cache, key: string, now: int, reply: ProviderReply<Vector>, later: int)
    requires !IsHit(cache, key, now)
    requires now <= later < now + CacheTtl
    ensures var o := EmbedOutcome(Connected, cache, key, now, reply);
      && o.called && o.result == FromProvider(reply)
      && (o.result.Success? ==> IsHit(o.cache, key, later) && o.cache[key].value == o.result.value)
      && (forall k :: k != key ==> (k in o.cache <==> k in cache))
      && (forall k :: k != key && k in cache ==> o.cache[k] == cache[k])
  {
  }

  /** Without a cache client every call goes to the provider and nothing is cached. */
  lemma NoClientAlwaysAsks(cache: Cache, key: string, now: int, reply: ProviderReply<Vector>)
    ensures var o := EmbedOutcome(NoClient, cache, key, now, reply);
      o.called && o.result == FromProvider(reply) && o.cache == cache
  {
  }

  /**
   * The statuses a call can fail with: 504 exactly when the provider was
   * asked and timed out; every other failure, a non-200 reply included, is 500.
   */
  lemma FailureStatus(link: CacheLink, cache: Cache, key: string, now: int, reply: ProviderReply<Vector>)
    ensures var o := EmbedOutcome(link, cache, key, now, reply);
      && (o.result.Failure? ==> o.result.status == InternalError || o.result.status == GatewayTimeout)
      && (o.result.Failure? && o.result.status == GatewayTimeout <==> o.called && reply.TimedOut?)
      && (reply.Replied? && reply.code != Ok && o.called ==> o.result == Failure(InternalError))
  {
  }

  /**
   * A text the provider embedded successfully is not sent again within the
   * hour: the second call is a hit that returns the same vector.
   */
  lemma RepeatWithinTtlIsCached(cache: Cache, key: string, now: int, later: int,
                                first: ProviderReply<Vector>, second: ProviderReply<Vector>)
    requires now <= later < now + CacheTtl
    requires !IsHit(cache, key, now)
    requires EmbedOutcome(Connected, cache, key, now, first).result.Success?
    ensures var o1 := EmbedOutcome(Connected, cache, key, now, first);
      var o2 := EmbedOutcome(Connected, o1.cache, key, later, second);
      !o2.called && o2.result == o1.result && o2.cache == o1.cache
  {
    MissAsksProviderAndStores(cache, key, now, first, later);
  }

  /**
   * The embedding gateway: the digest and the provider it was configured
   * with, whether startup left a cache client, the cache's contents, and (as
   * a ghost log) the texts it has sent to the provider.
   */
  class Gateway {
    const digest: string -> string
    const provider: string -> ProviderReply<Vector>
    const hasClient: bool
    var cache: Cache
    ghost var calls: seq<string>

    constructor(digest: string -> string, provider: string -> ProviderReply<Vector>, hasClient: bool, cache: Cache)
      ensures this.digest == digest && this.provider == provider && this.hasClient == hasClient
      ensures this.cache == cache && calls == []
    {
      this.digest := digest;
      this.provider := provider;
      this.hasClient := hasClient;
      this.cache := cache;
      calls := [];
    }

    /** `generate_embedding_openrouter(text)` at time `now`; `answers` says whether the cache server answers then. */
    method Embed(text: string, now: int, answers: bool) returns (r: Result<Vector>)
      modifies this
      ensures var o := EmbedOutcome(LinkAt(hasClient, answers), old(cache), CacheKey(digest, text), now, provider(text));
        && r == o.result && cache == o.cache
        && calls == old(calls) + (if o.called then [text] else [])
    {
      var key := CacheKey(digest, text);
      if hasClient {
        if !answers {
          // `redis_client.get` raises; the generic handler re-raises as 500
          r := Failure(InternalError);
          return;
        }
        if IsHit(cache, key, now) {
          r := Success(cache[key].value);
          return;
        }
      }
      calls := calls + [text];
      r := FromProvider(provider(text));
      if r.Success? && hasClient {
        cache := cache[key := CacheEntry(r.value, now + CacheTtl)];
      }
    }
  }

  /**
   * A caller that embeds the same text twice within the hour, while the
   * cache answers, the first time successfully, sends it to the provider at
   * most once; when the first call was a miss, the second returns the same
   * vector.
   */
  method EmbedTwice(g: Gateway, text: string, now: int, later: int) returns (first: Result<Vector>, second: Result<Vector>)
    requires g.hasClient && now <= later < now + CacheTtl
    modifies g
    ensures first.Success? ==> |g.calls| <= |old(g.calls)| + 1
    ensures first.Success? && !IsHit(old(g.cache), CacheKey(g.digest, text), now) ==> second == first
  {
    ghost var key := CacheKey(g.digest, text);
    ghost var wasHit := IsHit(g.cache, key, now);
    first := g.Embed(text, now, true);
    if first.Success? && !wasHit {
      RepeatWithinTtlIsCached(old(g.cache), key, now, later, g.provider(text), g.provider(text));
    }
    second := g.Embed(text, later, true);
  }
}
