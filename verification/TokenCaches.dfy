/**
 * Two caches in front of outside calls: the identity tokens of the edge worker, whose calls,
 * completions and failures interleave, and the client documents of the authorization server.
 */
module TokenCaches {
  import opened Wrappers

  // ---- Identity tokens ----

  /** The service account key and the audience of a call. */
  datatype Pair = Pair(credentials: string, audience: string)

  /** A token as issued; issuing checks that it is for the audience asked. */
  datatype Token = Token(issuedFor: Pair, serial: nat, expiresAt: int)

  datatype Caller = Waiting(pair: Pair, request: nat) | Answered(pair: Pair, token: Token) | Rejected(pair: Pair)

  datatype Provider = Provider(
    cached: Option<Token>,
    pending: Option<nat>,
    current: Option<Pair>,            // `credentials` and `audience`
    requests: map<nat, Pair>,         // started and not settled
    nextRequest: nat,
    callers: map<nat, Caller>,
    started: seq<Pair>                // history: the pair of every request, by number
  )

  datatype Step =
    | Call(caller: nat, pair: Pair, now: int)
    | Settle(request: nat, token: Token, now: int)
    | Fail(request: nat)

  const MARGIN := 60

  /** A token is handed out only with more than a minute left. */
  predicate Lasting(token: Token, now: int)
  {
    token.expiresAt > now + MARGIN
  }

  predicate Enabled(s: Provider, step: Step)
  {
    match step
    case Call(caller, _, _) => caller !in s.callers
    case Settle(request, token, now) =>
      request in s.requests && token.issuedFor == s.requests[request] && Lasting(token, now)
    case Fail(request) => request in s.requests
  }

  /** A change of key or audience forgets the token and the pending request. */
  function Switched(s: Provider, pair: Pair): Provider
  {
    if s.current == Some(pair) then s else s.(current := Some(pair), cached := None, pending := None)
  }

  function Started(s: Provider, pair: Pair): Provider
  {
    if s.pending.Some? then s
    else s.(pending := Some(s.nextRequest), requests := s.requests[s.nextRequest := pair],
            nextRequest := s.nextRequest + 1, started := s.started + [pair])
  }

  function AfterCall(s: Provider, caller: nat, pair: Pair, now: int): Provider
  {
    var s1 := Switched(s, pair);
    if s1.cached.Some? && Lasting(s1.cached.value, now)
    then s1.(callers := s1.callers[caller := Answered(pair, s1.cached.value)])
    else
      var s2 := Started(s1, pair);
      s2.(callers := s2.callers[caller := Waiting(pair, s2.pending.value)])
  }

  function Delivered(callers: map<nat, Caller>, request: nat, token: Option<Token>): map<nat, Caller>
  {
    map c | c in callers ::
      if callers[c].Waiting? && callers[c].request == request then
        if token.Some? then Answered(callers[c].pair, token.value) else Rejected(callers[c].pair)
      else callers[c]
  }

  function After(s: Provider, step: Step): Provider
    requires Enabled(s, step)
  {
    match step
    case Call(caller, pair, now) => AfterCall(s, caller, pair, now)
    case Settle(request, token, _) =>
      s.(requests := s.requests - {request}, callers := Delivered(s.callers, request, Some(token)),
         cached := if s.pending == Some(request) then Some(token) else s.cached,
         pending := if s.pending == Some(request) then None else s.pending)
    case Fail(request) =>
      s.(requests := s.requests - {request}, callers := Delivered(s.callers, request, None),
         pending := if s.pending == Some(request) then None else s.pending)
  }

  predicate Init(s: Provider)
  {
    s == Provider(None, None, None, map[], 0, map[], [])
  }

  ghost predicate Takes(s: Provider, step: Step, s': Provider)
  {
    Enabled(s, step) && s' == After(s, step)
  }

  ghost predicate Reached(s: Provider, n: nat)
    decreases n
  {
    if n == 0 then Init(s)
    else exists before, step :: Reached(before, n - 1) && Takes(before, step, s)
  }

  ghost predicate CallerSound(s: Provider, c: Caller)
  {
    match c
    case Waiting(pair, request) => request in s.requests && s.requests[request] == pair
    case Answered(pair, token) => token.issuedFor == pair
    case Rejected(_) => true
  }

  ghost predicate Inv(s: Provider)
  {
    && (s.cached.Some? ==> s.current == Some(s.cached.value.issuedFor))
    && (s.pending.Some? ==> s.pending.value in s.requests && s.current == Some(s.requests[s.pending.value]))
    && |s.started| == s.nextRequest
    && (forall r :: r in s.requests ==> r < s.nextRequest && s.started[r] == s.requests[r])
    && (forall c :: c in s.callers ==> CallerSound(s, s.callers[c]))
  }

  lemma SwitchKeepsInv(s: Provider, pair: Pair)
    requires Inv(s)
    ensures Inv(Switched(s, pair)) && Switched(s, pair).current == Some(pair)
    ensures Switched(s, pair).callers == s.callers
  {
  }

  lemma StartKeepsInv(s: Provider, pair: Pair)
    requires Inv(s) && s.current == Some(pair)
    ensures var s' := Started(s, pair); Inv(s') && s'.pending.Some? && s'.requests[s'.pending.value] == pair
  {
    var s' := Started(s, pair);
    forall c | c in s'.callers
      ensures CallerSound(s', s'.callers[c])
    {
      assert CallerSound(s, s.callers[c]);
    }
  }

  lemma AnswerKeepsInv(s: Provider, caller: nat, c: Caller)
    requires Inv(s) && CallerSound(s, c)
    ensures Inv(s.(callers := s.callers[caller := c]))
  {
    var s' := s.(callers := s.callers[caller := c]);
    forall d | d in s'.callers
      ensures CallerSound(s', s'.callers[d])
    {
      assert d != caller ==> CallerSound(s, s.callers[d]);
    }
  }

  lemma CallKeepsInv(s: Provider, caller: nat, pair: Pair, now: int)
    requires Inv(s) && caller !in s.callers
    ensures Inv(AfterCall(s, caller, pair, now))
  {
    var s1 := Switched(s, pair);
    SwitchKeepsInv(s, pair);
    StartKeepsInv(s1, pair);
    var s2 := Started(s1, pair);
    if s1.cached.Some? {
      AnswerKeepsInv(s1, caller, Answered(pair, s1.cached.value));
    }
    AnswerKeepsInv(s2, caller, Waiting(pair, s2.pending.value));
    hide Inv, Switched, Started;
  }

  /** Settling or failing a request answers exactly its own callers. */
  lemma EndKeepsCallers(s: Provider, s': Provider, request: nat, token: Option<Token>)
    requires Inv(s) && request in s.requests && (token.Some? ==> token.value.issuedFor == s.requests[request])
    requires s'.requests == s.requests - {request} && s'.callers == Delivered(s.callers, request, token)
    ensures forall c :: c in s'.callers ==> CallerSound(s', s'.callers[c])
  {
    forall c | c in s'.callers
      ensures CallerSound(s', s'.callers[c])
    {
      assert CallerSound(s, s.callers[c]);
    }
  }

  lemma StepKeepsInv(s: Provider, step: Step)
    requires Inv(s) && Enabled(s, step)
    ensures Inv(After(s, step))
  {
    match step
    case Call(caller, pair, now) => CallKeepsInv(s, caller, pair, now);
    case Settle(request, token, _) =>
      EndKeepsCallers(s, After(s, step), request, Some(token));
      hide CallerSound, Delivered;
    case Fail(request) =>
      EndKeepsCallers(s, After(s, step), request, None);
      hide CallerSound, Delivered;
  }

  lemma {:induction false} ReachedInv(s: Provider, n: nat)
    requires Reached(s, n)
    ensures Inv(s)
    decreases n
  {
    hide Inv, Enabled, After;
    if n == 0 {
      InitIsInv(s);
    } else {
      var before, step :| Reached(before, n - 1) && Takes(before, step, s);
      ReachedInv(before, n - 1);
      StepKeepsInv(before, step);
    }
  }

  lemma InitIsInv(s: Provider)
    requires Init(s)
    ensures Inv(s)
  {
  }

  /**
   * Under any interleaving every answered caller has a token for its own key and audience, every
   * waiting one waits for such a request, and the cache holds a token for the current pair only.
   */
  lemma TokensMatchCallers(s: Provider, n: nat)
    requires Reached(s, n)
    ensures forall c :: c in s.callers && s.callers[c].Answered? ==> s.callers[c].token.issuedFor == s.callers[c].pair
    ensures forall c :: c in s.callers && s.callers[c].Waiting? ==>
              s.callers[c].request in s.requests && s.requests[s.callers[c].request] == s.callers[c].pair
    ensures s.cached.Some? ==> s.current == Some(s.cached.value.issuedFor)
  {
    ReachedInv(s, n);
    forall c | c in s.callers
      ensures CallerSound(s, s.callers[c])
    {
    }
  }

  /**
   * A call starts a request exactly when its pair is new, or there is neither a lasting token nor
   * a request under way: simultaneous calls for one pair share one request.
   */
  lemma CallsShareRequests(s: Provider, caller: nat, pair: Pair, now: int)
    requires Inv(s) && Enabled(s, Call(caller, pair, now))
    ensures After(s, Call(caller, pair, now)).nextRequest > s.nextRequest <==>
            !(s.current == Some(pair) && (s.pending.Some? || (s.cached.Some? && s.cached.value.expiresAt > now + 60)))
  {
  }

  /**
   * A call is answered at once from the cache exactly when it is for the current pair and the cached
   * token lasts more than a minute; otherwise it waits for a request for its own pair.
   */
  lemma CallsAreServed(s: Provider, caller: nat, pair: Pair, now: int)
    requires Inv(s) && Enabled(s, Call(caller, pair, now))
    ensures var c := After(s, Call(caller, pair, now)).callers[caller];
            if s.current == Some(pair) && s.cached.Some? && s.cached.value.expiresAt > now + 60
            then c == Answered(pair, s.cached.value)
            else c.Waiting? && c.pair == pair && After(s, Call(caller, pair, now)).requests[c.request] == pair
  {
    var s1 := Switched(s, pair);
    SwitchKeepsInv(s, pair);
    StartKeepsInv(s1, pair);
  }

  /** What a request brought is cached if it was the current one, and handed to all who waited for it. */
  lemma SettledIsShared(s: Provider, request: nat, token: Token, now: int, caller: nat)
    requires Inv(s) && Enabled(s, Settle(request, token, now)) && caller in s.callers
    ensures var s' := After(s, Settle(request, token, now));
            && s'.current == s.current
            && (s.pending == Some(request) ==> s'.cached == Some(token) && s'.pending == None)
            && s'.callers[caller] == if s.callers[caller].Waiting? && s.callers[caller].request == request
                                     then Answered(s.callers[caller].pair, token) else s.callers[caller]
  {
  }

  // ---- Client documents ----

  const MAX_CACHED := 256
  const DOCUMENT_TTL := 300

  datatype Client = Client(id: string, redirects: seq<string>)

  datatype Entry = Entry(client: Client, expires: int)

  datatype Error = UnknownClient | FetchFailed | BadDocument

  /** What is still valid at `now`. */
  function Unexpired(cache: map<string, Entry>, now: int): map<string, Entry>
  {
    map id | id in cache && now < cache[id].expires :: cache[id]
  }

  predicate Https(id: string)
  {
    "https://" <= id
  }

  class ClientResolver {
    const statics: map<string, Client>
    var cache: map<string, Entry>
    ghost var learned: map<string, int>      // when each document was last remembered

    /** Entries sit under their own id, expire five minutes after they were learned, and are at most 256. */
    ghost predicate Valid()
      reads this
    {
      && |cache| <= MAX_CACHED
      && forall id :: id in cache ==>
           cache[id].client.id == id && id in learned && cache[id].expires == learned[id] + DOCUMENT_TTL
    }

    constructor (statics: map<string, Client>)
      ensures Valid() && this.statics == statics && cache == map[]
    {
      this.statics := statics;
      cache := map[];
      learned := map[];
    }

    /** An expired entry is dropped on the way. */
    method Cached(id: string, now: int) returns (found: Option<Client>)
      requires Valid()
      modifies this`cache
      ensures Valid()
      ensures found == if id in old(cache) && now < old(cache)[id].expires then Some(old(cache)[id].client) else None
      ensures cache == if found.Some? then old(cache) else old(cache) - {id}
    {
      if id !in cache || cache[id].expires <= now {
        cache := cache - {id};
        return None;
      }
      return Some(cache[id].client);
    }

    method DropExpired(now: int)
      requires Valid()
      modifies this`cache
      ensures Valid() && cache == Unexpired(old(cache), now)
    {
      ghost var before := cache;
      var todo := cache.Keys;
      while todo != {}
        invariant Valid() && todo <= cache.Keys <= before.Keys
        invariant forall id :: id in before ==> (id in cache <==> id in todo || now < before[id].expires)
        invariant forall id :: id in cache ==> cache[id] == before[id]
        decreases |todo|
      {
        var id :| id in todo;
        todo := todo - {id};
        if cache[id].expires <= now {
          RemovalShrinks(cache, id);
          cache := cache - {id};
        }
      }
    }

    /** A full cache makes room by dropping what has expired, and remembers nothing if that is not enough. */
    method Remember(client: Client, now: int)
      requires Valid()
      modifies this`cache, this`learned
      ensures Valid()
      ensures forall id :: id in cache && id != client.id ==> id in old(cache) && cache[id] == old(cache)[id]
      ensures forall id :: id in old(cache) && id != client.id && now < old(cache)[id].expires ==> id in cache
      ensures client.id in cache ==> cache[client.id] == Entry(client, now + 300) ||
                                     (client.id in old(cache) && cache[client.id] == old(cache)[client.id])
      ensures var kept := map id | id in old(cache) && now < old(cache)[id].expires :: old(cache)[id];
              var left := if |old(cache)| < 256 then old(cache) else kept;
              cache == if |left| < 256 then left[client.id := Entry(client, now + 300)] else left
    {
      if |cache| >= MAX_CACHED {
        DropExpired(now);
      }
      if |cache| >= MAX_CACHED {
        return;
      }
      learned := learned[client.id := now];
      AdditionGrows(cache, client.id, Entry(client, now + DOCUMENT_TTL));
      cache := cache[client.id := Entry(client, now + DOCUMENT_TTL)];
    }

    /**
     * A static client first, then only https ids, then the cache, then the document. `fetched` is
     * what fetching gives, and `parsed` what its document says, both decided by the outside.
     */
    method Resolve(id: string, now: int, fetched: bool, parsed: Option<Client>) returns (r: Result<Client, Error>)
      requires Valid()
      requires parsed.Some? ==> parsed.value.id == id
      modifies this`cache, this`learned
      ensures Valid()
      ensures id in statics ==> r == Ok(statics[id]) && cache == old(cache)
      ensures id !in statics && !("https://" <= id) ==> r == Err(UnknownClient) && cache == old(cache)
      ensures id !in statics && "https://" <= id ==>
                r == if id in old(cache) && now < old(cache)[id].expires then Ok(old(cache)[id].client)
                     else if !fetched then Err(FetchFailed)
                     else if parsed.None? then Err(BadDocument) else Ok(parsed.value)
      ensures r.Ok? && id !in statics ==> r.value.id == id
      ensures r.Ok? && id !in statics && |old(cache)| < 256 ==>
                id in cache && cache[id].client == r.value
      ensures r.Ok? && id !in statics && !(id in old(cache) && now < old(cache)[id].expires) && |old(cache)| < 256 ==>
                cache[id].expires == now + 300
      ensures r.Ok? && id !in statics ==>
                (fetched && parsed == Some(r.value)) || (id in old(learned) && now < old(learned)[id] + 300)
    {
      if id in statics {
        return Ok(statics[id]);
      }
      if !Https(id) {
        return Err(UnknownClient);
      }
      var found := Cached(id, now);
      if found.Some? {
        return Ok(found.value);
      }
      if !fetched {
        return Err(FetchFailed);
      }
      if parsed.None? {
        return Err(BadDocument);
      }
      Remember(parsed.value, now);
      return Ok(parsed.value);
    }
  }

  lemma RemovalShrinks<K, V>(m: map<K, V>, k: K)
    requires k in m
    ensures |m - {k}| == |m| - 1
  {
  }

  lemma AdditionGrows<K, V>(m: map<K, V>, k: K, v: V)
    ensures |m[k := v]| <= |m| + 1
  {
  }
}
