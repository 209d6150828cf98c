/**
 The idempotency side of the middleware: what every claim and every stored response keeps, for any
 number of requests in any order. Requests enter only through the grants they hold.
 */
module PipelineKeys {
  import opened Common
  import opened Pipeline
  import Idem = Idempotency

  /** A live entry either holds a response or is in flight. */
  predicate Occupied(e: Idem.Entry) {
    e.value != [] || e.inFlight
  }

  /** Grant i: when it was given, and that its key stays taken until its TTL is over. */
  predicate GrantOk(k: Keys, start: int, now: int, ttl: int, i: nat)
    requires i < |k.grants|
  {
    var g := k.grants[i];
    && g.key != "" && start <= g.at <= now
    && g.key in k.entries && k.entries[g.key].expiresAt >= g.at + ttl
    && g.key in k.holder && i <= k.holder[g.key]
  }

  predicate HolderOk(k: Keys, key: string)
    requires key in k.holder
  {
    k.holder[key] < |k.grants| && k.grants[k.holder[key]].key == key
  }

  /** Two grants of one key are more than the TTL apart. */
  ghost predicate Spaced(k: Keys, ttl: int) {
    forall i, j :: 0 <= i < j < |k.grants| && k.grants[i].key == k.grants[j].key ==>
      k.grants[j].at > k.grants[i].at + ttl
  }

  ghost predicate GrantInv(k: Keys, start: int, now: int, ttl: int) {
    && start <= now
    && (forall i :: 0 <= i < |k.grants| ==> GrantOk(k, start, now, ttl, i))
    && (forall key :: key in k.holder ==> HolderOk(k, key))
    && (forall key :: key in k.entries ==> Occupied(k.entries[key]))
    && Spaced(k, ttl)
  }

  /**
   Store n was made by the request its grant belongs to, for the grant's key; and within the TTL of
   the grant, it was made in turn.
   */
  predicate StoreOk(k: Keys, ttl: int, n: nat)
    requires n < |k.stores|
  {
    var st := k.stores[n];
    && st.body != [] && st.grant < |k.grants| && k.grants[st.grant].key == st.key && k.grants[st.grant].req == st.req
    && (st.at <= k.grants[st.grant].at + ttl ==> st.inTurn)
  }

  /** A cached response is the last one stored for its key, by the key's last grantee exactly if in turn. */
  predicate WriterOk(k: Keys, key: string)
    requires key in k.entries
  {
    k.entries[key].value != [] ==>
      && key in k.writer && k.writer[key] < |k.stores| && key in k.holder
      && var st := k.stores[k.writer[key]];
         st.key == key && st.body == k.entries[key].value && (st.grant == k.holder[key] <==> st.inTurn)
  }

  /** A reply is the body of a store for the key, by the last grantee before the reply exactly if in turn. */
  predicate ReplayOk(k: Keys, key: string, rp: Replay) {
    && rp.from < |k.stores| && k.stores[rp.from].key == key && k.stores[rp.from].body == rp.body
    && rp.epoch < rp.seen <= |k.grants| && k.grants[rp.epoch].key == key
    && (forall i :: rp.epoch < i < rp.seen ==> k.grants[i].key != key)
    && (k.stores[rp.from].grant == rp.epoch <==> k.stores[rp.from].inTurn)
  }

  ghost predicate StoreInv(k: Keys, ttl: int) {
    && (forall n :: 0 <= n < |k.stores| ==> StoreOk(k, ttl, n))
    && (forall key :: key in k.entries ==> WriterOk(k, key))
  }

  ghost predicate KeysInv(k: Keys, start: int, now: int, ttl: int) {
    GrantInv(k, start, now, ttl) && StoreInv(k, ttl)
  }

  // ---------------------------------------------------------------------------------------
  // A claim
  // ---------------------------------------------------------------------------------------

  /** A claim is granted exactly when the key is free or its entry has expired. */
  predicate Grantable(k: Keys, key: string, now: int) {
    key !in k.entries || now > k.entries[key].expiresAt
  }

  lemma ClaimCases(k: Keys, key: string, r: nat, now: int, ttl: int)
    requires key in k.entries ==> Occupied(k.entries[key])
    ensures var (k', c) := ClaimKey(k, key, r, now, ttl);
            && (c.Granted? <==> Grantable(k, key, now))
            && (c.Answered? <==> !Grantable(k, key, now) && k.entries[key].value != [])
            && (c.Answered? ==> c.replay.body == k.entries[key].value && c.replay.seen == |k.grants|)
            && (!c.Granted? ==> k' == k)
            && (c.Granted? ==>
                  && c.grant == |k.grants| && k'.grants == k.grants + [Grant(key, r, now)]
                  && k'.holder == k.holder[key := |k.grants|] && k'.stores == k.stores && k'.writer == k.writer
                  && k'.entries == k.entries[key := Idem.Entry(true, [], now + ttl)])
  {
  }

  lemma GrantKeepsGrants(k: Keys, k': Keys, key: string, r: nat, start: int, now: int, ttl: nat)
    requires GrantInv(k, start, now, ttl) && key != "" && Grantable(k, key, now)
    requires k'.entries == k.entries[key := Idem.Entry(true, [], now + ttl)]
    requires k'.grants == k.grants + [Grant(key, r, now)] && k'.holder == k.holder[key := |k.grants|]
    ensures GrantInv(k', start, now, ttl)
  {
    forall i | 0 <= i < |k'.grants|
      ensures GrantOk(k', start, now, ttl, i)
      ensures k'.grants[i].key == key && i < |k.grants| ==> k.grants[i].at + ttl < now
    {
      if i < |k.grants| {
        assert GrantOk(k, start, now, ttl, i);
      }
    }
    forall q | q in k'.holder
      ensures HolderOk(k', q)
    {
      if q != key {
        assert HolderOk(k, q);
      }
    }
  }

  lemma GrantKeepsStores(k: Keys, k': Keys, key: string, r: nat, now: int, ttl: nat)
    requires StoreInv(k, ttl)
    requires k'.entries == k.entries[key := Idem.Entry(true, [], now + ttl)]
    requires k'.grants == k.grants + [Grant(key, r, now)] && k'.holder == k.holder[key := |k.grants|]
    requires k'.stores == k.stores && k'.writer == k.writer
    ensures StoreInv(k', ttl)
  {
    forall n | 0 <= n < |k'.stores|
      ensures StoreOk(k', ttl, n)
    {
      assert StoreOk(k, ttl, n);
    }
    forall q | q in k'.entries
      ensures WriterOk(k', q)
    {
      if q != key {
        assert WriterOk(k, q);
      }
    }
  }

  lemma ClaimKeepsKeys(k: Keys, key: string, r: nat, start: int, now: int, ttl: nat)
    requires KeysInv(k, start, now, ttl) && key != ""
    ensures KeysInv(ClaimKey(k, key, r, now, ttl).0, start, now, ttl)
  {
    var (k', c) := ClaimKey(k, key, r, now, ttl);
    ClaimCases(k, key, r, now, ttl);
    if c.Granted? {
      GrantKeepsGrants(k, k', key, r, start, now, ttl);
      GrantKeepsStores(k, k', key, r, now, ttl);
    }
  }

  /** A cached reply is accounted for at the moment it is given. */
  lemma AnswerIsOk(k: Keys, key: string, r: nat, start: int, now: int, ttl: nat)
    requires KeysInv(k, start, now, ttl) && ClaimKey(k, key, r, now, ttl).1.Answered?
    ensures ReplayOk(k, key, ClaimKey(k, key, r, now, ttl).1.replay)
  {
    assert WriterOk(k, key);
    assert HolderOk(k, key);
    forall i | k.holder[key] < i < |k.grants|
      ensures k.grants[i].key != key
    {
      assert GrantOk(k, start, now, ttl, i);
    }
  }

  /** ... and stays so, since the history only grows. */
  lemma ReplayStaysOk(k: Keys, k': Keys, key: string, rp: Replay)
    requires ReplayOk(k, key, rp) && k.grants <= k'.grants && k.stores <= k'.stores
    ensures ReplayOk(k', key, rp)
  {
    assert k'.stores[rp.from] == k.stores[rp.from];
    assert forall i :: 0 <= i < |k.grants| ==> k'.grants[i] == k.grants[i];
  }

  // ---------------------------------------------------------------------------------------
  // A stored response
  // ---------------------------------------------------------------------------------------

  lemma StoreKeepsGrants(k: Keys, st: Store, start: int, now: int, ttl: nat)
    requires GrantInv(k, start, now, ttl) && st.at == now && st.body != []
    ensures GrantInv(Stored(k, st, ttl), start, now, ttl)
  {
    var k' := Stored(k, st, ttl);
    forall i | 0 <= i < |k'.grants|
      ensures GrantOk(k', start, now, ttl, i)
    {
      assert GrantOk(k, start, now, ttl, i);
    }
    forall q | q in k'.holder
      ensures HolderOk(k', q)
    {
      assert HolderOk(k, q);
    }
  }

  /** Whoever stores in time is still the last grantee of the key. */
  lemma TimelyStorerHolds(k: Keys, start: int, now: int, ttl: nat, g: nat)
    requires GrantInv(k, start, now, ttl) && g < |k.grants| && now <= k.grants[g].at + ttl
    ensures k.grants[g].key in k.holder && k.holder[k.grants[g].key] == g
  {
    assert GrantOk(k, start, now, ttl, g);
    var last := k.holder[k.grants[g].key];
    assert HolderOk(k, k.grants[g].key);
    assert GrantOk(k, start, now, ttl, last);
  }

  lemma StoreKeepsStores(k: Keys, st: Store, start: int, now: int, ttl: nat)
    requires KeysInv(k, start, now, ttl) && st.at == now && st.body != []
    requires st.grant < |k.grants| && k.grants[st.grant].key == st.key && k.grants[st.grant].req == st.req
    requires st.inTurn == (st.key in k.holder && k.holder[st.key] == st.grant)
    ensures StoreInv(Stored(k, st, ttl), ttl)
  {
    var k', last := Stored(k, st, ttl), |k.stores|;
    assert GrantOk(k, start, now, ttl, st.grant);
    if now <= k.grants[st.grant].at + ttl {
      TimelyStorerHolds(k, start, now, ttl, st.grant);
    }
    forall n | 0 <= n < |k'.stores|
      ensures StoreOk(k', ttl, n)
    {
      if n < last {
        assert k'.stores[n] == k.stores[n] && StoreOk(k, ttl, n);
      }
    }
    forall q | q in k'.entries
      ensures WriterOk(k', q)
    {
      if q != st.key {
        assert WriterOk(k, q);
      }
    }
  }

  lemma TickKeepsKeys(k: Keys, start: int, now: int, now': int, ttl: nat)
    requires KeysInv(k, start, now, ttl) && now <= now'
    ensures KeysInv(k, start, now', ttl)
  {
    forall i | 0 <= i < |k.grants|
      ensures GrantOk(k, start, now', ttl, i)
    {
      assert GrantOk(k, start, now, ttl, i);
    }
  }
}
