/** CAddrMan (addrman.cpp): the imperative operations, proved against the functions of
    AddrOperations. */
module AddrMan {
  import opened Basics
  import opened StdOrder
  import opened AddrTables
  import opened AddrOperations

  /** ShrinkNew's first loop, over a bucket in order. */
  method FindTerrible(info: map<int, Info>, q: seq<int>, now: int) returns (v: Option<int>)
    requires Known(info, q)
    ensures v == FirstTerrible(info, q, now)
  {
    var i := 0;
    while i < |q|
      invariant i <= |q| && FirstTerrible(info, q, now) == FirstTerrible(info, q[i..], now)
    {
      assert q[i..][0] == q[i] && q[i..][1..] == q[i + 1..];
      if IsTerrible(info[q[i]], now) {
        return Some(q[i]);
      }
      i := i + 1;
    }
    return None;
  }

  /** ShrinkNew's second loop. */
  method FindOldest(info: map<int, Info>, q: seq<int>, picks: set<int>) returns (nOldest: int)
    requires Known(info, q) && NONE !in info
    ensures nOldest == OldestPick(info, q, picks, |q|)
  {
    nOldest := NONE;
    for nI := 0 to |q|
      invariant nOldest == OldestPick(info, q, picks, nI)
    {
      if nI in picks && (nOldest == NONE || info[q[nI]].time < info[nOldest].time) {
        nOldest := q[nI];
      }
    }
  }

  /** MakeTried's loop over the "new" buckets: erase `id` from all, and count from how many. */
  method EraseEverywhere(news: seq<set<int>>, id: int) returns (left: seq<set<int>>, erased: nat)
    ensures left == Without(news, id) && erased == Refs(news, id)
  {
    left, erased := news, 0;
    for b := 0 to |news|
      invariant |left| == |news| && erased == Refs(news[..b], id)
      invariant forall c :: 0 <= c < b ==> left[c] == news[c] - {id}
      invariant forall c :: b <= c < |news| ==> left[c] == news[c]
    {
      assert news[..b + 1][..b] == news[..b];
      if id in left[b] {
        left, erased := left[b := left[b] - {id}], erased + 1;
      }
    }
    assert news[..|news|] == news;
  }

  /** Good_'s search for a bucket that holds `id`, from a random one on. */
  method SearchBucket(news: seq<set<int>>, id: int, start: nat) returns (b: int)
    requires |news| > 0
    ensures b == match FindBucket(news, id, start, |news|) case Some(c) => c case None => NONE
  {
    for n := 0 to |news|
      invariant FindBucket(news, id, start, |news|) == FindBucket(news, id, start + n, |news| - n)
    {
      b := (n + start) % |news|;
      if id in news[b] {
        return;
      }
    }
    return NONE;
  }

  class AddrMan {
    const key: Key
    var nIdCount: int
    var mapInfo: map<int, Info>
    var mapAddr: map<NetAddr, int>
    var vRandom: seq<int>
    var nTried: int
    var vvTried: seq<seq<int>>
    var nNew: int
    var vvNew: seq<set<int>>

    /** The fields as one value. */
    ghost function Now(): Tables
      reads this
    {
      Tables(nIdCount, mapInfo, mapAddr, vRandom, nTried, vvTried, nNew, vvNew)
    }

    ghost predicate Valid()
      reads this
    {
      Inv(key, Now())
    }

    constructor (k: Key)
      ensures key == k && Now() == Empty() && Valid()
    {
      key := k;
      nIdCount, mapInfo, mapAddr, vRandom := 0, map[], map[], [];
      nTried, vvTried := 0, seq(TRIED_BUCKET_COUNT, _ => []);
      nNew, vvNew := 0, seq(NEW_BUCKET_COUNT, _ => {});
      new;
      assert vvTried == Empty().tried && vvNew == Empty().news;
      EmptyInv(k);
    }

    method Create(addr: Address, source: NetAddr) returns (nId: int)
      modifies this
      ensures nId == old(nIdCount) && Now() == Created(old(Now()), addr, source)
    {
      nId := nIdCount;
      nIdCount := nIdCount + 1;
      mapInfo := mapInfo[nId := NewInfo(addr, source, NONE)];
      mapAddr := mapAddr[addr.ip := nId];
      mapInfo := mapInfo[nId := mapInfo[nId].(randomPos := |vRandom|)];
      vRandom := vRandom + [nId];
      assert mapInfo == old(mapInfo)[nId := NewInfo(addr, source, |old(vRandom)|)];
    }

    /** Two different positions must be in range and hold known ids, as the asserts demand. */
    method SwapRandom(p1: int, p2: int)
      requires p1 != p2 ==> CanSwap(Now(), p1, p2)
      modifies this
      ensures if p1 == p2 then Now() == old(Now()) else Now() == Swapped(old(Now()), p1, p2)
    {
      if p1 == p2 {
        return;
      }
      assert p1 < |vRandom| && p2 < |vRandom|;
      var nId1, nId2 := vRandom[p1], vRandom[p2];
      assert nId1 in mapInfo && nId2 in mapInfo;
      mapInfo := mapInfo[nId1 := mapInfo[nId1].(randomPos := p2)];
      mapInfo := mapInfo[nId2 := mapInfo[nId2].(randomPos := p1)];
      vRandom := vRandom[p1 := nId2];
      vRandom := vRandom[p2 := nId1];
    }

    /** The part of ShrinkNew that removes one entry from the bucket. */
    method DropReference(b: nat, nId: int)
      requires Indexed(Now()) && nId in mapInfo && b < |vvNew|
      requires |vRandom| > 0 && CanSwap(Now(), mapInfo[nId].randomPos, |vRandom| - 1)
      modifies this
      ensures Now() == Unreferenced(old(Now()), b, nId)
    {
      mapInfo := mapInfo[nId := mapInfo[nId].(refCount := mapInfo[nId].refCount - 1)];
      if mapInfo[nId].refCount == 0 {
        EraseEntry(nId);
      }
      vvNew := vvNew[b := vvNew[b] - {nId}];
    }

    method EraseEntry(nId: int)
      requires nId in mapInfo && |vRandom| > 0 && CanSwap(Now(), mapInfo[nId].randomPos, |vRandom| - 1)
      modifies this
      ensures Now() == Erased(old(Now()), nId)
    {
      var ip := mapInfo[nId].ip;
      SwapRandom(mapInfo[nId].randomPos, |vRandom| - 1);
      vRandom := vRandom[..|vRandom| - 1];
      mapAddr := mapAddr - {ip};
      mapInfo := mapInfo - {nId};
      nNew := nNew - 1;
    }

    method ShrinkNew(b: nat, now: int, r: Draws, ghost pending: int) returns (code: int)
      requires InvWith(key, Now(), pending) && b < |vvNew| && vvNew[b] != {} && pending !in vvNew[b]
      modifies this
      ensures Now() == Shrunk(key, old(Now()), b, now, r, pending)
      ensures code == if HasTerrible(old(Now()), b, now) then 0 else 1
    {
      BucketKnown(key, Now(), b, pending);
      var q := Iterate(vvNew[b]);
      var terrible := FindTerrible(mapInfo, q, now);
      var nId;
      if terrible.Some? {
        nId := terrible.value;
      } else {
        assert RandInt(r(0), |q|) in Picks(r, |q|);
        nId := FindOldest(mapInfo, q, Picks(r, |q|));
      }
      TerribleInBucket(Now(), b, now);
      UnreferencedInv(key, Now(), b, nId, pending);
      DropReference(b, nId);
      return if terrible.Some? then 0 else 1;
    }

    /** Reorders the first few entries of the bucket and returns a position in it. */
    method SelectTried(b: nat, r: Draws) returns (nPos: int)
      requires b < |vvTried| && Known(mapInfo, vvTried[b]) && NONE !in mapInfo
      modifies this
      ensures |vvTried| == |old(vvTried)|
      ensures Now() == old(Now()).(tried := old(vvTried)[b := vvTried[b]])
      ensures Permuted(old(vvTried)[b], vvTried[b])
      ensures (vvTried[b], nPos) == SelectFrom(mapInfo, old(vvTried)[b], r, 0, NONE, NONE)
      ensures vvTried[b] != [] ==> 0 <= nPos < |vvTried[b]|
    {
      var nOldest := NONE;
      nPos := NONE;
      var i := 0;
      while i < TRIED_ENTRIES_INSPECT_ON_EVICT && i < |vvTried[b]|
        invariant i <= TRIED_ENTRIES_INSPECT_ON_EVICT && |vvTried| == |old(vvTried)|
        invariant Now() == old(Now()).(tried := old(vvTried)[b := vvTried[b]])
        invariant Known(mapInfo, vvTried[b]) && (nOldest != NONE ==> nOldest in mapInfo)
        invariant SelectFrom(mapInfo, vvTried[b], r, i, nOldest, nPos)
               == SelectFrom(mapInfo, old(vvTried)[b], r, 0, NONE, NONE)
      {
        var p := RandInt(r(i), |vvTried[b]| - i) + i;
        var nTemp := vvTried[b][p];
        vvTried := vvTried[b := vvTried[b][p := vvTried[b][i]][i := nTemp]];
        assert nOldest == NONE || nTemp in mapInfo;
        if nOldest == NONE || mapInfo[nTemp].lastSuccess < mapInfo[nOldest].lastSuccess {
          nOldest, nPos := nTemp, p;
        }
        i := i + 1;
      }
      SelectFromFacts(mapInfo, old(vvTried)[b], r);
    }

    method MakeTried(nId: int, nOrigin: nat, r: Draws)
      requires Structure(key, Now()) && nOrigin < |vvNew| && nId in vvNew[nOrigin]
      modifies this
      ensures Now() == MadeTried(key, old(Now()), nId, nOrigin, r)
    {
      OriginHasRoom(key, Now(), nId, nOrigin);
      UnlistedLoose(key, Now(), nId);
      var left, erased := EraseEverywhere(vvNew, nId);
      vvNew := left;
      mapInfo := mapInfo[nId := mapInfo[nId].(refCount := mapInfo[nId].refCount - erased)];
      nNew := nNew - 1;
      assert Now() == Unlisted(old(Now()), nId);
      assert mapInfo[nId].refCount == 0;
      Settle(nId, nOrigin, r);
    }

    /** The rest of MakeTried, once the entry is in no bucket. */
    method Settle(nId: int, nOrigin: nat, r: Draws)
      requires Loose(key, Now(), nId) && nOrigin < |vvNew| && |vvNew[nOrigin]| < NEW_BUCKET_SIZE
      modifies this
      ensures Now() == Settled(key, old(Now()), nId, nOrigin, r)
    {
      var kb := TriedBucket(key, mapInfo[nId]);
      if |vvTried[kb]| < TRIED_BUCKET_SIZE {
        vvTried := vvTried[kb := vvTried[kb] + [nId]];
        nTried := nTried + 1;
        mapInfo := mapInfo[nId := mapInfo[nId].(inTried := true)];
        return;
      }
      TriedKnown(key, Now(), kb);
      ghost var t := Now();
      var nPos := SelectTried(kb, r);
      EvictedDemotes(key, t, nId, nOrigin, vvTried[kb], nPos);
      Evict(nId, nOrigin, kb, nPos, t);
    }

    /** MakeTried's eviction; `t` is the state before the bucket was reordered. */
    method Evict(nId: int, nOrigin: nat, kb: nat, nPos: nat, ghost t: Tables)
      requires nId in t.info && kb == TriedBucket(key, t.info[nId]) && nOrigin < NEW_BUCKET_COUNT
      requires |t.tried| == TRIED_BUCKET_COUNT == |vvTried| && |t.news| == NEW_BUCKET_COUNT
      requires Now() == t.(tried := t.tried[kb := vvTried[kb]])
      requires nPos < |vvTried[kb]| && vvTried[kb][nPos] in mapInfo
      modifies this
      ensures Now() == Evicted(key, t, nId, nOrigin, old(vvTried)[kb], nPos)
    {
      var gone := vvTried[kb][nPos];
      var own := NewBucket(key, mapInfo[gone].ip, mapInfo[gone].source);
      mapInfo := mapInfo[gone := mapInfo[gone].(inTried := false, refCount := 1)];
      if |vvNew[own]| < NEW_BUCKET_SIZE {
        vvNew := vvNew[own := vvNew[own] + {gone}];
      } else {
        vvNew := vvNew[nOrigin := vvNew[nOrigin] + {gone}];
      }
      nNew := nNew + 1;
      vvTried := vvTried[kb := vvTried[kb][nPos := nId]];
      mapInfo := mapInfo[nId := mapInfo[nId].(inTried := true)];
    }

    /** Good_: the address is tried from now on; no address is forgotten.  The tables are in order
        afterwards exactly when the time is positive or the address was not known. */
    method Good(ip: NetAddr, port: int, nTime: int, r: Draws)
      requires Valid()
      modifies this
      ensures Now() == GoodDone(key, old(Now()), ip, port, nTime, r)
      ensures Valid() <==> nTime > 0 || !Matches(old(Now()), ip, port)
    {
      GoodKeepsInv(key, Now(), ip, port, nTime, r);
      if ip !in mapAddr || mapAddr[ip] !in mapInfo {
        return;
      }
      var nId := mapAddr[ip];
      if mapInfo[nId].ip != ip || mapInfo[nId].port != port {
        return;
      }
      GoodEntry(nId, nTime, r);
    }

    /** Good_ once the entry is found. */
    method GoodEntry(nId: int, nTime: int, r: Draws)
      requires Structure(key, Now()) && nId in mapInfo
      modifies this
      ensures Now() == GoodKnown(key, old(Now()), nId, nTime, r)
    {
      WithInfoStructure(key, Now(), nId, GoodStats(mapInfo[nId], nTime));
      mapInfo := mapInfo[nId := GoodStats(mapInfo[nId], nTime)];
      if mapInfo[nId].inTried {
        return;
      }
      HasBucket(key, Now(), nId, RandInt(r(0), NEW_BUCKET_COUNT));
      var nUBucket := SearchBucket(vvNew, nId, RandInt(r(0), |vvNew|));
      // so the source's bail-out on nUBucket == -1 is never taken
      assert nUBucket != NONE;
      MakeTried(nId, nUBucket, Skip(r, 1));
    }

    method Attempt(ip: NetAddr, port: int, nTime: int)
      requires Valid()
      modifies this
      ensures Now() == AttemptDone(old(Now()), ip, port, nTime)
      ensures Valid() <==> nTime >= 0 || !Matches(old(Now()), ip, port)
    {
      AttemptKeepsInv(key, Now(), ip, port, nTime);
      if ip !in mapAddr || mapAddr[ip] !in mapInfo {
        return;
      }
      var nId := mapAddr[ip];
      if mapInfo[nId].ip != ip || mapInfo[nId].port != port {
        return;
      }
      mapInfo := mapInfo[nId := mapInfo[nId].(lastTry := nTime, attempts := mapInfo[nId].attempts + 1)];
    }

    method Connected(ip: NetAddr, port: int, nTime: int)
      requires Valid()
      modifies this
      ensures Valid() && Now() == ConnectedDone(old(Now()), ip, port, nTime)
    {
      ConnectedKeepsInv(key, Now(), ip, port, nTime);
      if ip !in mapAddr || mapAddr[ip] !in mapInfo {
        return;
      }
      var nId := mapAddr[ip];
      if mapInfo[nId].ip != ip || mapInfo[nId].port != port {
        return;
      }
      if nTime - mapInfo[nId].time > 20 * 60 {
        mapInfo := mapInfo[nId := mapInfo[nId].(time := U32(nTime))];
      }
    }

    /** Add_: `now` is GetAdjustedTime. */
    method Add(addr: Address, source: NetAddr, nTimePenalty: int, now: int, r: Draws) returns (fNew: bool)
      requires Valid()
      modifies this
      ensures Valid() && (Now(), fNew) == AddDone(key, old(Now()), addr, source, nTimePenalty, now, r)
    {
      AddKeepsInv(key, Now(), addr, source, nTimePenalty, now, r);
      if !key.routable(addr.ip) {
        return false;
      }
      if addr.ip in mapAddr {
        AddAgain(mapAddr[addr.ip], addr, source, nTimePenalty, now, r);
        return false;
      }
      AddFirst(addr, source, nTimePenalty, now, r);
      return true;
    }

    /** Add_ of an unknown address. */
    method AddFirst(addr: Address, source: NetAddr, nTimePenalty: int, now: int, r: Draws)
      requires Structure(key, Now()) && addr.ip !in mapAddr && key.routable(addr.ip)
      modifies this
      ensures Now() == AddDone(key, old(Now()), addr, source, nTimePenalty, now, r).0
    {
      NotedReady(key, Now(), addr, source, nTimePenalty);
      var nId := Create(addr, source);
      mapInfo := mapInfo[nId := mapInfo[nId].(time := U32(Max(0, mapInfo[nId].time - nTimePenalty)))];
      nNew := nNew + 1;
      assert Now() == Noted(old(Now()), addr, source, nTimePenalty);
      AddReference(nId, source, now, Skip(r, 1));
    }

    /** Add_ of a known address. */
    method AddAgain(nId: int, addr: Address, source: NetAddr, nTimePenalty: int, now: int, r: Draws)
      requires Structure(key, Now()) && nId in mapInfo
      modifies this
      ensures Now() == AddKnown(key, old(Now()), nId, addr, source, nTimePenalty, now, r)
    {
      var info := Refreshed(mapInfo[nId], addr, nTimePenalty, now);
      WithInfoStructure(key, Now(), nId, info);
      mapInfo := mapInfo[nId := info];
      if !Again(mapInfo[nId], addr, r) {
        return;
      }
      ClaimedInv(key, Now(), nId);
      AddReference(nId, source, now, Skip(r, 1));
    }

    /** The end of Add_: put the entry into the bucket its source selects, making room if full. */
    method AddReference(nId: int, source: NetAddr, now: int, r: Draws)
      requires nId in mapInfo && InvWith(key, Claimed(Now(), nId), nId) && (Structure(key, Now()) || Refs(vvNew, nId) == 0)
      modifies this
      ensures Now() == Gained(key, old(Now()), nId, source, now, r)
    {
      var b := NewBucket(key, mapInfo[nId].ip, source);
      if nId !in vvNew[b] {
        mapInfo := mapInfo[nId := mapInfo[nId].(refCount := mapInfo[nId].refCount + 1)];
        if |vvNew[b]| == NEW_BUCKET_SIZE {
          var _ := ShrinkNew(b, now, r, nId);
        }
        vvNew := vvNew[b := vvNew[b] + {nId}];
      }
    }

    /** GetAddr_: some of the known addresses, each at most once; only vRandom is reordered. */
    method GetAddr(r: Draws) returns (vAddr: seq<Info>)
      requires Valid()
      modifies this
      ensures Valid() && SameButOrder(old(Now()), Now())
      ensures |vAddr| == GetAddrCount(|vRandom|)
      ensures forall i :: 0 <= i < |vAddr| ==> vRandom[i] in mapInfo && SameButPlace(vAddr[i], mapInfo[vRandom[i]])
      ensures forall i, j :: 0 <= i < j < |vAddr| ==> vAddr[i].ip != vAddr[j].ip
    {
      var nNodes := GetAddrCount(|vRandom|);
      ShuffledInv(key, Now(), r, nNodes);
      ShuffledKeeps(Now(), r, 0, nNodes);
      vAddr := Sample(nNodes, r);
      DistinctAddresses(Now());
    }

    /** GetAddr_'s loop. */
    method Sample(nNodes: nat, r: Draws) returns (vAddr: seq<Info>)
      requires Indexed(Now()) && nNodes <= |vRandom|
      modifies this
      ensures Known(old(mapInfo), old(vRandom)) && Now() == ShuffledFrom(old(Now()), r, 0, nNodes)
      ensures |vAddr| == nNodes && Sampled(Now(), vAddr)
    {
      vAddr := [];
      ghost var goal := ShuffledFrom(Now(), r, 0, nNodes);
      for n := 0 to nNodes
        invariant |vAddr| == n && ToSample(Now(), r, n, nNodes, vAddr, goal)
      {
        var addr := SampleOne(n, nNodes, r, vAddr, goal);
        vAddr := vAddr + [addr];
      }
    }

    /** One round of that loop. */
    method SampleOne(n: nat, ghost nNodes: nat, r: Draws, ghost vAddr: seq<Info>, ghost goal: Tables) returns (addr: Info)
      requires ToSample(Now(), r, n, nNodes, vAddr, goal) && n < nNodes && |vAddr| == n
      modifies this
      ensures ToSample(Now(), r, n + 1, nNodes, vAddr + [addr], goal)
    {
      ghost var t := Now();
      var nRndPos := RandInt(r(n), |vRandom| - n) + n;
      SwapRandom(n, nRndPos);
      SwapSamples(t, r, n, nNodes, vAddr, goal, nRndPos, Now());
      assert vRandom[n] in mapInfo;
      addr := mapInfo[vRandom[n]];
    }
  }

  /** The entries are those of the first few ids in vRandom. */
  ghost predicate Sampled(t: Tables, vAddr: seq<Info>) {
    && |vAddr| <= |t.random| && Known(t.info, t.random)
    && (forall i :: 0 <= i < |vAddr| ==> SameButPlace(vAddr[i], t.info[t.random[i]]))
  }

  /** The same but for nRandomPos, which later swaps may change. */
  ghost predicate SameButPlace(a: Info, i: Info) { a == i.(randomPos := a.randomPos) }

  /** The loop of GetAddr_ has done n rounds of `count` and will end in `goal`. */
  ghost predicate ToSample(t: Tables, r: Draws, n: nat, count: nat, vAddr: seq<Info>, goal: Tables) {
    && Indexed(t) && n <= count <= |t.random| && Sampled(t, vAddr)
    && ShuffledFrom(t, r, n, count) == goal
  }

  lemma {:induction false} SwapSamples(t: Tables, r: Draws, n: nat, count: nat, vAddr: seq<Info>, goal: Tables, p: nat, u: Tables)
    requires ToSample(t, r, n, count, vAddr, goal) && n < count && |vAddr| == n
    requires p == RandInt(r(n), |t.random| - n) + n && CanSwap(t, n, p) && u == Swapped(t, n, p)
    ensures n < |u.random| && u.random[n] in u.info
    ensures ToSample(u, r, n + 1, count, vAddr + [u.info[u.random[n]]], goal)
  {
    SwappedIndexed(t, n, p);
    ShuffleStep(t, r, n, count, p, u);
    SampleStep(t, n, p, vAddr, u);
  }

  lemma {:induction false} SampleStep(t: Tables, n: nat, p: nat, vAddr: seq<Info>, u: Tables)
    requires CanSwap(t, n, p) && n <= p && Sampled(t, vAddr) && |vAddr| == n
    requires u == Swapped(t, n, p) && SameButOrder(t, u) && Known(u.info, u.random)
    ensures n < |u.random| && Sampled(u, vAddr + [u.info[u.random[n]]])
  {
    forall i | 0 <= i < n ensures SameButPlace(vAddr[i], u.info[u.random[i]]) {
      assert u.random[i] == t.random[i];
      assert SameButPlace(vAddr[i], t.info[t.random[i]]);
    }
  }

  /** The entries that vRandom lists have different addresses. */
  lemma {:induction false} DistinctAddresses(t: Tables)
    requires Indexed(t)
    ensures forall i, j :: 0 <= i < j < |t.random| ==> t.info[t.random[i]].ip != t.info[t.random[j]].ip
  {
    forall i, j | 0 <= i < j < |t.random| ensures t.info[t.random[i]].ip != t.info[t.random[j]].ip {
      assert IndexedAt(t, t.random[i]) && IndexedAt(t, t.random[j]);
    }
  }
}
