/** What the operations of addrman.cpp do to the tables, as functions of the tables and of the
    random numbers drawn, and what that means for the entries. */
module AddrOperations {
  import opened Basics
  import opened StdOrder
  import opened AddrTables

  function Skip(r: Draws, n: nat): Draws { (i: nat) => r(i + n) }

  // ---------------------------------------------------------------- ShrinkNew

  predicate Known(info: map<int, Info>, q: seq<int>) {
    forall i :: 0 <= i < |q| ==> q[i] in info
  }

  ghost function FirstTerrible(info: map<int, Info>, q: seq<int>, now: int): (r: Option<int>)
    requires Known(info, q)
    ensures r.None? <==> forall i :: 0 <= i < |q| ==> !IsTerrible(info[q[i]], now)
    ensures r.Some? ==> exists i :: 0 <= i < |q| && q[i] == r.value && IsTerrible(info[q[i]], now)
                          && forall j :: 0 <= j < i ==> !IsTerrible(info[q[j]], now)
  {
    if q == [] then None
    else if IsTerrible(info[q[0]], now) then Some(q[0])
    else
      assert forall j :: 1 <= j < |q| ==> q[j] == q[1..][j - 1];
      var r := FirstTerrible(info, q[1..], now);
      assert r.Some? ==> exists i :: 1 <= i < |q| && q[i] == r.value && IsTerrible(info[q[i]], now)
                          && forall j :: 0 <= j < i ==> !IsTerrible(info[q[j]], now) by {
        if r.Some? {
          var i :| 0 <= i < |q| - 1 && q[1..][i] == r.value && IsTerrible(info[q[1..][i]], now)
                     && forall j :: 0 <= j < i ==> !IsTerrible(info[q[1..][j]], now);
          assert q[i + 1] == r.value;
          forall j | 0 <= j < i + 1 ensures !IsTerrible(info[q[j]], now) {
            if j > 0 {
              assert q[1..][j - 1] == q[j];
            }
          }
        }
      }
      r
  }

  /** Of the picked positions below n, the first with the smallest nTime; NONE if none is picked. */
  ghost predicate IsOldest(info: map<int, Info>, q: seq<int>, picks: set<int>, n: nat, best: int)
    requires Known(info, q) && n <= |q|
  {
    if best == NONE then forall i :: 0 <= i < n ==> i !in picks
    else exists i :: 0 <= i < n && i in picks && OldestAt(info, q, picks, n, i) && best == q[i]
  }

  ghost predicate OldestAt(info: map<int, Info>, q: seq<int>, picks: set<int>, n: nat, i: nat)
    requires Known(info, q) && n <= |q| && i < |q|
  {
    forall j :: 0 <= j < n && j in picks ==>
      info[q[i]].time <= info[q[j]].time && (info[q[i]].time == info[q[j]].time ==> i <= j)
  }

  ghost function OldestPick(info: map<int, Info>, q: seq<int>, picks: set<int>, n: nat): (best: int)
    requires Known(info, q) && n <= |q| && NONE !in info
    ensures IsOldest(info, q, picks, n, best) && (best != NONE ==> best in q)
  {
    if n == 0 then NONE
    else
      var best := OldestPick(info, q, picks, n - 1);
      if n - 1 in picks && (best == NONE || info[q[n - 1]].time < info[best].time) then
        assert OldestAt(info, q, picks, n, n - 1) by {
          if best != NONE {
            var i :| 0 <= i < n - 1 && i in picks && OldestAt(info, q, picks, n - 1, i) && best == q[i];
          }
        }
        q[n - 1]
      else
        assert best != NONE ==> IsOldest(info, q, picks, n, best) by {
          if best != NONE {
            var i :| 0 <= i < n - 1 && i in picks && OldestAt(info, q, picks, n - 1, i) && best == q[i];
            assert OldestAt(info, q, picks, n, i);
          }
        }
        best
  }

  function Picks(r: Draws, n: nat): (p: set<int>)
    requires n > 0
    ensures RandInt(r(0), n) in p && forall i :: i in p ==> 0 <= i < n
  {
    {RandInt(r(0), n), RandInt(r(1), n), RandInt(r(2), n), RandInt(r(3), n)}
  }

  ghost predicate HasTerrible(t: Tables, b: nat, now: int)
    requires b < |t.news|
  {
    exists x :: x in t.news[b] && x in t.info && IsTerrible(t.info[x], now)
  }

  /** The entry ShrinkNew removes: the first terrible one, or else the oldest of the picks. */
  ghost function Victim(t: Tables, b: nat, now: int, r: Draws): (v: int)
    requires b < |t.news| && Known(t.info, Ascending(t.news[b])) && t.news[b] != {} && NONE !in t.info
    ensures v in t.news[b]
    ensures HasTerrible(t, b, now) ==> v in t.info && IsTerrible(t.info[v], now)
  {
    var q := Ascending(t.news[b]);
    var f := FirstTerrible(t.info, q, now);
    if f.Some? then f.value else
      assert RandInt(r(0), |q|) in Picks(r, |q|);
      OldestPick(t.info, q, Picks(r, |q|), |q|)
  }

  lemma {:induction false} TerribleInBucket(t: Tables, b: nat, now: int)
    requires b < |t.news| && Known(t.info, Ascending(t.news[b]))
    ensures FirstTerrible(t.info, Ascending(t.news[b]), now).Some? <==> HasTerrible(t, b, now)
  {
    var q := Ascending(t.news[b]);
    if i :| 0 <= i < |q| && IsTerrible(t.info[q[i]], now) {
      assert q[i] in t.news[b];
    }
  }

  /** The victim is the terrible entry with the smallest id, or else the entry of the smallest nTime
      at the four random positions, the first of them in the bucket's order. */
  lemma {:induction false} VictimIs(t: Tables, b: nat, now: int, r: Draws)
    requires b < |t.news| && Known(t.info, Ascending(t.news[b])) && t.news[b] != {} && NONE !in t.info
    ensures var q, v := Ascending(t.news[b]), Victim(t, b, now, r);
      if HasTerrible(t, b, now) then
        v in t.info && IsTerrible(t.info[v], now) && forall x :: x in t.news[b] && x in t.info && IsTerrible(t.info[x], now) ==> v <= x
      else v != NONE && IsOldest(t.info, q, Picks(r, |q|), |q|, v)
  {
    var q := Ascending(t.news[b]);
    TerribleInBucket(t, b, now);
    var f := FirstTerrible(t.info, q, now);
    if f.Some? {
      var i :| 0 <= i < |q| && q[i] == f.value && forall j :: 0 <= j < i ==> !IsTerrible(t.info[q[j]], now);
      forall x | x in t.news[b] && x in t.info && IsTerrible(t.info[x], now) ensures f.value <= x {
        FirstIsLeast(t.info, q, now, i, x);
      }
    }
  }

  lemma {:induction false} FirstIsLeast(info: map<int, Info>, q: seq<int>, now: int, i: nat, x: int)
    requires Known(info, q) && Increasing(q) && i < |q| && forall j :: 0 <= j < i ==> !IsTerrible(info[q[j]], now)
    requires x in q && IsTerrible(info[x], now)
    ensures q[i] <= x
  {
    var m :| 0 <= m < |q| && q[m] == x;
  }

  lemma {:induction false} BucketKnown(k: Key, t: Tables, b: nat, pending: int)
    requires InvWith(k, t, pending) && b < NEW_BUCKET_COUNT
    ensures Known(t.info, Ascending(t.news[b]))
  {
    assert NewBucketOk(t, b);
    var q := Ascending(t.news[b]);
    forall i | 0 <= i < |q| ensures q[i] in t.info {
      assert q[i] in t.news[b];
    }
  }

  /** ShrinkNew: one reference of one entry of the bucket is dropped. */
  ghost function Shrunk(k: Key, t: Tables, b: nat, now: int, r: Draws, pending: int): (u: Tables)
    requires InvWith(k, t, pending) && b < NEW_BUCKET_COUNT && t.news[b] != {} && pending !in t.news[b]
    ensures InvWith(k, u, pending) && |u.news[b]| == |t.news[b]| - 1
    ensures exists v :: v in t.news[b] && OthersKept(t, u, v) && RestKept(t, u, b, v) && LostReference(t, u, v)
  {
    BucketKnown(k, t, b, pending);
    var v := Victim(t, b, now, r);
    UnreferencedInv(k, t, b, v, pending);
    Unreferenced(t, b, v)
  }

  // ---------------------------------------------------------------- MakeTried

  /** SelectTried's loop from round i on: the bucket and the position to replace.  The position
      is the one an entry was drawn from, before the swap. */
  function SelectFrom(info: map<int, Info>, v: seq<int>, r: Draws, i: nat, oldest: int, pos: int): (seq<int>, int)
    requires Known(info, v) && (oldest != NONE ==> oldest in info)
    decreases |v| - i
  {
    if i < TRIED_ENTRIES_INSPECT_ON_EVICT && i < |v| then
      var p := RandInt(r(i), |v| - i) + i;
      var w := v[p := v[i]][i := v[p]];
      if oldest == NONE || info[v[p]].lastSuccess < info[oldest].lastSuccess then
        SelectFrom(info, w, r, i + 1, v[p], p)
      else
        SelectFrom(info, w, r, i + 1, oldest, pos)
    else (v, pos)
  }

  lemma {:induction false} SwapPermutes(v: seq<int>, i: nat, p: nat)
    requires i < |v| && p < |v|
    ensures Permuted(v, v[p := v[i]][i := v[p]])
  {
  }

  lemma {:induction false} SelectFromFacts(info: map<int, Info>, v: seq<int>, r: Draws)
    requires Known(info, v) && NONE !in info
    ensures Permuted(v, SelectFrom(info, v, r, 0, NONE, NONE).0)
    ensures v != [] ==> 0 <= SelectFrom(info, v, r, 0, NONE, NONE).1 < |v|
  {
    SelectPermutes(info, v, r, 0, NONE, NONE);
    SelectPosition(info, v, r, 0, NONE, NONE);
  }

  lemma {:induction false} SelectPermutes(info: map<int, Info>, v: seq<int>, r: Draws, i: nat, oldest: int, pos: int)
    requires Known(info, v) && (oldest != NONE ==> oldest in info)
    ensures Permuted(v, SelectFrom(info, v, r, i, oldest, pos).0)
    decreases |v| - i
  {
    if i < TRIED_ENTRIES_INSPECT_ON_EVICT && i < |v| {
      var p := RandInt(r(i), |v| - i) + i;
      var w := v[p := v[i]][i := v[p]];
      SwapPermutes(v, i, p);
      if oldest == NONE || info[v[p]].lastSuccess < info[oldest].lastSuccess {
        SelectPermutes(info, w, r, i + 1, v[p], p);
      } else {
        SelectPermutes(info, w, r, i + 1, oldest, pos);
      }
    }
  }

  lemma {:induction false} SelectPosition(info: map<int, Info>, v: seq<int>, r: Draws, i: nat, oldest: int, pos: int)
    requires Known(info, v) && NONE !in info
    requires oldest != NONE ==> oldest in info && 0 <= pos < |v|
    ensures oldest != NONE || (i == 0 && v != []) ==> 0 <= SelectFrom(info, v, r, i, oldest, pos).1 < |v|
    decreases |v| - i
  {
    if i < TRIED_ENTRIES_INSPECT_ON_EVICT && i < |v| {
      var p := RandInt(r(i), |v| - i) + i;
      var w := v[p := v[i]][i := v[p]];
      if oldest == NONE || info[v[p]].lastSuccess < info[oldest].lastSuccess {
        SelectPosition(info, w, r, i + 1, v[p], p);
      } else {
        SelectPosition(info, w, r, i + 1, oldest, pos);
      }
    }
  }

  lemma {:induction false} TriedKnown(k: Key, t: Tables, b: nat)
    requires TriedOk(k, t) && b < TRIED_BUCKET_COUNT
    ensures Known(t.info, t.tried[b])
  {
    assert TriedBucketOk(k, t, b);
    forall i | 0 <= i < |t.tried[b]| ensures t.tried[b][i] in t.info {
      assert TriedAt(k, t, t.tried[b][i], b);
    }
  }

  /** MakeTried after the entry has been taken out of the "new" buckets. */
  ghost function Settled(k: Key, t: Tables, id: int, origin: nat, r: Draws): (u: Tables)
    requires Loose(k, t, id) && origin < NEW_BUCKET_COUNT && |t.news[origin]| < NEW_BUCKET_SIZE
    ensures Structure(k, u) && u.info.Keys == t.info.Keys && u.info[id] == t.info[id].(inTried := true)
    ensures exists gone :: Demoted(t, u, id, gone)
  {
    var kb := TriedBucket(k, t.info[id]);
    if |t.tried[kb]| < TRIED_BUCKET_SIZE then
      PlacedInv(k, t, id);
      PlacedDemotes(k, t, id);
      Placed(k, t, id)
    else
      TriedKnown(k, t, kb);
      var (bucket, pos) := SelectFrom(t.info, t.tried[kb], r, 0, NONE, NONE);
      SelectFromFacts(t.info, t.tried[kb], r);
      EvictedInv(k, t, id, origin, bucket, pos);
      EvictedDemotes(k, t, id, origin, bucket, pos);
      Evicted(k, t, id, origin, bucket, pos)
  }

  /** Besides `id` nothing changed, but that `gone` moved from "tried" to one "new" bucket. */
  ghost predicate Demoted(t: Tables, u: Tables, id: int, gone: int) {
    && u.addr == t.addr && u.random == t.random && u.idCount == t.idCount && u.info.Keys == t.info.Keys
    && (forall x :: x in t.info && x != id && x != gone ==> u.info[x] == t.info[x])
    && (gone in t.info ==>
          gone != id && t.info[gone].inTried && u.info[gone] == t.info[gone].(inTried := false, refCount := 1))
  }

  lemma {:induction false} PlacedDemotes(k: Key, t: Tables, id: int)
    requires Loose(k, t, id)
    ensures Demoted(t, Placed(k, t, id), id, NONE)
  {
  }

  lemma {:induction false} EvictedDemotes(k: Key, t: Tables, id: int, origin: nat, bucket: seq<int>, pos: nat)
    requires Loose(k, t, id) && Permuted(t.tried[TriedBucket(k, t.info[id])], bucket) && pos < |bucket|
    requires origin < NEW_BUCKET_COUNT
    ensures bucket[pos] in t.info && Demoted(t, Evicted(k, t, id, origin, bucket, pos), id, bucket[pos])
    ensures Evicted(k, t, id, origin, bucket, pos).info[id] == t.info[id].(inTried := true)
  {
    GoneIsTried(k, t, id, bucket, pos);
  }

  lemma {:induction false} OriginHasRoom(k: Key, t: Tables, id: int, origin: nat)
    requires Structure(k, t) && origin < NEW_BUCKET_COUNT && id in t.news[origin]
    ensures id in t.info && !t.info[id].inTried && |Unlisted(t, id).news[origin]| < NEW_BUCKET_SIZE
  {
    assert NewBucketOk(t, origin);
    RefsZero(t.news, id);
    assert PlaceOk(t.info[id]) && RefCountOk(t, id, NONE);
  }

  /** MakeTried. */
  ghost function MadeTried(k: Key, t: Tables, id: int, origin: nat, r: Draws): (u: Tables)
    requires Structure(k, t) && origin < NEW_BUCKET_COUNT && id in t.news[origin]
    ensures Structure(k, u) && id in t.info && u.info.Keys == t.info.Keys
    ensures u.info[id] == t.info[id].(inTried := true, refCount := 0)
    ensures exists gone :: Demoted(t, u, id, gone)
  {
    OriginHasRoom(k, t, id, origin);
    UnlistedLoose(k, t, id);
    var u := Settled(k, Unlisted(t, id), id, origin, r);
    assert exists gone :: Demoted(t, u, id, gone) by {
      var gone :| Demoted(Unlisted(t, id), u, id, gone);
      assert Demoted(t, u, id, gone);
    }
    u
  }

  // ---------------------------------------------------------------- Good_, Attempt_, Connected_

  /** Find, and the comparison of the whole CService that Good_, Attempt_ and Connected_ make. */
  predicate Matches(t: Tables, ip: NetAddr, port: int) {
    ip in t.addr && t.addr[ip] in t.info && t.info[t.addr[ip]].ip == ip && t.info[t.addr[ip]].port == port
  }

  /** The first bucket holding `id`, looking at n buckets from `start` on and round. */
  function FindBucket(news: seq<set<int>>, id: int, start: nat, n: nat): (b: Option<nat>)
    requires |news| > 0
    ensures b.Some? ==> b.value < |news| && id in news[b.value]
    decreases n
  {
    if n == 0 then None
    else if id in news[start % |news|] then Some(start % |news|)
    else FindBucket(news, id, start + 1, n - 1)
  }

  /** Looking at all buckets finds one exactly when there is one. */
  lemma {:induction false} FindBucketFinds(news: seq<set<int>>, id: int, start: nat, n: nat, b: nat, d: nat)
    requires |news| > 0 && d < n && b == (start + d) % |news| && id in news[b]
    ensures FindBucket(news, id, start, n).Some?
    decreases n
  {
    if id !in news[start % |news|] {
      FindBucketFinds(news, id, start + 1, n - 1, b, d - 1);
    }
  }

  lemma {:induction false} FindBucketAll(news: seq<set<int>>, id: int, start: nat, b: nat)
    requires b < |news| && start < |news| && id in news[b]
    ensures FindBucket(news, id, start, |news|).Some?
  {
    var d := if start <= b then b - start else b + |news| - start;
    FindBucketFinds(news, id, start, |news|, b, d);
  }

  /** An entry that is not tried is in some "new" bucket. */
  lemma {:induction false} HasBucket(k: Key, t: Tables, id: int, start: nat)
    requires Structure(k, t) && id in t.info && !t.info[id].inTried && start < NEW_BUCKET_COUNT
    ensures FindBucket(t.news, id, start, NEW_BUCKET_COUNT).Some?
  {
    assert RefCountOk(t, id, NONE) && PlaceOk(t.info[id]);
    RefsZero(t.news, id);
    var c :| 0 <= c < |t.news| && id in t.news[c];
    FindBucketAll(t.news, id, start, c);
  }

  function GoodStats(i: Info, time: int): Info {
    i.(lastSuccess := time, lastTry := time, time := U32(time), attempts := 0)
  }

  /** Good_ of an address the table knows with that port. */
  ghost function GoodKnown(k: Key, t: Tables, id: int, time: int, r: Draws): (u: Tables)
    requires Structure(k, t) && id in t.info
    ensures Structure(k, u) && u.info.Keys == t.info.Keys
    ensures u.info[id] == GoodStats(t.info[id], time).(inTried := true, refCount := 0)
    ensures t.info[id].inTried ==> u == WithInfo(t, id, GoodStats(t.info[id], time))
    ensures exists gone :: Demoted(t, u, id, gone)
  {
    var s := WithInfo(t, id, GoodStats(t.info[id], time));
    WithInfoStructure(k, t, id, GoodStats(t.info[id], time));
    assert PlaceOk(t.info[id]);
    assert NONE !in t.info;
    assert Demoted(t, s, id, NONE);
    if t.info[id].inTried then s
    else
      var b := FindBucket(s.news, id, RandInt(r(0), NEW_BUCKET_COUNT), NEW_BUCKET_COUNT);
      HasBucket(k, s, id, RandInt(r(0), NEW_BUCKET_COUNT));
      var u := MadeTried(k, s, id, b.value, Skip(r, 1));
      assert exists gone :: Demoted(t, u, id, gone) by {
        var gone :| Demoted(s, u, id, gone);
        assert Demoted(t, u, id, gone);
      }
      u
  }

  ghost function GoodDone(k: Key, t: Tables, ip: NetAddr, port: int, time: int, r: Draws): (u: Tables)
    requires Structure(k, t)
    ensures Structure(k, u)
  {
    if Matches(t, ip, port) then GoodKnown(k, t, t.addr[ip], time, r) else t
  }

  /** Good_ keeps what Check_ checks exactly when the time is positive or the address unknown. */
  lemma {:induction false} GoodKeepsInv(k: Key, t: Tables, ip: NetAddr, port: int, time: int, r: Draws)
    requires Inv(k, t)
    ensures Inv(k, GoodDone(k, t, ip, port, time, r)) <==> time > 0 || !Matches(t, ip, port)
  {
    if Matches(t, ip, port) {
      var id := t.addr[ip];
      var u := GoodKnown(k, t, id, time, r);
      var gone :| Demoted(t, u, id, gone);
      assert u.info[id].lastSuccess == time && u.info[id].inTried;
      if time > 0 {
        forall x | x in u.info ensures StatsOk(u.info[x]) {
          assert StatsOk(t.info[x]);
        }
      }
    }
  }

  /** Attempt_. */
  function AttemptDone(t: Tables, ip: NetAddr, port: int, time: int): Tables {
    if Matches(t, ip, port) then
      var id := t.addr[ip];
      WithInfo(t, id, t.info[id].(lastTry := time, attempts := t.info[id].attempts + 1))
    else t
  }

  lemma {:induction false} AttemptKeepsInv(k: Key, t: Tables, ip: NetAddr, port: int, time: int)
    requires Inv(k, t)
    ensures Structure(k, AttemptDone(t, ip, port, time))
    ensures Inv(k, AttemptDone(t, ip, port, time)) <==> time >= 0 || !Matches(t, ip, port)
  {
    if Matches(t, ip, port) {
      var id := t.addr[ip];
      var i := t.info[id].(lastTry := time, attempts := t.info[id].attempts + 1);
      WithInfoStructure(k, t, id, i);
      assert AttemptDone(t, ip, port, time).info[id] == i;
      assert StatsOk(t.info[id]);
    }
  }

  /** Connected_. */
  function ConnectedDone(t: Tables, ip: NetAddr, port: int, time: int): Tables {
    if Matches(t, ip, port) && time - t.info[t.addr[ip]].time > 20 * 60 then
      var id := t.addr[ip];
      WithInfo(t, id, t.info[id].(time := U32(time)))
    else t
  }

  lemma {:induction false} ConnectedKeepsInv(k: Key, t: Tables, ip: NetAddr, port: int, time: int)
    requires Inv(k, t)
    ensures Inv(k, ConnectedDone(t, ip, port, time))
  {
    if Matches(t, ip, port) {
      var id := t.addr[ip];
      WithInfoStructure(k, t, id, t.info[id].(time := U32(time)));
      assert StatsOk(t.info[id]);
    }
  }

  // ---------------------------------------------------------------- Add_

  /** nTime and nServices of a known address after it is announced again. */
  function Refreshed(i: Info, a: Address, penalty: int, now: int): Info {
    var interval := if now - a.time < ONE_DAY then ONE_HOUR else ONE_DAY;
    i.(time := if a.time != 0 && (i.time == 0 || i.time < a.time - interval - penalty)
               then U32(Max(0, a.time - penalty)) else i.time,
       services := i.services | a.services)
  }

  /** Whether Add_ gives a known entry one more reference. */
  predicate Again(i: Info, a: Address, r: Draws) {
    && a.time != 0 && !(i.time != 0 && a.time <= i.time)
    && !i.inTried && i.refCount != NEW_BUCKETS_PER_ADDRESS
    && (i.refCount > 0 ==> RandInt(r(0), Pow2(i.refCount)) == 0)
  }

  /** One more reference for `id`, in the bucket that the source of the news selects. */
  ghost function Gained(k: Key, t: Tables, id: int, source: NetAddr, now: int, r: Draws): (u: Tables)
    requires id in t.info && InvWith(k, Claimed(t, id), id) && (Structure(k, t) || Refs(t.news, id) == 0)
    ensures Structure(k, u) && id in u.info && id in u.news[NewBucket(k, t.info[id].ip, source)]
    ensures exists v :: Gain(t, u, id, v)
  {
    var b := NewBucket(k, t.info[id].ip, source);
    var c := Claimed(t, id);
    RefsZero(t.news, id);
    if id in t.news[b] then
      assert Gain(t, t, id, NONE);
      t
    else if |t.news[b]| == NEW_BUCKET_SIZE then
      MadeRoomGain(k, t, id, b, now, r);
      HeldInv(k, Shrunk(k, c, b, now, r, id), b, id);
      Held(Shrunk(k, c, b, now, r, id), b, id)
    else
      assert NewBucketOk(c, b);
      HeldInv(k, c, b, id);
      assert Gain(t, Held(c, b, id), id, NONE);
      Held(c, b, id)
  }

  lemma {:induction false} MadeRoomGain(k: Key, t: Tables, id: int, b: nat, now: int, r: Draws)
    requires id in t.info && InvWith(k, Claimed(t, id), id)
    requires b < NEW_BUCKET_COUNT && id !in t.news[b] && |t.news[b]| == NEW_BUCKET_SIZE
    ensures var s := Shrunk(k, Claimed(t, id), b, now, r, id);
      && id in s.info && id !in s.news[b] && |s.news[b]| < NEW_BUCKET_SIZE
      && exists v :: Gain(t, Held(s, b, id), id, v)
  {
    var c := Claimed(t, id);
    var s := Shrunk(k, c, b, now, r, id);
    var v :| v in c.news[b] && OthersKept(c, s, v) && RestKept(c, s, b, v) && LostReference(c, s, v);
    assert v != id;
    LossThenGain(t, s, b, id, v);
  }

  lemma {:induction false} LossThenGain(t: Tables, s: Tables, b: nat, id: int, v: int)
    requires id in t.info && v != id && b < |s.news|
    requires OthersKept(Claimed(t, id), s, v) && LostReference(Claimed(t, id), s, v)
    ensures Gain(t, Held(s, b, id), id, v)
  {
    var c := Claimed(t, id);
    assert forall x :: x in t.info && x != id ==> c.info[x] == t.info[x];
  }

  /** `id` may have gained a reference and `v` lost one; no other entry changed, but for its place
      in vRandom. */
  ghost predicate Gain(t: Tables, u: Tables, id: int, v: int) {
    && id in t.info && id in u.info && (forall x :: x in u.info ==> x in t.info)
    && u.info[id] == t.info[id].(refCount := u.info[id].refCount, randomPos := u.info[id].randomPos)
    && (forall x :: x in t.info && x != id && x != v ==>
          x in u.info && u.info[x] == t.info[x].(randomPos := u.info[x].randomPos))
    && (v in t.info ==> v != id && LostReference(t, u, v))
  }

  /** Add_ of a known address. */
  ghost function AddKnown(k: Key, t: Tables, id: int, a: Address, source: NetAddr, penalty: int, now: int, r: Draws): (u: Tables)
    requires Structure(k, t) && id in t.info
    ensures Structure(k, u)
    ensures exists v :: Gain(WithInfo(t, id, Refreshed(t.info[id], a, penalty, now)), u, id, v)
  {
    var i := Refreshed(t.info[id], a, penalty, now);
    var s := WithInfo(t, id, i);
    WithInfoStructure(k, t, id, i);
    if Again(i, a, r) then
      ClaimedInv(k, s, id);
      Gained(k, s, id, source, now, Skip(r, 1))
    else
      assert Gain(s, s, id, NONE);
      s
  }

  /** Create as Add_ uses it. */
  function Noted(t: Tables, a: Address, source: NetAddr, penalty: int): Tables {
    var id := t.idCount;
    var c := Created(t, a, source);
    WithInfo(c, id, c.info[id].(time := U32(Max(0, a.time - penalty)))).(nNew := t.nNew + 1)
  }

  lemma {:induction false} NotedReady(k: Key, t: Tables, a: Address, source: NetAddr, penalty: int)
    requires Structure(k, t) && a.ip !in t.addr
    ensures var n := Noted(t, a, source, penalty);
      && t.idCount !in t.info && t.idCount in n.info
      && InvWith(k, Claimed(n, t.idCount), t.idCount) && Refs(n.news, t.idCount) == 0
  {
    CreatedInv(k, t, a, source, U32(Max(0, a.time - penalty)));
    CreatedIndexed(k, t, a, source);
    FreshHasNoRefs(t, t.idCount);
  }

  /** Add_: the new tables, and whether the address was new. */
  ghost function AddDone(k: Key, t: Tables, a: Address, source: NetAddr, penalty: int, now: int, r: Draws): (u: (Tables, bool))
    requires Structure(k, t)
    ensures Structure(k, u.0)
    ensures u.1 <==> k.routable(a.ip) && a.ip !in t.addr
  {
    if !k.routable(a.ip) then (t, false)
    else if a.ip in t.addr then
      (AddKnown(k, t, t.addr[a.ip], a, source, penalty, now, r), false)
    else
      NotedReady(k, t, a, source, penalty);
      (Gained(k, Noted(t, a, source, penalty), t.idCount, source, now, Skip(r, 1)), true)
  }

  lemma {:induction false} GainKeepsStats(t: Tables, u: Tables, id: int, v: int)
    requires Gain(t, u, id, v) && forall x :: x in t.info ==> StatsOk(t.info[x])
    ensures forall x :: x in u.info ==> StatsOk(u.info[x])
  {
    forall x | x in u.info ensures StatsOk(u.info[x]) {
      assert StatsOk(t.info[x]);
    }
  }

  lemma {:induction false} AddKeepsInv(k: Key, t: Tables, a: Address, source: NetAddr, penalty: int, now: int, r: Draws)
    requires Inv(k, t)
    ensures Inv(k, AddDone(k, t, a, source, penalty, now, r).0)
  {
    var u := AddDone(k, t, a, source, penalty, now, r).0;
    if k.routable(a.ip) {
      var id := if a.ip in t.addr then t.addr[a.ip] else t.idCount;
      var s := if a.ip in t.addr then WithInfo(t, id, Refreshed(t.info[id], a, penalty, now)) else Noted(t, a, source, penalty);
      var v :| Gain(s, u, id, v);
      AddKeepsStats(k, t, a, source, penalty, now);
      GainKeepsStats(s, u, id, v);
    }
  }

  lemma {:induction false} AddKeepsStats(k: Key, t: Tables, a: Address, source: NetAddr, penalty: int, now: int)
    requires Inv(k, t)
    ensures var s := if a.ip in t.addr then WithInfo(t, t.addr[a.ip], Refreshed(t.info[t.addr[a.ip]], a, penalty, now)) else Noted(t, a, source, penalty);
      forall x :: x in s.info ==> StatsOk(s.info[x])
  {
    if a.ip in t.addr {
      var id := t.addr[a.ip];
      assert id in t.info;
      assert StatsOk(t.info[id]);
    }
  }

  /** Every address but perhaps `gone` is still known, under the same id. */
  ghost predicate Remembers(t: Tables, u: Tables, gone: NetAddr) {
    forall ip :: ip in t.addr && ip != gone ==> ip in u.addr && u.addr[ip] == t.addr[ip]
  }

  lemma {:induction false} GainRemembers(t: Tables, s: Tables, u: Tables, id: int, v: int)
    requires Indexed(t) && Indexed(u) && Gain(s, u, id, v)
    requires forall x :: x in t.info ==> x in s.info && s.info[x].ip == t.info[x].ip
    ensures exists gone :: Remembers(t, u, gone)
  {
    var gone := if v in t.info then t.info[v].ip else 0;
    forall ip | ip in t.addr && ip != gone ensures ip in u.addr && u.addr[ip] == t.addr[ip] {
      var x := t.addr[ip];
      assert x in s.info && s.info[x].ip == t.info[x].ip;
      if x != v {
        assert x in u.info && u.info[x].ip == ip;
        assert IndexedAt(u, x);
      }
    }
    assert Remembers(t, u, gone);
  }

  /** An added routable address is known afterwards, and at most one other address is forgotten. */
  lemma {:induction false} AddRemembers(k: Key, t: Tables, a: Address, source: NetAddr, penalty: int, now: int, r: Draws)
    requires Structure(k, t) && k.routable(a.ip)
    ensures var u := AddDone(k, t, a, source, penalty, now, r).0;
      a.ip in u.addr && exists gone :: Remembers(t, u, gone)
  {
    var u := AddDone(k, t, a, source, penalty, now, r).0;
    var id := if a.ip in t.addr then t.addr[a.ip] else t.idCount;
    var s := if a.ip in t.addr then WithInfo(t, id, Refreshed(t.info[id], a, penalty, now)) else Noted(t, a, source, penalty);
    var v :| Gain(s, u, id, v);
    if a.ip !in t.addr {
      NotedKeeps(k, t, a, source, penalty);
    }
    assert s.info[id].ip == a.ip;
    assert IndexedAt(u, id);
    GainRemembers(t, s, u, id, v);
  }

  lemma {:induction false} NotedKeeps(k: Key, t: Tables, a: Address, source: NetAddr, penalty: int)
    requires Structure(k, t) && a.ip !in t.addr
    ensures var n := Noted(t, a, source, penalty);
      && t.idCount in n.info && n.info[t.idCount].ip == a.ip
      && forall x :: x in t.info ==> x in n.info && n.info[x].ip == t.info[x].ip
  {
    NotedReady(k, t, a, source, penalty);
  }

  // ---------------------------------------------------------------- GetAddr_

  const GETADDR_MAX_PCT := 23
  const GETADDR_MAX := 2500

  function GetAddrCount(known: nat): (n: nat)
    ensures n <= known && n <= GETADDR_MAX
  {
    Min(GETADDR_MAX, GETADDR_MAX_PCT * known / 100)
  }

  /** As many as 23 in a hundred of the known entries allow, but no more than 2500. */
  lemma {:induction false} GetAddrCountIs(known: nat)
    ensures var n := GetAddrCount(known);
      100 * n <= 23 * known && n <= 2500 && (n < 2500 ==> 100 * (n + 1) > 23 * known)
  {
  }

  /** GetAddr_'s shuffle from position n on. */
  function ShuffledFrom(t: Tables, r: Draws, n: nat, count: nat): (u: Tables)
    requires n <= count <= |t.random| && Known(t.info, t.random)
    ensures |u.random| == |t.random| && Known(u.info, u.random)
    decreases count - n, 1
  {
    if n == count then t else ShuffledOnce(t, r, n, count)
  }

  function ShuffledOnce(t: Tables, r: Draws, n: nat, count: nat): (u: Tables)
    requires n < count <= |t.random| && Known(t.info, t.random)
    ensures |u.random| == |t.random| && Known(u.info, u.random)
    decreases count - n, 0
  {
    ShuffledFrom(Swapped(t, n, RandInt(r(n), |t.random| - n) + n), r, n + 1, count)
  }

  lemma {:induction false} ShuffledKeeps(t: Tables, r: Draws, n: nat, count: nat)
    requires Indexed(t) && n <= count <= |t.random|
    ensures Known(t.info, t.random)
    ensures Indexed(ShuffledFrom(t, r, n, count)) && SameButOrder(t, ShuffledFrom(t, r, n, count))
    decreases count - n
  {
    if n < count {
      var u := ShuffleNext(t, r, n, count);
      ShuffledKeeps(u, r, n + 1, count);
      SameTransitive(t, u, ShuffledFrom(u, r, n + 1, count));
    } else {
      assert SameButOrder(t, t);
    }
  }

  lemma {:induction false} ShuffleNext(t: Tables, r: Draws, n: nat, count: nat) returns (u: Tables)
    requires Indexed(t) && n < count <= |t.random|
    ensures Indexed(u) && SameButOrder(t, u) && Known(t.info, t.random) && Known(u.info, u.random)
    ensures ShuffledFrom(t, r, n, count) == ShuffledFrom(u, r, n + 1, count)
  {
    var p := RandInt(r(n), |t.random| - n) + n;
    u := Swapped(t, n, p);
    SwappedIndexed(t, n, p);
    ShuffleStep(t, r, n, count, p, u);
  }

  lemma {:induction false} ShuffleStep(t: Tables, r: Draws, n: nat, count: nat, p: nat, u: Tables)
    requires Known(t.info, t.random) && n < count <= |t.random| && p == RandInt(r(n), |t.random| - n) + n
    requires u == Swapped(t, n, p) && Known(u.info, u.random) && |u.random| == |t.random|
    ensures ShuffledFrom(t, r, n, count) == ShuffledFrom(u, r, n + 1, count)
  {
    assert ShuffledOnce(t, r, n, count) == ShuffledFrom(u, r, n + 1, count);
  }

  lemma {:induction false} SameTransitive(t: Tables, u: Tables, v: Tables)
    requires SameButOrder(t, u) && SameButOrder(u, v)
    ensures SameButOrder(t, v)
  {
    forall id | id in t.info ensures v.info[id] == t.info[id].(randomPos := v.info[id].randomPos) {
      assert u.info[id] == t.info[id].(randomPos := u.info[id].randomPos);
    }
  }

  lemma {:induction false} ShuffledInv(k: Key, t: Tables, r: Draws, count: nat)
    requires Inv(k, t) && count <= |t.random|
    ensures Known(t.info, t.random) && Inv(k, ShuffledFrom(t, r, 0, count))
  {
    ShuffledKeeps(t, r, 0, count);
    var u := ShuffledFrom(t, r, 0, count);
    OrderKeepsInv(k, t, u, NONE);
    forall x | x in u.info ensures StatsOk(u.info[x]) {
      assert StatsOk(t.info[x]);
    }
  }

  // ---------------------------------------------------------------- whole runs

  datatype Operation =
    | Add(a: Address, source: NetAddr, penalty: int, now: int, r: Draws)
    | Good(ip: NetAddr, port: int, time: int, r: Draws)
    | Attempt(ip: NetAddr, port: int, time: int)
    | Connected(ip: NetAddr, port: int, time: int)
    | GetAddr(r: Draws)

  /** Good_ and Attempt_ are given a positive time. */
  predicate Timely(op: Operation) {
    match op
    case Good(_, _, time, _) => time > 0
    case Attempt(_, _, time) => time > 0
    case _ => true
  }

  ghost function Applied(k: Key, t: Tables, op: Operation): Tables
    requires Inv(k, t)
  {
    match op
    case Add(a, source, penalty, now, r) => AddDone(k, t, a, source, penalty, now, r).0
    case Good(ip, port, time, r) => GoodDone(k, t, ip, port, time, r)
    case Attempt(ip, port, time) => AttemptDone(t, ip, port, time)
    case Connected(ip, port, time) => ConnectedDone(t, ip, port, time)
    case GetAddr(r) => ShuffledFrom(t, r, 0, GetAddrCount(|t.random|))
  }

  lemma {:induction false} AppliedInv(k: Key, t: Tables, op: Operation)
    requires Inv(k, t) && Timely(op)
    ensures Inv(k, Applied(k, t, op))
  {
    match op
    case Add(a, source, penalty, now, r) => AddKeepsInv(k, t, a, source, penalty, now, r);
    case Good(ip, port, time, r) => GoodKeepsInv(k, t, ip, port, time, r);
    case Attempt(ip, port, time) => AttemptKeepsInv(k, t, ip, port, time);
    case Connected(ip, port, time) => ConnectedKeepsInv(k, t, ip, port, time);
    case GetAddr(r) => ShuffledInv(k, t, r, GetAddrCount(|t.random|));
  }

  /** The tables of a new CAddrMan. */
  function Empty(): Tables {
    Tables(0, map[], map[], [], 0, seq(TRIED_BUCKET_COUNT, _ => []), 0, seq(NEW_BUCKET_COUNT, _ => {}))
  }

  lemma {:induction false} EmptyInv(k: Key)
    ensures Inv(k, Empty())
  {
    assert NewIds(Empty().info) == {} && TriedIds(Empty().info) == {};
  }

  /** `states` are the tables from an empty start through all of `ops`. */
  ghost predicate IsHistory(k: Key, states: seq<Tables>, ops: seq<Operation>) {
    && |states| == |ops| + 1 && states[0] == Empty()
    && forall i :: 0 <= i < |ops| ==> AppliedAt(k, states, ops, i)
  }

  ghost predicate AppliedAt(k: Key, states: seq<Tables>, ops: seq<Operation>, i: nat)
    requires |states| == |ops| + 1 && i < |ops|
  {
    Timely(ops[i]) && (Inv(k, states[i]) ==> states[i + 1] == Applied(k, states[i], ops[i]))
  }

  /** Every run of operations with positive times, whatever is drawn, keeps the invariant. */
  lemma {:induction false} RunKeepsInv(k: Key, states: seq<Tables>, ops: seq<Operation>, i: nat)
    requires IsHistory(k, states, ops) && i < |states|
    ensures Inv(k, states[i])
  {
    if i == 0 {
      EmptyInv(k);
    } else {
      RunKeepsInv(k, states, ops, i - 1);
      assert AppliedAt(k, states, ops, i - 1);
      AppliedInv(k, states[i - 1], ops[i - 1]);
    }
  }
}
