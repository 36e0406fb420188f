/** The tables of the address manager (addrman.h) as a value, its invariant, and what each
    primitive change of addrman.cpp does to it. */
module AddrTables {
  import opened Basics

  const TRIED_BUCKET_COUNT := 64
  const TRIED_BUCKET_SIZE := 64
  const NEW_BUCKET_COUNT := 256
  const NEW_BUCKET_SIZE := 64
  const NEW_BUCKETS_PER_ADDRESS := 4
  const TRIED_ENTRIES_INSPECT_ON_EVICT := 4
  const HORIZON_DAYS := 30
  const RETRIES := 3
  const MAX_FAILURES := 10
  const MIN_FAIL_DAYS := 7
  const ONE_DAY := 86400
  const ONE_HOUR := 3600

  /** A CNetAddr: a network address without a port. */
  type NetAddr = int

  /** The secret key and the address predicates, as functions: the hashes behind GetNewBucket and
      GetTriedBucket, and IsRoutable. */
  datatype Key = Key(newHash: (NetAddr, NetAddr) -> nat, triedHash: (NetAddr, int) -> nat, routable: NetAddr -> bool)

  /** CAddress as callers give it: address, port, services and nTime. */
  datatype Address = Address(ip: NetAddr, port: int, services: bv64, time: int)

  /** CAddrInfo. */
  datatype Info = Info(ip: NetAddr, port: int, services: bv64, time: int, source: NetAddr,
                       lastTry: int, lastSuccess: int, attempts: int,
                       refCount: int, inTried: bool, randomPos: int)

  /** The fields of CAddrMan. */
  datatype Tables = Tables(idCount: int, info: map<int, Info>, addr: map<NetAddr, int>, random: seq<int>,
                           nTried: int, tried: seq<seq<int>>, nNew: int, news: seq<set<int>>)

  function NewBucket(k: Key, ip: NetAddr, source: NetAddr): (b: nat)
    ensures b < NEW_BUCKET_COUNT
  {
    k.newHash(ip, source) % NEW_BUCKET_COUNT
  }

  function TriedBucket(k: Key, i: Info): (b: nat)
    ensures b < TRIED_BUCKET_COUNT
  {
    k.triedHash(i.ip, i.port) % TRIED_BUCKET_COUNT
  }

  /** A value stored in nTime, which is an unsigned 32-bit field. */
  function U32(x: int): int { x % 0x1_0000_0000 }

  predicate IsTerrible(i: Info, now: int) {
    !(i.lastTry != 0 && i.lastTry >= now - 60) &&
    (|| i.time > now + 10 * 60
     || i.time == 0 || now - i.time > HORIZON_DAYS * 86400
     || (i.lastSuccess == 0 && i.attempts >= RETRIES)
     || (now - i.lastSuccess > MIN_FAIL_DAYS * 86400 && i.attempts >= MAX_FAILURES))
  }

  // ---------------------------------------------------------------- the invariant

  ghost function In(id: int, s: set<int>): nat { if id in s then 1 else 0 }

  /** How many "new" buckets hold an id. */
  ghost function Refs(news: seq<set<int>>, id: int): nat {
    if news == [] then 0 else Refs(news[..|news| - 1], id) + In(id, news[|news| - 1])
  }

  ghost predicate IndexedAt(t: Tables, id: int)
    requires id in t.info
  {
    var i := t.info[id];
    && id < t.idCount && i.ip in t.addr && t.addr[i.ip] == id
    && 0 <= i.randomPos < |t.random| && t.random[i.randomPos] == id
  }

  /** mapInfo, mapAddr and vRandom are mutually inverse. */
  ghost predicate Indexed(t: Tables) {
    && (forall id :: id in t.info ==> IndexedAt(t, id))
    && (forall ip :: ip in t.addr ==> t.addr[ip] in t.info && t.info[t.addr[ip]].ip == ip)
    && (forall i :: 0 <= i < |t.random| ==> t.random[i] in t.info && t.info[t.random[i]].randomPos == i)
  }

  /** A tried entry has no references; a new one has one to four. */
  predicate PlaceOk(i: Info) {
    if i.inTried then i.refCount == 0 else 1 <= i.refCount <= NEW_BUCKETS_PER_ADDRESS
  }

  /** A tried entry has had a success, and no time is negative. */
  predicate StatsOk(i: Info) {
    i.lastTry >= 0 && i.lastSuccess >= 0 && (i.inTried ==> i.lastSuccess != 0)
  }

  /** nRefCount of `id` counts the buckets that hold it, and one more while `pending` is `id`. */
  ghost predicate RefCountOk(t: Tables, id: int, pending: int)
    requires id in t.info
  {
    t.info[id].refCount == Refs(t.news, id) + (if id == pending then 1 else 0)
  }

  ghost predicate EntriesOk(t: Tables, pending: int) {
    forall id :: id in t.info ==> PlaceOk(t.info[id]) && RefCountOk(t, id, pending)
  }

  ghost predicate NewBucketOk(t: Tables, b: nat)
    requires b < |t.news|
  {
    |t.news[b]| <= NEW_BUCKET_SIZE && forall id :: id in t.news[b] ==> id in t.info
  }

  ghost predicate NewsOk(t: Tables) {
    |t.news| == NEW_BUCKET_COUNT && forall b :: 0 <= b < |t.news| ==> NewBucketOk(t, b)
  }

  ghost predicate TriedAt(k: Key, t: Tables, id: int, b: nat) {
    id in t.info && t.info[id].inTried && TriedBucket(k, t.info[id]) == b
  }

  ghost predicate TriedBucketOk(k: Key, t: Tables, b: nat)
    requires b < |t.tried|
  {
    && |t.tried[b]| <= TRIED_BUCKET_SIZE && Distinct(t.tried[b])
    && forall id :: id in t.tried[b] ==> TriedAt(k, t, id, b)
  }

  /** The tried buckets hold each tried entry once, in the bucket it hashes to, and nothing else. */
  ghost predicate TriedOk(k: Key, t: Tables) {
    && |t.tried| == TRIED_BUCKET_COUNT && (forall b :: 0 <= b < |t.tried| ==> TriedBucketOk(k, t, b))
    && forall id :: id in t.info && t.info[id].inTried ==> id in t.tried[TriedBucket(k, t.info[id])]
  }

  ghost function NewIds(info: map<int, Info>): set<int> { set id | id in info && !info[id].inTried }
  ghost function TriedIds(info: map<int, Info>): set<int> { set id | id in info && info[id].inTried }

  ghost predicate Counted(t: Tables) {
    t.nNew == |NewIds(t.info)| && t.nTried == |TriedIds(t.info)|
  }

  const NONE := -1

  ghost predicate InvWith(k: Key, t: Tables, pending: int) {
    Indexed(t) && EntriesOk(t, pending) && NewsOk(t) && TriedOk(k, t) && Counted(t) && t.idCount >= 0 && NONE !in t.info
  }

  /** The part of the invariant about the five indexes, which no sequence of times can break. */
  ghost predicate Structure(k: Key, t: Tables) {
    InvWith(k, t, NONE)
  }

  /** What Check_ checks, and the bucket bounds that the design comment promises. */
  ghost predicate Inv(k: Key, t: Tables) {
    Structure(k, t) && forall id :: id in t.info ==> StatsOk(t.info[id])
  }

  // ---------------------------------------------------------------- reference counts

  lemma {:induction false} RefsUpdate(news: seq<set<int>>, b: nat, s: set<int>, id: int)
    requires b < |news|
    ensures Refs(news[b := s], id) == Refs(news, id) - In(id, news[b]) + In(id, s)
  {
    var k := |news| - 1;
    if b == k {
      assert news[b := s][..k] == news[..k];
    } else {
      RefsUpdate(news[..k], b, s, id);
      assert news[b := s][..k] == news[..k][b := s];
    }
  }

  lemma {:induction false} RefsSame(a: seq<set<int>>, b: seq<set<int>>, id: int)
    requires |a| == |b| && forall i :: 0 <= i < |a| ==> (id in a[i] <==> id in b[i])
    ensures Refs(a, id) == Refs(b, id)
  {
    if a != [] {
      RefsSame(a[..|a| - 1], b[..|b| - 1], id);
    }
  }

  /** No references exactly when no bucket holds the id. */
  lemma {:induction false} RefsZero(news: seq<set<int>>, id: int)
    ensures Refs(news, id) == 0 <==> forall b :: 0 <= b < |news| ==> id !in news[b]
  {
    if news != [] {
      RefsZero(news[..|news| - 1], id);
      if Refs(news[..|news| - 1], id) != 0 {
        var b :| 0 <= b < |news| - 1 && id in news[..|news| - 1][b];
        assert id in news[b];
      }
    }
  }

  lemma {:induction false} FreshHasNoRefs(t: Tables, id: int)
    requires NewsOk(t) && id !in t.info
    ensures Refs(t.news, id) == 0
  {
    RefsZero(t.news, id);
    forall b | 0 <= b < |t.news| ensures id !in t.news[b] {
      assert NewBucketOk(t, b);
    }
  }

  /** The bucket contents change in one bucket: what that does to the reference counts of all. */
  lemma {:induction false} RefsUpdateAll(news: seq<set<int>>, b: nat, s: set<int>)
    requires b < |news|
    ensures forall id :: Refs(news[b := s], id) == Refs(news, id) - In(id, news[b]) + In(id, s)
  {
    forall id ensures Refs(news[b := s], id) == Refs(news, id) - In(id, news[b]) + In(id, s) {
      RefsUpdate(news, b, s, id);
    }
  }

  lemma {:induction false} RefsPrefix(news: seq<set<int>>, b: nat, x: int)
    requires b <= |news|
    ensures Refs(news[..b], x) <= Refs(news, x)
    decreases |news| - b
  {
    if b == |news| {
      assert news[..b] == news;
    } else {
      RefsPrefix(news, b + 1, x);
      assert news[..b + 1][..b] == news[..b];
    }
  }

  /** An id listed in bucket b has a reference that the earlier buckets do not account for. */
  lemma {:induction false} MoreRefs(k: Key, t: Tables, b: nat, x: int)
    requires Structure(k, t) && b < |t.news| && x in t.news[b]
    ensures x in t.info && Refs(t.news[..b], x) + 1 <= t.info[x].refCount
  {
    assert NewBucketOk(t, b);
    assert RefCountOk(t, x, NONE);
    RefsPrefix(t.news, b + 1, x);
    assert t.news[..b + 1][..b] == t.news[..b];
  }

  // ---------------------------------------------------------------- vRandom

  predicate CanSwap(t: Tables, p1: int, p2: int) {
    && 0 <= p1 < |t.random| && 0 <= p2 < |t.random|
    && t.random[p1] in t.info && t.random[p2] in t.info
  }

  /** SwapRandom. */
  function Swapped(t: Tables, p1: int, p2: int): Tables
    requires CanSwap(t, p1, p2)
  {
    if p1 == p2 then t
    else
      var a, b := t.random[p1], t.random[p2];
      var info := t.info[a := t.info[a].(randomPos := p2)];
      t.(info := info[b := info[b].(randomPos := p1)], random := t.random[p1 := b][p2 := a])
  }

  /** Everything but the positions in vRandom agrees. */
  ghost predicate SameButOrder(t: Tables, u: Tables) {
    && u == t.(info := u.info, random := u.random) && u.info.Keys == t.info.Keys
    && |u.random| == |t.random|
    && forall id :: id in t.info ==> u.info[id] == t.info[id].(randomPos := u.info[id].randomPos)
  }

  lemma {:induction false} SwappedIndexed(t: Tables, p1: int, p2: int)
    requires Indexed(t) && CanSwap(t, p1, p2)
    ensures Indexed(Swapped(t, p1, p2)) && SameButOrder(t, Swapped(t, p1, p2))
    ensures Swapped(t, p1, p2).random[p1] == t.random[p2] && Swapped(t, p1, p2).random[p2] == t.random[p1]
  {
    var u := Swapped(t, p1, p2);
    if p1 != p2 {
      forall id | id in u.info ensures IndexedAt(u, id) {
        assert IndexedAt(t, id);
      }
    }
  }

  lemma {:induction false} OrderKeepsInv(k: Key, t: Tables, u: Tables, pending: int)
    requires InvWith(k, t, pending) && SameButOrder(t, u) && Indexed(u)
    ensures InvWith(k, u, pending)
  {
    forall id | id in u.info ensures PlaceOk(u.info[id]) && RefCountOk(u, id, pending) {
      assert PlaceOk(t.info[id]) && RefCountOk(t, id, pending);
    }
    forall b | 0 <= b < |u.news| ensures NewBucketOk(u, b) {
      assert NewBucketOk(t, b);
    }
    OrderKeepsTried(k, t, u);
    forall id | id in t.info ensures u.info[id].inTried == t.info[id].inTried { }
    assert NewIds(u.info) == NewIds(t.info) && TriedIds(u.info) == TriedIds(t.info);
  }

  lemma {:induction false} OrderKeepsTried(k: Key, t: Tables, u: Tables)
    requires TriedOk(k, t) && SameButOrder(t, u)
    ensures TriedOk(k, u)
  {
    forall b | 0 <= b < |u.tried| ensures TriedBucketOk(k, u, b) {
      assert TriedBucketOk(k, t, b);
      forall id | id in u.tried[b] ensures TriedAt(k, u, id, b) {
        assert TriedAt(k, t, id, b);
      }
    }
  }

  // ---------------------------------------------------------------- dropping a reference

  /** Take an entry out of vRandom, mapAddr and mapInfo. */
  function Erased(t: Tables, id: int): Tables
    requires id in t.info && |t.random| > 0 && CanSwap(t, t.info[id].randomPos, |t.random| - 1)
  {
    var u := Swapped(t, t.info[id].randomPos, |t.random| - 1);
    u.(random := u.random[..|u.random| - 1], addr := u.addr - {t.info[id].ip}, info := u.info - {id}, nNew := u.nNew - 1)
  }

  lemma {:induction false} ErasedIndexed(t: Tables, id: int)
    requires Indexed(t) && id in t.info
    ensures |t.random| > 0 && CanSwap(t, t.info[id].randomPos, |t.random| - 1)
    ensures Indexed(Erased(t, id))
  {
    assert IndexedAt(t, id);
    var p := t.info[id].randomPos;
    var last := |t.random| - 1;
    SwappedIndexed(t, p, last);
    var u := Swapped(t, p, last);
    var e := Erased(t, id);
    forall x | x in e.info ensures IndexedAt(e, x) {
      assert IndexedAt(u, x) && IndexedAt(u, id);
      assert u.random[last] == id;
    }
    forall ip | ip in e.addr ensures e.addr[ip] in e.info && e.info[e.addr[ip]].ip == ip {
      assert ip in u.addr;
      assert IndexedAt(u, id);
    }
    forall i | 0 <= i < |e.random| ensures e.random[i] in e.info && e.info[e.random[i]].randomPos == i {
      assert u.random[i] in u.info && u.info[u.random[i]].randomPos == i;
      assert IndexedAt(u, id) && u.random[last] == id;
    }
  }

  /** Remove `id` from "new" bucket `b`, and from everywhere when that was its last reference. */
  function Unreferenced(t: Tables, b: nat, id: int): Tables
    requires id in t.info && |t.random| > 0 && CanSwap(t, t.info[id].randomPos, |t.random| - 1) && b < |t.news|
  {
    var dec := t.(info := t.info[id := t.info[id].(refCount := t.info[id].refCount - 1)]);
    var u := if dec.info[id].refCount == 0 then Erased(dec, id) else dec;
    u.(news := u.news[b := u.news[b] - {id}])
  }

  /** Every entry but `id` is still there and unchanged, up to its place in vRandom. */
  ghost predicate OthersKept(t: Tables, u: Tables, id: int) {
    && (forall x :: x in u.info ==> x in t.info)
    && forall x :: x in t.info && x != id ==>
        x in u.info && u.info[x] == t.info[x].(randomPos := u.info[x].randomPos)
  }

  /** In the "new" buckets only `id` in bucket `b` is gone, and nothing else changed. */
  ghost predicate RestKept(t: Tables, u: Tables, b: nat, id: int)
    requires b < |t.news|
  {
    u.news == t.news[b := t.news[b] - {id}] && u.tried == t.tried && u.nTried == t.nTried && u.idCount == t.idCount
  }

  /** `id` has one reference less, and is gone if that was its last. */
  ghost predicate LostReference(t: Tables, u: Tables, id: int) {
    && id in t.info && (id in u.info <==> t.info[id].refCount != 1)
    && (id in u.info ==> u.info[id] == t.info[id].(refCount := t.info[id].refCount - 1))
  }

  lemma {:induction false} ErasedKeepsOthers(t: Tables, id: int)
    requires id in t.info && |t.random| > 0 && CanSwap(t, t.info[id].randomPos, |t.random| - 1)
    ensures var e := Erased(t, id);
      forall x :: x in t.info && x != id ==> x in e.info && e.info[x] == t.info[x].(randomPos := e.info[x].randomPos)
  {
  }

  lemma {:induction false} UnreferencedShape(t: Tables, b: nat, id: int)
    requires Indexed(t) && id in t.info && b < |t.news|
    ensures |t.random| > 0 && CanSwap(t, t.info[id].randomPos, |t.random| - 1)
    ensures var u := Unreferenced(t, b, id);
      && Indexed(u) && OthersKept(t, u, id) && RestKept(t, u, b, id) && LostReference(t, u, id)
      && u.nNew == t.nNew - (if t.info[id].refCount == 1 then 1 else 0)
  {
    assert IndexedAt(t, id);
    var dec := t.(info := t.info[id := t.info[id].(refCount := t.info[id].refCount - 1)]);
    forall x | x in dec.info ensures IndexedAt(dec, x) {
      assert IndexedAt(t, x);
    }
    assert Indexed(dec);
    if dec.info[id].refCount == 0 {
      ErasedIndexed(dec, id);
      SwappedIndexed(dec, dec.info[id].randomPos, |dec.random| - 1);
      ErasedKeepsOthers(dec, id);
      SameIndexes(Erased(dec, id), Unreferenced(t, b, id));
    } else {
      SameIndexes(dec, Unreferenced(t, b, id));
    }
  }

  /** The indexes depend only on the address and the vRandom position of each entry. */
  lemma {:induction false} SameIndexes(t: Tables, u: Tables)
    requires Indexed(t) && u.addr == t.addr && u.random == t.random && u.idCount == t.idCount
    requires u.info.Keys == t.info.Keys
    requires forall x :: x in t.info ==> u.info[x].ip == t.info[x].ip && u.info[x].randomPos == t.info[x].randomPos
    ensures Indexed(u)
  {
    forall x | x in u.info ensures IndexedAt(u, x) {
      assert IndexedAt(t, x);
    }
    forall ip | ip in u.addr ensures u.addr[ip] in u.info && u.info[u.addr[ip]].ip == ip {
      var x := t.addr[ip];
      assert x in t.info && u.info[x].ip == t.info[x].ip;
    }
    forall i | 0 <= i < |u.random| ensures u.random[i] in u.info && u.info[u.random[i]].randomPos == i {
      var x := t.random[i];
      assert x in t.info && u.info[x].randomPos == t.info[x].randomPos;
    }
  }

  lemma {:induction false} UnreferencedEntries(k: Key, t: Tables, b: nat, id: int, pending: int)
    requires InvWith(k, t, pending) && b < NEW_BUCKET_COUNT && id in t.news[b] && id in t.info && id != pending
    requires |t.random| > 0 && CanSwap(t, t.info[id].randomPos, |t.random| - 1)
    ensures EntriesOk(Unreferenced(t, b, id), pending) && NewsOk(Unreferenced(t, b, id))
    ensures !t.info[id].inTried
  {
    var u := Unreferenced(t, b, id);
    UnreferencedShape(t, b, id);
    RefsUpdateAll(t.news, b, t.news[b] - {id});
    RefsZero(t.news, id);
    assert RefCountOk(t, id, pending) && PlaceOk(t.info[id]);
    forall x | x in u.info ensures PlaceOk(u.info[x]) && RefCountOk(u, x, pending) {
      assert RefCountOk(t, x, pending) && PlaceOk(t.info[x]);
    }
    RefsZero(u.news, id);
    forall c | 0 <= c < |u.news| ensures NewBucketOk(u, c) {
      assert NewBucketOk(t, c);
      forall x | x in u.news[c] ensures x in u.info {
        assert x in t.info;
      }
    }
  }

  lemma {:induction false} UnreferencedTried(k: Key, t: Tables, u: Tables, id: int)
    requires TriedOk(k, t) && OthersKept(t, u, id) && u.tried == t.tried && id in t.info && !t.info[id].inTried
    requires id in u.info ==> !u.info[id].inTried
    ensures TriedOk(k, u) && TriedIds(u.info) == TriedIds(t.info)
    ensures NewIds(u.info) + {id} == NewIds(t.info)
  {
    forall b | 0 <= b < |u.tried| ensures TriedBucketOk(k, u, b) {
      assert TriedBucketOk(k, t, b);
      forall x | x in u.tried[b] ensures TriedAt(k, u, x, b) {
        assert TriedAt(k, t, x, b);
      }
    }
    forall x | x in t.info && x != id ensures x in u.info && u.info[x].inTried == t.info[x].inTried { }
    forall x ensures x in TriedIds(u.info) <==> x in TriedIds(t.info) { }
    forall x ensures x in NewIds(u.info) + {id} <==> x in NewIds(t.info) { }
  }

  /** Dropping a reference keeps the invariant; the entry itself goes exactly when it was the last. */
  lemma {:induction false} UnreferencedInv(k: Key, t: Tables, b: nat, id: int, pending: int)
    requires InvWith(k, t, pending) && b < NEW_BUCKET_COUNT && id in t.news[b] && id != pending
    ensures id in t.info && |t.random| > 0 && CanSwap(t, t.info[id].randomPos, |t.random| - 1)
    ensures var u := Unreferenced(t, b, id);
      InvWith(k, u, pending) && OthersKept(t, u, id) && RestKept(t, u, b, id) && LostReference(t, u, id)
  {
    assert NewBucketOk(t, b);
    UnreferencedShape(t, b, id);
    UnreferencedEntries(k, t, b, id, pending);
    var u := Unreferenced(t, b, id);
    UnreferencedTried(k, t, u, id);
    if t.info[id].refCount == 1 {
      assert id !in NewIds(u.info);
    } else {
      assert id in NewIds(u.info);
      assert NewIds(u.info) == NewIds(t.info);
    }
  }

  // ---------------------------------------------------------------- updating one entry

  /** `i` and `j` differ at most in services, times and attempts. */
  predicate SamePlace(i: Info, j: Info) {
    i.ip == j.ip && i.port == j.port && i.refCount == j.refCount && i.inTried == j.inTried && i.randomPos == j.randomPos
  }

  function WithInfo(t: Tables, id: int, i: Info): Tables {
    t.(info := t.info[id := i])
  }

  /** Changing statistics keeps the structure. */
  lemma {:induction false} WithInfoStructure(k: Key, t: Tables, id: int, i: Info)
    requires Structure(k, t) && id in t.info && SamePlace(i, t.info[id])
    ensures Structure(k, WithInfo(t, id, i))
  {
    var u := WithInfo(t, id, i);
    SameIndexes(t, u);
    forall x | x in u.info ensures PlaceOk(u.info[x]) && RefCountOk(u, x, NONE) {
      assert PlaceOk(t.info[x]) && RefCountOk(t, x, NONE);
    }
    forall b | 0 <= b < |u.news| ensures NewBucketOk(u, b) {
      assert NewBucketOk(t, b);
    }
    WithInfoTried(k, t, id, i);
  }

  lemma {:induction false} WithInfoTried(k: Key, t: Tables, id: int, i: Info)
    requires TriedOk(k, t) && id in t.info && SamePlace(i, t.info[id])
    ensures TriedOk(k, WithInfo(t, id, i))
    ensures NewIds(WithInfo(t, id, i).info) == NewIds(t.info) && TriedIds(WithInfo(t, id, i).info) == TriedIds(t.info)
  {
    var u := WithInfo(t, id, i);
    forall b | 0 <= b < |u.tried| ensures TriedBucketOk(k, u, b) {
      assert TriedBucketOk(k, t, b);
      forall x | x in u.tried[b] ensures TriedAt(k, u, x, b) {
        assert TriedAt(k, t, x, b);
      }
    }
  }

  // ---------------------------------------------------------------- a new entry, a new reference

  function NewInfo(a: Address, source: NetAddr, randomPos: int): Info {
    Info(a.ip, a.port, a.services, a.time, source, 0, 0, 0, 0, false, randomPos)
  }

  /** Create. */
  function Created(t: Tables, a: Address, source: NetAddr): Tables {
    t.(idCount := t.idCount + 1, info := t.info[t.idCount := NewInfo(a, source, |t.random|)],
       addr := t.addr[a.ip := t.idCount], random := t.random + [t.idCount])
  }

  /** nRefCount++, ahead of the insertion into a bucket. */
  function Claimed(t: Tables, id: int): Tables
    requires id in t.info
  {
    WithInfo(t, id, t.info[id].(refCount := t.info[id].refCount + 1))
  }

  function Held(t: Tables, b: nat, id: int): Tables
    requires b < |t.news|
  {
    t.(news := t.news[b := t.news[b] + {id}])
  }

  lemma {:induction false} CreatedIndexed(k: Key, t: Tables, a: Address, source: NetAddr)
    requires Structure(k, t) && a.ip !in t.addr
    ensures Indexed(Created(t, a, source)) && t.idCount !in t.info
  {
    var u := Created(t, a, source);
    forall x | x in t.info ensures x < t.idCount {
      assert IndexedAt(t, x);
    }
    forall x | x in u.info ensures IndexedAt(u, x) {
      if x in t.info {
        assert IndexedAt(t, x);
      }
    }
  }

  /** An unchanged entry of unchanged buckets stays in order. */
  lemma {:induction false} SameEntryOk(t: Tables, u: Tables, x: int, pending: int)
    requires x in t.info && x in u.info && u.info[x] == t.info[x] && u.news == t.news && x != pending
    requires PlaceOk(t.info[x]) && RefCountOk(t, x, NONE) && x != NONE
    ensures PlaceOk(u.info[x]) && RefCountOk(u, x, pending)
  {
  }

  /** One more entry, in no bucket yet. */
  lemma {:induction false} OneMoreInv(k: Key, t: Tables, u: Tables, id: int)
    requires Structure(k, t) && Indexed(u) && id >= 0 && id !in t.info && Refs(t.news, id) == 0
    requires u.info.Keys == t.info.Keys + {id} && forall x :: x in t.info ==> u.info[x] == t.info[x]
    requires u.info[id].refCount == 1 && !u.info[id].inTried && u.idCount >= 0
    requires u.news == t.news && u.tried == t.tried && u.nTried == t.nTried && u.nNew == t.nNew + 1
    ensures InvWith(k, u, id)
  {
    forall x | x in u.info ensures PlaceOk(u.info[x]) && RefCountOk(u, x, id) {
      if x != id {
        SameEntryOk(t, u, x, id);
      }
    }
    forall b | 0 <= b < |u.news| ensures NewBucketOk(u, b) {
      assert NewBucketOk(t, b);
    }
    CreatedTried(k, t, u, id);
  }

  /** A new entry, with its first reference claimed but in no bucket yet. */
  lemma {:induction false} CreatedInv(k: Key, t: Tables, a: Address, source: NetAddr, time: int)
    requires Structure(k, t) && a.ip !in t.addr
    ensures var id := t.idCount; var c := Created(t, a, source);
      InvWith(k, Claimed(WithInfo(c, id, c.info[id].(time := time)).(nNew := t.nNew + 1), id), id)
  {
    var id := t.idCount;
    var c := Created(t, a, source);
    var u := Claimed(WithInfo(c, id, c.info[id].(time := time)).(nNew := t.nNew + 1), id);
    CreatedIndexed(k, t, a, source);
    SameIndexes(c, u);
    FreshHasNoRefs(t, id);
    OneMoreInv(k, t, u, id);
  }

  lemma {:induction false} CreatedTried(k: Key, t: Tables, u: Tables, id: int)
    requires TriedOk(k, t) && Counted(t) && u.tried == t.tried && id !in t.info
    requires u.info.Keys == t.info.Keys + {id} && !u.info[id].inTried
    requires forall x :: x in t.info ==> u.info[x] == t.info[x]
    requires u.nTried == t.nTried && u.nNew == t.nNew + 1
    ensures TriedOk(k, u) && Counted(u)
  {
    forall b | 0 <= b < |u.tried| ensures TriedBucketOk(k, u, b) {
      assert TriedBucketOk(k, t, b);
      forall x | x in u.tried[b] ensures TriedAt(k, u, x, b) {
        assert TriedAt(k, t, x, b);
      }
    }
    CreatedIds(t.info, u.info, id);
  }

  lemma {:induction false} CreatedIds(a: map<int, Info>, b: map<int, Info>, id: int)
    requires id !in a && b.Keys == a.Keys + {id} && !b[id].inTried && forall x :: x in a ==> b[x] == a[x]
    ensures NewIds(b) == NewIds(a) + {id} && |NewIds(b)| == |NewIds(a)| + 1 && TriedIds(b) == TriedIds(a)
  {
    forall x ensures x in NewIds(b) <==> x in NewIds(a) + {id} {
      assert x in b <==> x in a || x == id;
    }
    SameTriedIds(a, b, id);
  }

  lemma {:induction false} SameTriedIds(a: map<int, Info>, b: map<int, Info>, id: int)
    requires id !in a && b.Keys == a.Keys + {id} && !b[id].inTried && forall x :: x in a ==> b[x] == a[x]
    ensures TriedIds(b) == TriedIds(a)
  {
    forall x ensures x in TriedIds(b) <==> x in TriedIds(a) {
      assert x in b <==> x in a || x == id;
    }
  }

  lemma {:induction false} ClaimedInv(k: Key, t: Tables, id: int)
    requires Structure(k, t) && id in t.info && !t.info[id].inTried && t.info[id].refCount != NEW_BUCKETS_PER_ADDRESS
    ensures InvWith(k, Claimed(t, id), id)
  {
    var u := Claimed(t, id);
    SameIndexes(t, u);
    assert PlaceOk(t.info[id]);
    forall x | x in u.info ensures PlaceOk(u.info[x]) && RefCountOk(u, x, id) {
      assert PlaceOk(t.info[x]) && RefCountOk(t, x, NONE);
    }
    forall b | 0 <= b < |u.news| ensures NewBucketOk(u, b) {
      assert NewBucketOk(t, b);
    }
    forall b | 0 <= b < |u.tried| ensures TriedBucketOk(k, u, b) {
      assert TriedBucketOk(k, t, b);
      forall x | x in u.tried[b] ensures TriedAt(k, u, x, b) {
        assert TriedAt(k, t, x, b);
      }
    }
    assert NewIds(u.info) == NewIds(t.info) && TriedIds(u.info) == TriedIds(t.info);
  }

  lemma {:induction false} HeldInv(k: Key, t: Tables, b: nat, id: int)
    requires b < NEW_BUCKET_COUNT && InvWith(k, t, id) && id in t.info
    requires id !in t.news[b] && |t.news[b]| < NEW_BUCKET_SIZE
    ensures Structure(k, Held(t, b, id))
  {
    var u := Held(t, b, id);
    SameIndexes(t, u);
    RefsUpdateAll(t.news, b, t.news[b] + {id});
    forall x | x in u.info ensures PlaceOk(u.info[x]) && RefCountOk(u, x, NONE) {
      assert RefCountOk(t, x, id);
    }
    forall c | 0 <= c < |u.news| ensures NewBucketOk(u, c) {
      assert NewBucketOk(t, c);
    }
    forall c | 0 <= c < |u.tried| ensures TriedBucketOk(k, u, c) {
      assert TriedBucketOk(k, t, c);
      forall x | x in u.tried[c] ensures TriedAt(k, u, x, c) {
        assert TriedAt(k, t, x, c);
      }
    }
  }

  // ---------------------------------------------------------------- from "new" to "tried"

  /** Take an entry out of every "new" bucket. */
  ghost function Unlisted(t: Tables, id: int): Tables
    requires id in t.info
  {
    t.(news := Without(t.news, id), nNew := t.nNew - 1,
       info := t.info[id := t.info[id].(refCount := t.info[id].refCount - Refs(t.news, id))])
  }

  function Without(news: seq<set<int>>, id: int): (r: seq<set<int>>)
    ensures |r| == |news| && forall b :: 0 <= b < |r| ==> r[b] == news[b] - {id}
  {
    seq(|news|, b requires 0 <= b < |news| => news[b] - {id})
  }

  /** The invariant while `id` is in no bucket at all. */
  ghost predicate Loose(k: Key, t: Tables, id: int) {
    && Indexed(t) && NewsOk(t) && TriedOk(k, t) && t.idCount >= 0 && NONE !in t.info
    && id in t.info && !t.info[id].inTried && t.info[id].refCount == 0
    && Refs(t.news, id) == 0
    && (forall x :: x in t.info && x != id ==> PlaceOk(t.info[x]) && RefCountOk(t, x, NONE))
    && t.nNew == |NewIds(t.info)| - 1 && t.nTried == |TriedIds(t.info)|
  }

  lemma {:induction false} UnlistedLoose(k: Key, t: Tables, id: int)
    requires Structure(k, t) && id in t.info && !t.info[id].inTried
    ensures Loose(k, Unlisted(t, id), id)
  {
    var u := Unlisted(t, id);
    SameIndexes(t, u);
    assert RefCountOk(t, id, NONE) && PlaceOk(t.info[id]);
    RefsZero(u.news, id);
    forall x | x in u.info && x != id ensures PlaceOk(u.info[x]) && RefCountOk(u, x, NONE) {
      assert PlaceOk(t.info[x]) && RefCountOk(t, x, NONE);
      RefsSame(t.news, u.news, x);
    }
    forall b | 0 <= b < |u.news| ensures NewBucketOk(u, b) {
      assert NewBucketOk(t, b);
      SubsetSize(u.news[b], t.news[b]);
    }
    forall b | 0 <= b < |u.tried| ensures TriedBucketOk(k, u, b) {
      assert TriedBucketOk(k, t, b);
      forall x | x in u.tried[b] ensures TriedAt(k, u, x, b) {
        assert TriedAt(k, t, x, b);
      }
    }
    assert NewIds(u.info) == NewIds(t.info) && TriedIds(u.info) == TriedIds(t.info);
  }

  lemma {:induction false} SubsetSize<T>(a: set<T>, b: set<T>)
    requires a <= b
    ensures |a| <= |b|
  {
    assert b == a + (b - a);
  }

  /** Append an entry to the tried bucket it hashes to. */
  function Placed(k: Key, t: Tables, id: int): Tables
    requires id in t.info && |t.tried| == TRIED_BUCKET_COUNT
  {
    var kb := TriedBucket(k, t.info[id]);
    t.(tried := t.tried[kb := t.tried[kb] + [id]], nTried := t.nTried + 1,
       info := t.info[id := t.info[id].(inTried := true)])
  }

  lemma {:induction false} PlacedTried(k: Key, t: Tables, id: int)
    requires Loose(k, t, id) && |t.tried[TriedBucket(k, t.info[id])]| < TRIED_BUCKET_SIZE
    ensures TriedOk(k, Placed(k, t, id))
  {
    var u := Placed(k, t, id);
    var kb := TriedBucket(k, t.info[id]);
    forall b | 0 <= b < |u.tried| ensures TriedBucketOk(k, u, b) {
      assert TriedBucketOk(k, t, b);
      forall x | x in u.tried[b] ensures TriedAt(k, u, x, b) {
        assert x in t.tried[b] ==> TriedAt(k, t, x, b);
      }
      if b == kb {
        assert id in t.tried[b] ==> TriedAt(k, t, id, b);
        AppendDistinct(t.tried[b], id);
      }
    }
    forall x | x in u.info && u.info[x].inTried ensures x in u.tried[TriedBucket(k, u.info[x])] {
      if x != id {
        assert x in t.tried[TriedBucket(k, t.info[x])];
      } else {
        assert u.tried[kb][|t.tried[kb]|] == id;
      }
    }
  }

  lemma {:induction false} AppendDistinct<T>(s: seq<T>, x: T)
    requires Distinct(s) && x !in s
    ensures Distinct(s + [x])
  {
  }

  lemma {:induction false} PlacedInv(k: Key, t: Tables, id: int)
    requires Loose(k, t, id) && |t.tried[TriedBucket(k, t.info[id])]| < TRIED_BUCKET_SIZE
    ensures Structure(k, Placed(k, t, id))
  {
    var u := Placed(k, t, id);
    SameIndexes(t, u);
    forall x | x in u.info ensures PlaceOk(u.info[x]) && RefCountOk(u, x, NONE) {
      assert x != id ==> PlaceOk(t.info[x]) && RefCountOk(t, x, NONE);
    }
    forall b | 0 <= b < |u.news| ensures NewBucketOk(u, b) {
      assert NewBucketOk(t, b);
    }
    PlacedTried(k, t, id);
    assert NewIds(u.info) == NewIds(t.info) - {id};
    assert TriedIds(u.info) == TriedIds(t.info) + {id};
  }

  /** Where an evicted entry goes back to: its own "new" bucket, or else the one `id` came from. */
  function ReturnBucket(k: Key, t: Tables, gone: int, origin: nat): (b: nat)
    requires gone in t.info && |t.news| == NEW_BUCKET_COUNT && origin < NEW_BUCKET_COUNT
    ensures b < NEW_BUCKET_COUNT
  {
    var own := NewBucket(k, t.info[gone].ip, t.info[gone].source);
    if |t.news[own]| < NEW_BUCKET_SIZE then own else origin
  }

  /** Put `id` in place of the entry at `pos` of its (reordered) tried bucket, and that entry back
      into a "new" bucket. */
  function Evicted(k: Key, t: Tables, id: int, origin: nat, bucket: seq<int>, pos: nat): Tables
    requires id in t.info && |t.tried| == TRIED_BUCKET_COUNT && |t.news| == NEW_BUCKET_COUNT && origin < NEW_BUCKET_COUNT
    requires pos < |bucket| && bucket[pos] in t.info
  {
    var kb := TriedBucket(k, t.info[id]);
    var gone := bucket[pos];
    var b := ReturnBucket(k, t, gone, origin);
    var info := t.info[gone := t.info[gone].(inTried := false, refCount := 1)];
    t.(news := t.news[b := t.news[b] + {gone}], nNew := t.nNew + 1,
       tried := t.tried[kb := bucket[pos := id]],
       info := info[id := info[id].(inTried := true)])
  }

  /** The same elements in another order. */
  ghost predicate Permuted<T>(a: seq<T>, b: seq<T>) {
    |a| == |b| && multiset(a) == multiset(b)
  }

  lemma {:induction false} DistinctCount<T>(s: seq<T>, x: T)
    requires Distinct(s)
    ensures multiset(s)[x] <= 1
  {
    if s != [] {
      var k := |s| - 1;
      assert s == s[..k] + [s[k]];
      DistinctCount(s[..k], x);
      assert s[k] !in s[..k];
    }
  }

  lemma {:induction false} PermutedDistinct<T>(a: seq<T>, b: seq<T>)
    requires Permuted(a, b) && Distinct(a)
    ensures Distinct(b) && forall x :: x in b <==> x in a
  {
    forall x ensures x in b <==> x in a {
      assert x in b <==> x in multiset(b);
    }
    forall i, j | 0 <= i < j < |b| ensures b[i] != b[j] {
      DistinctCount(a, b[j]);
      assert b == b[..j] + b[j..];
      assert b[j] in b[j..];
      assert b[i] in b[..j];
    }
  }

  /** What Evicted needs to know about the evicted entry. */
  lemma {:induction false} GoneIsTried(k: Key, t: Tables, id: int, bucket: seq<int>, pos: nat)
    requires Loose(k, t, id) && Permuted(t.tried[TriedBucket(k, t.info[id])], bucket) && pos < |bucket|
    ensures var gone := bucket[pos];
      && gone in t.info && t.info[gone].inTried && gone != id && Refs(t.news, gone) == 0
      && TriedBucket(k, t.info[gone]) == TriedBucket(k, t.info[id])
  {
    var kb := TriedBucket(k, t.info[id]);
    assert TriedBucketOk(k, t, kb);
    PermutedDistinct(t.tried[kb], bucket);
    assert TriedAt(k, t, bucket[pos], kb);
    assert PlaceOk(t.info[bucket[pos]]) && RefCountOk(t, bucket[pos], NONE);
  }

  lemma {:induction false} EvictedTried(k: Key, t: Tables, id: int, origin: nat, bucket: seq<int>, pos: nat)
    requires Loose(k, t, id) && Permuted(t.tried[TriedBucket(k, t.info[id])], bucket) && pos < |bucket|
    requires origin < NEW_BUCKET_COUNT && bucket[pos] in t.info
    ensures TriedOk(k, Evicted(k, t, id, origin, bucket, pos))
  {
    var u := Evicted(k, t, id, origin, bucket, pos);
    var kb := TriedBucket(k, t.info[id]);
    var gone := bucket[pos];
    GoneIsTried(k, t, id, bucket, pos);
    assert TriedBucketOk(k, t, kb);
    PermutedDistinct(t.tried[kb], bucket);
    forall b | 0 <= b < |u.tried| ensures TriedBucketOk(k, u, b) {
      assert TriedBucketOk(k, t, b);
      EvictedBucket(k, t, id, origin, bucket, pos, b);
    }
    forall x | x in u.info && u.info[x].inTried ensures x in u.tried[TriedBucket(k, u.info[x])] {
      if x == id {
        assert u.tried[kb][pos] == id;
      } else {
        assert x in t.tried[TriedBucket(k, t.info[x])];
        if TriedBucket(k, t.info[x]) == kb {
          var i :| 0 <= i < |bucket| && bucket[i] == x;
          assert u.tried[kb][i] == x;
        }
      }
    }
  }

  lemma {:induction false} EvictedBucket(k: Key, t: Tables, id: int, origin: nat, bucket: seq<int>, pos: nat, b: nat)
    requires Loose(k, t, id) && Permuted(t.tried[TriedBucket(k, t.info[id])], bucket) && pos < |bucket|
    requires origin < NEW_BUCKET_COUNT && bucket[pos] in t.info && b < TRIED_BUCKET_COUNT
    ensures TriedBucketOk(k, Evicted(k, t, id, origin, bucket, pos), b)
  {
    var u := Evicted(k, t, id, origin, bucket, pos);
    var kb := TriedBucket(k, t.info[id]);
    GoneIsTried(k, t, id, bucket, pos);
    assert TriedBucketOk(k, t, kb);
    PermutedDistinct(t.tried[kb], bucket);
    assert TriedBucketOk(k, t, b);
    assert id in t.tried[b] ==> TriedAt(k, t, id, b);
    if b == kb {
      ReplaceDistinct(bucket, pos, id);
    }
    forall x | x in u.tried[b] ensures TriedAt(k, u, x, b) {
      assert x in t.tried[b] ==> TriedAt(k, t, x, b);
    }
  }

  lemma {:induction false} ReplaceDistinct<T>(s: seq<T>, pos: nat, x: T)
    requires Distinct(s) && x !in s && pos < |s|
    ensures Distinct(s[pos := x]) && s[pos] !in s[pos := x]
    ensures forall y :: y in s[pos := x] ==> y == x || (y in s && y != s[pos])
  {
  }

  lemma {:induction false} EvictedEntries(k: Key, t: Tables, id: int, origin: nat, bucket: seq<int>, pos: nat)
    requires Loose(k, t, id) && Permuted(t.tried[TriedBucket(k, t.info[id])], bucket) && pos < |bucket|
    requires origin < NEW_BUCKET_COUNT && |t.news[origin]| < NEW_BUCKET_SIZE && bucket[pos] in t.info
    ensures EntriesOk(Evicted(k, t, id, origin, bucket, pos), NONE) && NewsOk(Evicted(k, t, id, origin, bucket, pos))
  {
    var u := Evicted(k, t, id, origin, bucket, pos);
    var gone := bucket[pos];
    var b := ReturnBucket(k, t, gone, origin);
    GoneIsTried(k, t, id, bucket, pos);
    RefsUpdateAll(t.news, b, t.news[b] + {gone});
    RefsZero(t.news, gone);
    forall x | x in u.info ensures PlaceOk(u.info[x]) && RefCountOk(u, x, NONE) {
      assert x != id ==> PlaceOk(t.info[x]) && RefCountOk(t, x, NONE);
    }
    forall c | 0 <= c < |u.news| ensures NewBucketOk(u, c) {
      assert NewBucketOk(t, c);
    }
  }

  lemma {:induction false} EvictedInv(k: Key, t: Tables, id: int, origin: nat, bucket: seq<int>, pos: nat)
    requires Loose(k, t, id) && Permuted(t.tried[TriedBucket(k, t.info[id])], bucket) && pos < |bucket|
    requires origin < NEW_BUCKET_COUNT && |t.news[origin]| < NEW_BUCKET_SIZE
    ensures bucket[pos] in t.info && Structure(k, Evicted(k, t, id, origin, bucket, pos))
  {
    GoneIsTried(k, t, id, bucket, pos);
    var u := Evicted(k, t, id, origin, bucket, pos);
    SameIndexes(t, u);
    EvictedEntries(k, t, id, origin, bucket, pos);
    EvictedTried(k, t, id, origin, bucket, pos);
    SwapIds(t.info, u.info, id, bucket[pos]);
  }

  lemma {:induction false} SwapIds(a: map<int, Info>, b: map<int, Info>, id: int, gone: int)
    requires id in a && gone in a && id != gone && a.Keys == b.Keys
    requires !a[id].inTried && a[gone].inTried && b[id].inTried && !b[gone].inTried
    requires forall x :: x in a && x != id && x != gone ==> b[x].inTried == a[x].inTried
    ensures |NewIds(b)| == |NewIds(a)| && |TriedIds(b)| == |TriedIds(a)|
  {
    assert NewIds(b) == NewIds(a) - {id} + {gone};
    assert TriedIds(b) == TriedIds(a) - {gone} + {id};
  }
}
