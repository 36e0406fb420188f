/** Writing the address manager to disk and reading it back (addrman.h): only the entries and the
    "new" buckets are written; ids are renumbered and every index is rebuilt. */
module PeersFile {
  import opened Basics
  import opened StdOrder
  import opened AddrTables

  /** The part of a CAddrInfo that is serialized. */
  datatype Saved = Saved(ip: NetAddr, port: int, services: bv64, time: int, source: NetAddr,
                         lastSuccess: int, attempts: int)

  /** The serialized fields in order; the key is written too, and the same key reads them back. */
  datatype Peers = Peers(nNew: int, nTried: int, nUBuckets: int,
                         newInfos: seq<Saved>, triedInfos: seq<Saved>, buckets: seq<seq<int>>)

  function Persist(i: Info): Saved {
    Saved(i.ip, i.port, i.services, i.time, i.source, i.lastSuccess, i.attempts)
  }

  /** An entry as it is read: what is not serialized has its initial value. */
  function Restore(s: Saved): Info {
    Info(s.ip, s.port, s.services, s.time, s.source, 0, s.lastSuccess, s.attempts, 0, false, NONE)
  }

  // ---------------------------------------------------------------- writing

  /** The entries of one kind: tried, or with references. */
  predicate Wanted(i: Info, tried: bool) {
    if tried then i.inTried else i.refCount != 0
  }

  /** `order` lists ids of one kind among `seen`; their entries and numbers are recorded. */
  ghost predicate Gathered(t: Tables, seen: seq<int>, tried: bool, order: seq<int>, infos: seq<Saved>, unk: map<int, int>) {
    && Distinct(order) && |infos| == |order|
    && (forall x :: x in order <==> x in seen && x in t.info && Wanted(t.info[x], tried))
    && (forall x :: x in unk ==> x in seen)
    && (forall j :: 0 <= j < |order| ==> order[j] in t.info && infos[j] == Persist(t.info[order[j]]))
    && (forall j :: 0 <= j < |order| ==> order[j] in unk && unk[order[j]] == j)
  }

  lemma {:induction false} GatherNext(t: Tables, q: seq<int>, i: nat, tried: bool, order: seq<int>, infos: seq<Saved>, unk: map<int, int>)
    requires Increasing(q) && i < |q| && q[i] in t.info && Gathered(t, q[..i], tried, order, infos, unk)
    ensures var id := q[i]; var u := unk[id := |order|];
      if Wanted(t.info[id], tried) then Gathered(t, q[..i + 1], tried, order + [id], infos + [Persist(t.info[id])], u)
      else Gathered(t, q[..i + 1], tried, order, infos, u)
  {
    var id := q[i];
    assert id !in q[..i];
    assert id !in order;
    assert q[..i + 1] == q[..i] + [id];
  }

  /** One of the two loops over mapInfo that write entries, and the numbers it gives them. */
  method WriteEntries(t: Tables, tried: bool, limit: int) returns (infos: seq<Saved>, unk: map<int, int>, ghost order: seq<int>)
    ensures limit == |WantedIds(t, tried)| ==> Gathered(t, Ascending(t.info.Keys), tried, order, infos, unk)
  {
    var q := Iterate(t.info.Keys);
    infos, unk, order := [], map[], [];
    for i := 0 to |q|
      invariant Gathered(t, q[..i], tried, order, infos, unk)
    {
      if |infos| == limit {
        if limit == |WantedIds(t, tried)| {
          AllGathered(t, q, i, tried, order, infos, unk);
        }
        return;
      }
      assert q[i] in q;
      GatherNext(t, q, i, tried, order, infos, unk);
      unk := unk[q[i] := |infos|];
      if Wanted(t.info[q[i]], tried) {
        infos := infos + [Persist(t.info[q[i]])];
        order := order + [q[i]];
      }
    }
    assert q[..|q|] == q;
  }

  ghost function WantedIds(t: Tables, tried: bool): set<int> {
    set x | x in t.info && Wanted(t.info[x], tried)
  }

  ghost function Elements<T(!new)>(s: seq<T>): set<T> { set x | x in s }

  lemma {:induction false} ElementsSize<T(!new)>(s: seq<T>)
    requires Distinct(s)
    ensures |Elements(s)| == |s|
  {
    if s != [] {
      var k := |s| - 1;
      assert s == s[..k] + [s[k]];
      ElementsSize(s[..k]);
      assert s[k] !in s[..k];
      assert Elements(s) == Elements(s[..k]) + {s[k]};
    }
  }

  lemma {:induction false} ListSize<T(!new)>(s: seq<T>, a: set<T>)
    requires Distinct(s) && forall x :: x in s <==> x in a
    ensures |s| == |a|
  {
    ElementsSize(s);
    assert Elements(s) == a;
  }

  lemma {:induction false} SameSize<T>(a: set<T>, b: set<T>)
    requires a <= b && |a| == |b|
    ensures a == b
  {
    assert b == a + (b - a);
  }

  /** Once as many are gathered as there are, the early exit loses nothing. */
  lemma {:induction false} AllGathered(t: Tables, q: seq<int>, i: nat, tried: bool, order: seq<int>, infos: seq<Saved>, unk: map<int, int>)
    requires i <= |q| && (forall x :: x in q <==> x in t.info.Keys)
    requires Gathered(t, q[..i], tried, order, infos, unk) && |infos| == |WantedIds(t, tried)|
    ensures Gathered(t, q, tried, order, infos, unk)
  {
    ElementsSize(order);
    forall x | x in Elements(order) ensures x in WantedIds(t, tried) {
      assert x in order;
    }
    SameSize(Elements(order), WantedIds(t, tried));
    forall x ensures x in order <==> x in q && x in t.info && Wanted(t.info[x], tried) {
      assert x in order <==> x in Elements(order);
    }
  }

  /** One bucket's list of entry numbers. */
  method WriteBucket(q: seq<int>, unk: map<int, int>) returns (r: seq<int>)
    ensures |r| == |q| && forall i :: 0 <= i < |r| ==> r[i] == NumberOf(unk, q[i])
  {
    r := [];
    for i := 0 to |q|
      invariant |r| == i && forall j :: 0 <= j < i ==> r[j] == NumberOf(unk, q[j])
    {
      r := r + [NumberOf(unk, q[i])];
    }
  }

  /** operator[] of mapUnkIds. */
  function NumberOf(unk: map<int, int>, id: int): int { if id in unk then unk[id] else 0 }

  /** Entry number j stands for ids[j]; `list` holds exactly the numbers of the bucket's ids. */
  ghost predicate BucketListed(bucket: set<int>, list: seq<int>, ids: seq<int>) {
    && Distinct(list) && (forall i :: 0 <= i < |list| ==> 0 <= list[i] < |ids|)
    && (forall j :: 0 <= j < |ids| ==> (j in list <==> ids[j] in bucket))
  }

  lemma {:induction false} ListedBucket(bucket: set<int>, q: seq<int>, list: seq<int>, ids: seq<int>, unk: map<int, int>)
    requires Distinct(ids) && (forall x :: x in bucket ==> x in ids)
    requires forall j :: 0 <= j < |ids| ==> ids[j] in unk && unk[ids[j]] == j
    requires Increasing(q) && (forall x :: x in q ==> x in bucket) && (forall x :: x in bucket ==> x in q)
    requires |list| == |q| && forall i :: 0 <= i < |list| ==> list[i] == NumberOf(unk, q[i])
    ensures BucketListed(bucket, list, ids)
  {
    forall i | 0 <= i < |list| ensures 0 <= list[i] < |ids| && ids[list[i]] == q[i] {
      assert q[i] in bucket;
      assert q[i] in ids;
      var j :| 0 <= j < |ids| && ids[j] == q[i];
    }
    forall j | 0 <= j < |ids| ensures j in list <==> ids[j] in bucket {
      var y := ids[j];
      if y in bucket {
        assert y in q;
        var i :| 0 <= i < |q| && q[i] == y;
        assert unk[y] == j;
        assert list[i] == j;
      }
      if j in list {
        var i :| 0 <= i < |list| && list[i] == j;
        assert q[i] in q;
      }
    }
  }

  /** `news` and `tried` list all ids of each kind, in the order in which `p` holds their entries. */
  ghost predicate IsWritten(t: Tables, p: Peers, news: seq<int>, tried: seq<int>) {
    && t.nNew == p.nNew == |news| == |p.newInfos| && t.nTried == p.nTried == |tried| == |p.triedInfos|
    && Lists(t, news, false) && Lists(t, tried, true)
    && (forall j :: 0 <= j < |news| ==> p.newInfos[j] == Persist(t.info[news[j]]))
    && (forall j :: 0 <= j < |tried| ==> p.triedInfos[j] == Persist(t.info[tried[j]]))
    && p.nUBuckets == NEW_BUCKET_COUNT == |p.buckets| == |t.news|
    && (forall b :: 0 <= b < |t.news| ==> BucketListed(t.news[b], p.buckets[b], news))
  }

  /** `order` lists the tried ids, or the others, without repetition. */
  ghost predicate Lists(t: Tables, order: seq<int>, tried: bool) {
    && Distinct(order) && (forall j :: 0 <= j < |order| ==> order[j] in t.info)
    && (forall x :: x in order <==> x in t.info && t.info[x].inTried == tried)
  }

  /** The two kinds the writer distinguishes by nRefCount and fInTried are the two kinds there are. */
  lemma {:induction false} WantedIsKind(k: Key, t: Tables, tried: bool)
    requires Structure(k, t)
    ensures forall x :: x in t.info ==> (Wanted(t.info[x], tried) <==> t.info[x].inTried == tried)
    ensures |WantedIds(t, tried)| == if tried then t.nTried else t.nNew
  {
    forall x | x in t.info ensures Wanted(t.info[x], tried) <==> t.info[x].inTried == tried {
      assert PlaceOk(t.info[x]);
    }
    assert WantedIds(t, tried) == if tried then TriedIds(t.info) else NewIds(t.info);
  }

  lemma {:induction false} GatheredLists(k: Key, t: Tables, q: seq<int>, tried: bool, order: seq<int>, infos: seq<Saved>, unk: map<int, int>)
    requires Structure(k, t) && Gathered(t, q, tried, order, infos, unk) && (forall x :: x in q <==> x in t.info)
    ensures Lists(t, order, tried) && |order| == if tried then t.nTried else t.nNew
  {
    WantedIsKind(k, t, tried);
    forall x ensures x in order <==> x in t.info && t.info[x].inTried == tried { }
    forall x ensures x in order <==> x in WantedIds(t, tried) { }
    ListSize(order, WantedIds(t, tried));
  }

  lemma {:induction false} HeldAreListed(k: Key, t: Tables, news: seq<int>, b: nat)
    requires Structure(k, t) && Lists(t, news, false) && b < |t.news|
    ensures forall x :: x in t.news[b] ==> x in news
  {
    assert NewBucketOk(t, b);
    forall x | x in t.news[b] ensures x in news {
      RefsZero(t.news, x);
      assert PlaceOk(t.info[x]) && RefCountOk(t, x, NONE);
    }
  }

  /** The serializer: of a state that meets the invariant it writes every entry once, and every
      "new" bucket. */
  method Write(ghost k: Key, t: Tables) returns (p: Peers, ghost news: seq<int>, ghost tried: seq<int>)
    ensures Structure(k, t) ==> IsWritten(t, p, news, tried)
    ensures p.nNew == t.nNew && p.nTried == t.nTried && p.nUBuckets == NEW_BUCKET_COUNT && |p.buckets| == |t.news|
    ensures Structure(k, t) ==> forall x :: x in t.info ==> Persist(t.info[x]) in p.newInfos || Persist(t.info[x]) in p.triedInfos
  {
    var newInfos, unk, triedInfos, unused;
    newInfos, unk, news := WriteEntries(t, false, t.nNew);
    triedInfos, unused, tried := WriteEntries(t, true, t.nTried);
    if Structure(k, t) {
      WantedIsKind(k, t, false);
      WantedIsKind(k, t, true);
      GatheredLists(k, t, Ascending(t.info.Keys), false, news, newInfos, unk);
      GatheredLists(k, t, Ascending(t.info.Keys), true, tried, triedInfos, unused);
    }
    var buckets := WriteBuckets(k, t, unk, news);
    p := Peers(t.nNew, t.nTried, NEW_BUCKET_COUNT, newInfos, triedInfos, buckets);
    if Structure(k, t) {
      AllWritten(t, p, news, tried);
    }
  }

  /** Every entry is in the file. */
  lemma {:induction false} AllWritten(t: Tables, p: Peers, news: seq<int>, tried: seq<int>)
    requires IsWritten(t, p, news, tried)
    ensures forall x :: x in t.info ==> Persist(t.info[x]) in p.newInfos || Persist(t.info[x]) in p.triedInfos
  {
    forall x | x in t.info ensures Persist(t.info[x]) in p.newInfos || Persist(t.info[x]) in p.triedInfos {
      if t.info[x].inTried {
        assert x in tried;
        var j :| 0 <= j < |tried| && tried[j] == x;
        assert p.triedInfos[j] == Persist(t.info[x]);
      } else {
        assert x in news;
        var j :| 0 <= j < |news| && news[j] == x;
        assert p.newInfos[j] == Persist(t.info[x]);
      }
    }
  }

  /** The loop over vvNew. */
  method WriteBuckets(ghost k: Key, t: Tables, unk: map<int, int>, ghost news: seq<int>) returns (buckets: seq<seq<int>>)
    ensures |buckets| == |t.news|
    ensures Structure(k, t) && Lists(t, news, false) && (forall j :: 0 <= j < |news| ==> news[j] in unk && unk[news[j]] == j)
        ==> forall b :: 0 <= b < |t.news| ==> BucketListed(t.news[b], buckets[b], news)
  {
    buckets := [];
    ghost var good := Structure(k, t) && Lists(t, news, false) && (forall j :: 0 <= j < |news| ==> news[j] in unk && unk[news[j]] == j);
    for b := 0 to |t.news|
      invariant |buckets| == b && (good ==> forall c :: 0 <= c < b ==> BucketListed(t.news[c], buckets[c], news))
    {
      var q := Iterate(t.news[b]);
      var list := WriteBucket(q, unk);
      if good {
        HeldAreListed(k, t, news, b);
        ListedBucket(t.news[b], q, list, news, unk);
      }
      buckets := buckets + [list];
    }
  }

  // ---------------------------------------------------------------- reading: entries and indexes

  /** Entry number j as read: `m` new entries come first, then tried ones. */
  function ReadInfo(all: seq<Saved>, m: nat, j: nat): Info
    requires j < |all|
  {
    Restore(all[j]).(randomPos := j, inTried := j >= m)
  }

  ghost predicate DistinctIps(all: seq<Saved>) {
    forall i, j :: 0 <= i < j < |all| ==> all[i].ip != all[j].ip
  }

  /** mapInfo, mapAddr and vRandom after n entries. */
  ghost predicate Rebuilt(all: seq<Saved>, m: nat, n: nat, info: map<int, Info>, addr: map<NetAddr, int>, random: seq<int>) {
    && n <= |all| && |random| == n
    && (forall x :: x in info <==> 0 <= x < n)
    && (forall j :: 0 <= j < n ==> info[j] == ReadInfo(all, m, j) && random[j] == j)
    && (forall j :: 0 <= j < n ==> all[j].ip in addr && addr[all[j].ip] == j)
    && (forall ip :: ip in addr ==> 0 <= addr[ip] < n && all[addr[ip]].ip == ip)
  }

  lemma {:induction false} RebuildNext(all: seq<Saved>, m: nat, n: nat, info: map<int, Info>, addr: map<NetAddr, int>, random: seq<int>)
    requires DistinctIps(all) && n < |all| && Rebuilt(all, m, n, info, addr, random)
    ensures Rebuilt(all, m, n + 1, info[n := ReadInfo(all, m, n)], addr[all[n].ip := n], random + [n])
  {
  }

  /** The first loop of the reader. */
  method ReadNew(infos: seq<Saved>, ghost all: seq<Saved>) returns (info: map<int, Info>, addr: map<NetAddr, int>, random: seq<int>)
    requires DistinctIps(all) && infos <= all
    ensures Rebuilt(all, |infos|, |infos|, info, addr, random)
  {
    info, addr, random := map[], map[], [];
    for n := 0 to |infos|
      invariant Rebuilt(all, |infos|, n, info, addr, random)
    {
      RebuildNext(all, |infos|, n, info, addr, random);
      info := info[n := Restore(infos[n]).(randomPos := |random|)];
      addr := addr[infos[n].ip := n];
      random := random + [n];
    }
  }

  /** The tried buckets after n entries: each tried one in the bucket it hashes to. */
  ghost predicate SortedInto(k: Key, all: seq<Saved>, m: nat, n: nat, tried: seq<seq<int>>) {
    && m <= n <= |all| && |tried| == TRIED_BUCKET_COUNT
    && (forall b :: 0 <= b < |tried| ==> SortedBucket(k, all, m, n, tried, b))
    && (forall j :: m <= j < n ==> InItsBucket(k, all, tried, j))
  }

  ghost predicate InItsBucket(k: Key, all: seq<Saved>, tried: seq<seq<int>>, j: nat)
    requires |tried| == TRIED_BUCKET_COUNT && j < |all|
  {
    j in tried[TriedBucket(k, Restore(all[j]))]
  }

  ghost predicate SortedBucket(k: Key, all: seq<Saved>, m: nat, n: nat, tried: seq<seq<int>>, b: nat)
    requires b < |tried| && n <= |all|
  {
    && Distinct(tried[b])
    && (forall x :: x in tried[b] ==> m <= x < n && TriedBucket(k, Restore(all[x])) == b)
  }

  lemma {:induction false} SortNext(k: Key, all: seq<Saved>, m: nat, n: nat, tried: seq<seq<int>>)
    requires SortedInto(k, all, m, n, tried) && n < |all|
    ensures var b := TriedBucket(k, Restore(all[n])); SortedInto(k, all, m, n + 1, tried[b := tried[b] + [n]])
  {
    var b := TriedBucket(k, Restore(all[n]));
    var next := tried[b := tried[b] + [n]];
    var n1 := n + 1;
    forall c | 0 <= c < |next| ensures SortedBucket(k, all, m, n1, next, c) {
      assert SortedBucket(k, all, m, n, tried, c);
      if c == b {
        assert n !in tried[b];
        AppendDistinct(tried[b], n);
      }
    }
    forall j | m <= j < n + 1 ensures InItsBucket(k, all, next, j) {
      if j == n {
        assert next[b][|tried[b]|] == n;
      } else {
        assert InItsBucket(k, all, tried, j);
      }
    }
  }

  lemma {:induction false} ReadTriedNext(k: Key, all: seq<Saved>, m: nat, n: nat, info: map<int, Info>, addr: map<NetAddr, int>,
                                         random: seq<int>, tried: seq<seq<int>>)
    requires DistinctIps(all) && Roomy(k, all, m) && n < |all|
    requires Rebuilt(all, m, n, info, addr, random) && SortedInto(k, all, m, n, tried)
    ensures var i, b := Restore(all[n]), TriedBucket(k, Restore(all[n]));
      && |tried[b]| < TRIED_BUCKET_SIZE && SortedInto(k, all, m, n + 1, tried[b := tried[b] + [n]])
      && Rebuilt(all, m, n + 1, info[n := i.(randomPos := |random|, inTried := true)], addr[all[n].ip := n], random + [n])
  {
    assert RoomAt(k, all, m, n, tried);
    assert ReadInfo(all, m, n) == Restore(all[n]).(randomPos := |random|, inTried := true);
    RebuildNext(all, m, n, info, addr, random);
    SortNext(k, all, m, n, tried);
  }

  /** The second loop of the reader; nLost counts the entries that find their bucket full. */
  method ReadTried(k: Key, infos: seq<Saved>, m: nat, info0: map<int, Info>, addr0: map<NetAddr, int>, random0: seq<int>,
                   ghost all: seq<Saved>)
    returns (info: map<int, Info>, addr: map<NetAddr, int>, random: seq<int>, tried: seq<seq<int>>, nIdCount: int, nLost: int)
    requires m <= |all| && infos == all[m..] && DistinctIps(all) && Roomy(k, all, m)
    requires Rebuilt(all, m, m, info0, addr0, random0)
    ensures nLost == 0 && nIdCount == |all|
    ensures Rebuilt(all, m, |all|, info, addr, random) && SortedInto(k, all, m, |all|, tried)
  {
    info, addr, random := info0, addr0, random0;
    tried := seq(TRIED_BUCKET_COUNT, _ => []);
    nIdCount, nLost := m, 0;
    for n := 0 to |infos|
      invariant nLost == 0 && nIdCount == m + n
      invariant Rebuilt(all, m, m + n, info, addr, random) && SortedInto(k, all, m, m + n, tried)
    {
      var kb := TriedBucket(k, Restore(infos[n]));
      ReadTriedNext(k, all, m, m + n, info, addr, random, tried);
      if |tried[kb]| < TRIED_BUCKET_SIZE {
        info := info[nIdCount := Restore(infos[n]).(randomPos := |random|, inTried := true)];
        random := random + [nIdCount];
        addr := addr[infos[n].ip := nIdCount];
        tried := tried[kb := tried[kb] + [nIdCount]];
        nIdCount := nIdCount + 1;
      } else {
        nLost := nLost + 1;
      }
    }
  }

  /** At every point of the second loop there is room for the next entry. */
  ghost predicate Roomy(k: Key, all: seq<Saved>, m: nat) {
    forall n: nat, tried :: SortedInto(k, all, m, n, tried) && n < |all| ==> RoomAt(k, all, m, n, tried)
  }

  ghost predicate RoomAt(k: Key, all: seq<Saved>, m: nat, n: nat, tried: seq<seq<int>>)
    requires n < |all| && |tried| == TRIED_BUCKET_COUNT
  {
    |tried[TriedBucket(k, Restore(all[n]))]| < TRIED_BUCKET_SIZE
  }

  // ---------------------------------------------------------------- reading: the "new" buckets

  /** Bucket c holds the numbers of the ids that t's bucket c holds. */
  ghost predicate SameBucket(t: Tables, ids: seq<int>, news: seq<set<int>>, c: nat)
    requires c < |news| && c < |t.news|
  {
    forall x :: x in news[c] <==> 0 <= x < |ids| && ids[x] in t.news[c]
  }

  lemma {:induction false} SameRefs(t: Tables, ids: seq<int>, news: seq<set<int>>, b: nat, j: nat)
    requires b <= |news| == |t.news| && (forall c :: 0 <= c < b ==> SameBucket(t, ids, news, c)) && j < |ids|
    ensures Refs(news[..b], j) == Refs(t.news[..b], ids[j])
  {
    if b > 0 {
      SameRefs(t, ids, news, b - 1, j);
      assert SameBucket(t, ids, news, b - 1);
      assert news[..b][..b - 1] == news[..b - 1] && t.news[..b][..b - 1] == t.news[..b - 1];
    }
  }

  lemma {:induction false} RefsOnlyBefore(news: seq<set<int>>, b: nat, j: int)
    requires b <= |news| && forall c :: b <= c < |news| ==> j !in news[c]
    ensures Refs(news, j) == Refs(news[..b], j)
  {
    if b == |news| {
      assert news[..b] == news;
    } else {
      var k := |news| - 1;
      RefsOnlyBefore(news[..k], b, j);
      assert news[..k][..b] == news[..b];
    }
  }

  /** After b buckets and i numbers of the next: the buckets, and the counts that go with them. */
  ghost predicate Refilled(t: Tables, ids: seq<int>, info0: map<int, Info>, info: map<int, Info>,
                           news: seq<set<int>>, b: nat, part: seq<int>) {
    && |news| == |t.news| && b <= |news|
    && (forall c :: 0 <= c < b ==> SameBucket(t, ids, news, c))
    && (b < |news| ==> forall x :: x in news[b] <==> x in part)
    && (forall c :: b < c < |news| ==> news[c] == {})
    && info.Keys == info0.Keys
    && (forall x :: x in info0 ==> info[x] == info0[x].(refCount := Refs(news, x)))
  }

  /** The next listed number is not counted yet, and its entry has fewer than four references. */
  lemma {:induction false} RefillHasRoom(k: Key, t: Tables, ids: seq<int>, info0: map<int, Info>, info: map<int, Info>,
                      news: seq<set<int>>, b: nat, list: seq<int>, i: nat)
    requires i < |list| && list[i] in info0
    requires Structure(k, t) && Refilled(t, ids, info0, info, news, b, list[..i]) && b < |news|
    requires BucketListed(t.news[b], list, ids)
    ensures list[i] !in news[b] && info[list[i]].refCount < NEW_BUCKETS_PER_ADDRESS
  {
    var j := list[i];
    assert j !in list[..i];
    assert j in list;
    RefsOnlyBefore(news, b, j);
    SameRefs(t, ids, news, b, j);
    MoreRefs(k, t, b, ids[j]);
    assert PlaceOk(t.info[ids[j]]);
    RefsZero(t.news, ids[j]);
    assert RefCountOk(t, ids[j], NONE);
  }

  lemma {:induction false} RefillNext(t: Tables, ids: seq<int>, info0: map<int, Info>, info: map<int, Info>,
                   news: seq<set<int>>, b: nat, list: seq<int>, i: nat)
    requires i < |list| && list[i] in info0 && Refilled(t, ids, info0, info, news, b, list[..i]) && b < |news|
    requires list[i] !in news[b]
    ensures var j := list[i];
      Refilled(t, ids, info0, info[j := info[j].(refCount := info[j].refCount + 1)], news[b := news[b] + {j}], b, list[..i + 1])
  {
    var j := list[i];
    var next := news[b := news[b] + {j}];
    RefsUpdateAll(news, b, news[b] + {j});
    assert list[..i + 1] == list[..i] + [j];
    forall c | 0 <= c < b ensures SameBucket(t, ids, next, c) {
      assert SameBucket(t, ids, news, c);
    }
  }

  lemma {:induction false} RefillBucket(t: Tables, ids: seq<int>, info0: map<int, Info>, info: map<int, Info>,
                     news: seq<set<int>>, b: nat, list: seq<int>)
    requires Refilled(t, ids, info0, info, news, b, list) && b < |news| && BucketListed(t.news[b], list, ids)
    ensures Refilled(t, ids, info0, info, news, b + 1, [])
  {
    assert SameBucket(t, ids, news, b);
  }

  /** The third loop of the reader, for one bucket. */
  method ReadBucket(ghost k: Key, ghost t: Tables, ghost ids: seq<int>, ghost info00: map<int, Info>,
                    list: seq<int>, b: nat, info0: map<int, Info>, news0: seq<set<int>>)
    returns (info: map<int, Info>, news: seq<set<int>>)
    requires Structure(k, t) && b < |news0| == |t.news| && BucketListed(t.news[b], list, ids)
    requires forall x :: 0 <= x < |ids| ==> x in info00
    requires Refilled(t, ids, info00, info0, news0, b, [])
    ensures Refilled(t, ids, info00, info, news, b + 1, [])
  {
    info, news := info0, news0;
    for i := 0 to |list|
      invariant Refilled(t, ids, info00, info, news, b, list[..i])
    {
      var nIndex := list[i];
      RefillHasRoom(k, t, ids, info00, info, news, b, list, i);
      RefillNext(t, ids, info00, info, news, b, list, i);
      if info[nIndex].refCount < NEW_BUCKETS_PER_ADDRESS {
        info := info[nIndex := info[nIndex].(refCount := info[nIndex].refCount + 1)];
        news := news[b := news[b] + {nIndex}];
      }
    }
    assert list[..|list|] == list;
    RefillBucket(t, ids, info00, info, news, b, list);
  }

  method ReadBuckets(ghost k: Key, ghost t: Tables, ghost ids: seq<int>, buckets: seq<seq<int>>, info0: map<int, Info>)
    returns (info: map<int, Info>, news: seq<set<int>>)
    requires Structure(k, t) && |buckets| == NEW_BUCKET_COUNT
    requires forall b :: 0 <= b < |t.news| ==> BucketListed(t.news[b], buckets[b], ids)
    requires forall x :: 0 <= x < |ids| ==> x in info0
    requires forall x :: x in info0 ==> info0[x].refCount == 0
    ensures Refilled(t, ids, info0, info, news, NEW_BUCKET_COUNT, [])
  {
    info, news := info0, seq(NEW_BUCKET_COUNT, _ => {});
    forall x | x in info0 ensures Refs(news, x) == 0 {
      RefsZero(news, x);
    }
    for b := 0 to NEW_BUCKET_COUNT
      invariant |news| == |t.news| && Refilled(t, ids, info0, info, news, b, [])
    {
      info, news := ReadBucket(k, t, ids, info0, buckets[b], b, info, news);
    }
  }

  // ---------------------------------------------------------------- the round trip

  /** `u` holds the same entries as `t`: number j stands for ids[j]. */
  ghost predicate Copied(t: Tables, u: Tables, ids: seq<int>) {
    && Distinct(ids) && (forall x :: x in ids <==> x in t.info)
    && (forall x :: x in u.info <==> 0 <= x < |ids|)
    && (forall j :: 0 <= j < |ids| ==> SameEntry(t, u, ids[j], j))
    && u.idCount == |ids| && u.nNew == t.nNew && u.nTried == t.nTried
    && |u.news| == |t.news| == NEW_BUCKET_COUNT && |u.tried| == |t.tried| == TRIED_BUCKET_COUNT
    && (forall b :: 0 <= b < NEW_BUCKET_COUNT ==> SameBucket(t, ids, u.news, b))
    && (forall b :: 0 <= b < TRIED_BUCKET_COUNT ==> SameTried(t, ids, u.tried, b))
  }

  /** The serialized statistics, the status and the number of references agree. */
  ghost predicate SameEntry(t: Tables, u: Tables, id: int, j: int) {
    && id in t.info && j in u.info && Persist(u.info[j]) == Persist(t.info[id])
    && u.info[j].inTried == t.info[id].inTried && u.info[j].refCount == t.info[id].refCount && u.info[j].lastTry == 0
  }

  ghost predicate SameTried(t: Tables, ids: seq<int>, tried: seq<seq<int>>, b: nat)
    requires b < |tried| && b < |t.tried|
  {
    Distinct(tried[b]) && forall x :: x in tried[b] <==> 0 <= x < |ids| && ids[x] in t.tried[b]
  }

  /** Renumbering keeps the size of a set. */
  lemma {:induction false} Renumbered(a: set<int>, b: set<int>, ids: seq<int>)
    requires Distinct(ids) && (forall x :: x in b ==> x in ids)
    requires forall j :: j in a <==> 0 <= j < |ids| && ids[j] in b
    ensures |a| == |b|
    decreases |ids|
  {
    if ids == [] {
      forall x ensures x !in a && x !in b {
        assert x in b ==> x in ids;
      }
      assert a == {} && b == {};
    } else {
      var k := |ids| - 1;
      assert ids == ids[..k] + [ids[k]];
      assert k in a <==> ids[k] in b;
      Renumbered(a - {k}, b - {ids[k]}, ids[..k]);
    }
  }

  lemma {:induction false} CopiedNews(k: Key, t: Tables, u: Tables, ids: seq<int>)
    requires Structure(k, t) && Copied(t, u, ids)
    ensures EntriesOk(u, NONE) && NewsOk(u)
  {
    forall j | j in u.info ensures PlaceOk(u.info[j]) && RefCountOk(u, j, NONE) {
      assert SameEntry(t, u, ids[j], j);
      assert PlaceOk(t.info[ids[j]]) && RefCountOk(t, ids[j], NONE);
      SameRefs(t, ids, u.news, NEW_BUCKET_COUNT, j);
      assert u.news[..NEW_BUCKET_COUNT] == u.news && t.news[..NEW_BUCKET_COUNT] == t.news;
    }
    forall b | 0 <= b < |u.news| ensures NewBucketOk(u, b) {
      assert NewBucketOk(t, b) && SameBucket(t, ids, u.news, b);
      Renumbered(u.news[b], t.news[b], ids);
    }
  }

  lemma {:induction false} CopiedTried(k: Key, t: Tables, u: Tables, ids: seq<int>)
    requires Structure(k, t) && Copied(t, u, ids)
    ensures TriedOk(k, u)
  {
    forall b | 0 <= b < |u.tried| ensures TriedBucketOk(k, u, b) {
      CopiedTriedBucket(k, t, u, ids, b);
    }
    forall j | j in u.info && u.info[j].inTried ensures j in u.tried[TriedBucket(k, u.info[j])] {
      assert SameEntry(t, u, ids[j], j);
      assert ids[j] in t.tried[TriedBucket(k, t.info[ids[j]])];
      assert SameTried(t, ids, u.tried, TriedBucket(k, u.info[j]));
    }
  }

  lemma {:induction false} CopiedTriedBucket(k: Key, t: Tables, u: Tables, ids: seq<int>, b: nat)
    requires Structure(k, t) && Copied(t, u, ids) && b < TRIED_BUCKET_COUNT
    ensures TriedBucketOk(k, u, b)
  {
    assert TriedBucketOk(k, t, b) && SameTried(t, ids, u.tried, b);
    forall j | j in u.tried[b] ensures TriedAt(k, u, j, b) {
      assert TriedAt(k, t, ids[j], b) && SameEntry(t, u, ids[j], j);
    }
    forall x | x in Elements(t.tried[b]) ensures x in ids {
      assert x in t.tried[b];
      assert TriedAt(k, t, x, b);
    }
    Renumbered(Elements(u.tried[b]), Elements(t.tried[b]), ids);
    ElementsSize(u.tried[b]);
    ElementsSize(t.tried[b]);
  }

  lemma {:induction false} CopiedCounts(t: Tables, u: Tables, ids: seq<int>)
    requires Counted(t) && Copied(t, u, ids)
    ensures Counted(u)
  {
    forall j ensures j in u.info ==> SameEntry(t, u, ids[j], j) { }
    Renumbered(NewIds(u.info), NewIds(t.info), ids);
    Renumbered(TriedIds(u.info), TriedIds(t.info), ids);
  }

  /** A copy with its indexes in order meets the invariant. */
  lemma {:induction false} CopiedInv(k: Key, t: Tables, u: Tables, ids: seq<int>)
    requires Inv(k, t) && Copied(t, u, ids) && Indexed(u)
    ensures Inv(k, u)
  {
    CopiedNews(k, t, u, ids);
    CopiedTried(k, t, u, ids);
    CopiedCounts(t, u, ids);
    forall j | j in u.info ensures StatsOk(u.info[j]) {
      assert SameEntry(t, u, ids[j], j);
      assert StatsOk(t.info[ids[j]]);
    }
  }

  /** The entries of `all` are those of the ids, each id once. */
  ghost predicate Enumerates(t: Tables, all: seq<Saved>, m: nat, ids: seq<int>) {
    && Distinct(ids) && (forall x :: x in ids <==> x in t.info) && |all| == |ids| && m <= |ids|
    && (forall j :: 0 <= j < |ids| ==> EnumeratedAt(t, all, m, ids, j))
  }

  ghost predicate EnumeratedAt(t: Tables, all: seq<Saved>, m: nat, ids: seq<int>, j: nat)
    requires j < |ids| == |all|
  {
    ids[j] in t.info && all[j] == Persist(t.info[ids[j]]) && (t.info[ids[j]].inTried <==> j >= m)
  }

  lemma {:induction false} WrittenEnumerates(t: Tables, p: Peers, news: seq<int>, tried: seq<int>)
    requires IsWritten(t, p, news, tried)
    ensures Enumerates(t, p.newInfos + p.triedInfos, |news|, news + tried)
  {
    var ids := news + tried;
    var all := p.newInfos + p.triedInfos;
    forall j | 0 <= j < |ids| ensures EnumeratedAt(t, all, |news|, ids, j) {
      if j < |news| {
        assert ids[j] == news[j] && news[j] in news;
      } else {
        assert ids[j] == tried[j - |news|] && tried[j - |news|] in tried;
      }
    }
    forall i, j | 0 <= i < j < |ids| ensures ids[i] != ids[j] {
      assert EnumeratedAt(t, all, |news|, ids, i) && EnumeratedAt(t, all, |news|, ids, j);
    }
    forall x ensures x in ids <==> x in t.info {
      assert x in ids <==> x in news || x in tried;
    }
  }

  lemma {:induction false} EnumeratedDistinct(t: Tables, all: seq<Saved>, m: nat, ids: seq<int>)
    requires Indexed(t) && Enumerates(t, all, m, ids)
    ensures DistinctIps(all)
  {
    forall i, j | 0 <= i < j < |all| ensures all[i].ip != all[j].ip {
      assert EnumeratedAt(t, all, m, ids, i) && EnumeratedAt(t, all, m, ids, j);
      assert IndexedAt(t, ids[i]) && IndexedAt(t, ids[j]);
    }
  }

  /** The entry number j goes to the tried bucket that its id is in. */
  lemma {:induction false} TriedWhereItWas(k: Key, t: Tables, all: seq<Saved>, m: nat, ids: seq<int>, j: nat)
    requires TriedOk(k, t) && Enumerates(t, all, m, ids) && m <= j < |ids|
    ensures ids[j] in t.tried[TriedBucket(k, Restore(all[j]))]
  {
    assert EnumeratedAt(t, all, m, ids, j);
    var x := ids[j];
    assert x in t.info && t.info[x].inTried;
    assert TriedBucket(k, Restore(all[j])) == TriedBucket(k, t.info[x]);
  }

  lemma {:induction false} EnumeratedRoom(k: Key, t: Tables, all: seq<Saved>, m: nat, ids: seq<int>, n: nat, tried: seq<seq<int>>)
    requires TriedOk(k, t) && Enumerates(t, all, m, ids) && SortedInto(k, all, m, n, tried) && n < |all|
    ensures RoomAt(k, all, m, n, tried)
  {
    var b := TriedBucket(k, Restore(all[n]));
    assert SortedBucket(k, all, m, n, tried, b) && TriedBucketOk(k, t, b);
    var list := tried[b] + [n];
    assert n !in tried[b];
    AppendDistinct(tried[b], n);
    var image := seq(|list|, i requires 0 <= i < |list| => if 0 <= list[i] < |ids| then ids[list[i]] else 0);
    forall i | 0 <= i < |list| ensures m <= list[i] < |ids| && image[i] == ids[list[i]] && image[i] in t.tried[b] {
      assert i < |tried[b]| ==> list[i] == tried[b][i] && list[i] in tried[b];
      TriedWhereItWas(k, t, all, m, ids, list[i]);
    }
    assert Distinct(image);
    ElementsSize(image);
    ElementsSize(t.tried[b]);
    forall x | x in Elements(image) ensures x in Elements(t.tried[b]) {
      assert x in image;
    }
    SubsetSize(Elements(image), Elements(t.tried[b]));
  }

  lemma {:induction false} EnumeratedRoomy(k: Key, t: Tables, all: seq<Saved>, m: nat, ids: seq<int>)
    requires TriedOk(k, t) && Enumerates(t, all, m, ids)
    ensures Roomy(k, all, m)
  {
    forall n: nat, tried | SortedInto(k, all, m, n, tried) && n < |all| ensures RoomAt(k, all, m, n, tried) {
      EnumeratedRoom(k, t, all, m, ids, n, tried);
    }
  }

  /** All parts read, put together. */
  lemma {:induction false} ReadIsCopy(k: Key, t: Tables, p: Peers, news: seq<int>, tried: seq<int>, info0: map<int, Info>, u: Tables)
    requires Structure(k, t) && IsWritten(t, p, news, tried)
    requires Rebuilt(p.newInfos + p.triedInfos, |news|, |news| + |tried|, info0, u.addr, u.random)
    requires SortedInto(k, p.newInfos + p.triedInfos, |news|, |news| + |tried|, u.tried)
    requires Refilled(t, news, info0, u.info, u.news, NEW_BUCKET_COUNT, [])
    requires u.idCount == |news| + |tried| && u.nNew == p.nNew && u.nTried == p.nTried
    ensures Copied(t, u, news + tried) && Indexed(u)
  {
    var all := p.newInfos + p.triedInfos;
    var ids := news + tried;
    WrittenEnumerates(t, p, news, tried);
    forall b | 0 <= b < NEW_BUCKET_COUNT ensures SameBucket(t, ids, u.news, b) {
      assert SameBucket(t, news, u.news, b);
      WiderBucket(k, t, all, |news|, ids, news, u.news, b);
    }
    forall b | 0 <= b < TRIED_BUCKET_COUNT ensures SameTried(t, ids, u.tried, b) {
      SortedAsBefore(k, t, all, |news|, ids, u.tried, b);
    }
    forall j | 0 <= j < |ids| ensures SameEntry(t, u, ids[j], j) {
      assert u.info[j] == info0[j].(refCount := Refs(u.news, j));
      ReadEntry(k, t, all, |news|, ids, u, j);
    }
    ReadIndexed(all, |news|, info0, u);
  }

  lemma {:induction false} ReadEntry(k: Key, t: Tables, all: seq<Saved>, m: nat, ids: seq<int>, u: Tables, j: nat)
    requires Structure(k, t) && Enumerates(t, all, m, ids) && j < |ids| && |u.news| == NEW_BUCKET_COUNT
    requires forall b :: 0 <= b < NEW_BUCKET_COUNT ==> SameBucket(t, ids, u.news, b)
    requires j in u.info && u.info[j] == ReadInfo(all, m, j).(refCount := Refs(u.news, j))
    ensures SameEntry(t, u, ids[j], j)
  {
    assert EnumeratedAt(t, all, m, ids, j);
    assert RefCountOk(t, ids[j], NONE);
    SameRefs(t, ids, u.news, NEW_BUCKET_COUNT, j);
    assert u.news[..NEW_BUCKET_COUNT] == u.news && t.news[..NEW_BUCKET_COUNT] == t.news;
  }

  lemma {:induction false} ReadIndexed(all: seq<Saved>, m: nat, info0: map<int, Info>, u: Tables)
    requires Rebuilt(all, m, |all|, info0, u.addr, u.random) && u.idCount == |all|
    requires u.info.Keys == info0.Keys && forall x :: x in info0 ==> u.info[x] == info0[x].(refCount := u.info[x].refCount)
    ensures Indexed(u)
  {
    var v := u.(info := info0);
    forall x | x in v.info ensures IndexedAt(v, x) { }
    SameIndexes(v, u);
  }

  lemma {:induction false} WiderBucket(k: Key, t: Tables, all: seq<Saved>, m: nat, ids: seq<int>, news: seq<int>, buckets: seq<set<int>>, b: nat)
    requires Structure(k, t) && Enumerates(t, all, m, ids) && b < |t.news| == |buckets|
    requires |news| == m && news <= ids && SameBucket(t, news, buckets, b)
    ensures SameBucket(t, ids, buckets, b)
  {
    assert NewBucketOk(t, b);
    forall x ensures x in buckets[b] <==> 0 <= x < |ids| && ids[x] in t.news[b] {
      if m <= x < |ids| {
        assert EnumeratedAt(t, all, m, ids, x);
        assert PlaceOk(t.info[ids[x]]) && RefCountOk(t, ids[x], NONE);
        RefsZero(t.news, ids[x]);
      }
    }
  }

  lemma {:induction false} SortedAsBefore(k: Key, t: Tables, all: seq<Saved>, m: nat, ids: seq<int>, tried: seq<seq<int>>, b: nat)
    requires TriedOk(k, t) && Enumerates(t, all, m, ids) && SortedInto(k, all, m, |all|, tried) && b < TRIED_BUCKET_COUNT
    ensures SameTried(t, ids, tried, b)
  {
    assert SortedBucket(k, all, m, |all|, tried, b) && TriedBucketOk(k, t, b);
    forall x ensures x in tried[b] <==> 0 <= x < |ids| && ids[x] in t.tried[b] {
      if x in tried[b] {
        TriedWhereItWas(k, t, all, m, ids, x);
      }
      if 0 <= x < |ids| && ids[x] in t.tried[b] {
        assert EnumeratedAt(t, all, m, ids, x);
        assert TriedAt(k, t, ids[x], b);
        assert TriedBucket(k, Restore(all[x])) == TriedBucket(k, t.info[ids[x]]);
        assert InItsBucket(k, all, tried, x);
      }
    }
  }

  /** The unserializer, on what was written from `t` with the same bucket count: no entry is lost. */
  method Read(k: Key, p: Peers, ghost t: Tables, ghost news: seq<int>, ghost tried: seq<int>) returns (u: Tables)
    requires Inv(k, t) && IsWritten(t, p, news, tried)
    ensures Copied(t, u, news + tried) && Inv(k, u)
  {
    ReadReady(k, t, p, news, tried);
    ghost var info0;
    u, info0 := ReadParts(k, p, t, news, tried, p.newInfos + p.triedInfos);
    ReadIsCopy(k, t, p, news, tried, info0, u);
    CopiedInv(k, t, u, news + tried);
  }

  lemma {:induction false} ReadReady(k: Key, t: Tables, p: Peers, news: seq<int>, tried: seq<int>)
    requires Structure(k, t) && IsWritten(t, p, news, tried)
    ensures DistinctIps(p.newInfos + p.triedInfos) && Roomy(k, p.newInfos + p.triedInfos, |news|)
  {
    WrittenEnumerates(t, p, news, tried);
    EnumeratedDistinct(t, p.newInfos + p.triedInfos, |news|, news + tried);
    EnumeratedRoomy(k, t, p.newInfos + p.triedInfos, |news|, news + tried);
  }

  /** The three loops of the unserializer, one after the other. */
  method ReadParts(k: Key, p: Peers, ghost t: Tables, ghost news: seq<int>, ghost tried: seq<int>, ghost all: seq<Saved>)
    returns (u: Tables, ghost info0: map<int, Info>)
    requires Structure(k, t) && IsWritten(t, p, news, tried) && all == p.newInfos + p.triedInfos
    requires DistinctIps(all) && Roomy(k, all, |news|)
    ensures Rebuilt(all, |news|, |all|, info0, u.addr, u.random) && SortedInto(k, all, |news|, |all|, u.tried)
    ensures Refilled(t, news, info0, u.info, u.news, NEW_BUCKET_COUNT, [])
    ensures u.idCount == |all| && u.nNew == p.nNew && u.nTried == p.nTried
  {
    var info, addr, random := ReadNew(p.newInfos, all);
    var vvTried, nIdCount, nLost;
    info, addr, random, vvTried, nIdCount, nLost := ReadTried(k, p.triedInfos, |p.newInfos|, info, addr, random, all);
    info0 := info;
    var vvNew;
    info, vvNew := ReadBuckets(k, t, news, p.buckets, info);
    u := Tables(nIdCount, info, addr, random, p.nTried - nLost, vvTried, p.nNew, vvNew);
  }

  /** The same but for the time of the last attempt, which is not written, and the place in vRandom. */
  ghost predicate SameFields(i: Info, j: Info) {
    && j.ip == i.ip && j.port == i.port && j.services == i.services && j.time == i.time && j.source == i.source
    && j.lastSuccess == i.lastSuccess && j.attempts == i.attempts && j.refCount == i.refCount && j.inTried == i.inTried
    && j.lastTry == 0
  }

  /** For the address `ip`: the same fields, "new" buckets and tried bucket. */
  ghost predicate SameAddress(t: Tables, u: Tables, ip: NetAddr)
    requires ip in t.addr && ip in u.addr
  {
    var x, y := t.addr[ip], u.addr[ip];
    && x in t.info && y in u.info && SameFields(t.info[x], u.info[y]) && |t.news| == |u.news| && |t.tried| == |u.tried|
    && (forall b :: 0 <= b < |t.news| ==> (y in u.news[b] <==> x in t.news[b]))
    && (forall b :: 0 <= b < |t.tried| ==> (y in u.tried[b] <==> x in t.tried[b]))
  }

  lemma {:induction false} CopiedAddress(t: Tables, u: Tables, ids: seq<int>, ip: NetAddr)
    requires Indexed(t) && Indexed(u) && Copied(t, u, ids)
    ensures ip in t.addr <==> ip in u.addr
    ensures ip in t.addr ==> SameAddress(t, u, ip)
  {
    if ip in u.addr {
      var j := u.addr[ip];
      assert SameEntry(t, u, ids[j], j);
      assert IndexedAt(t, ids[j]);
    }
    if ip in t.addr {
      var x := t.addr[ip];
      assert x in ids;
      var j :| 0 <= j < |ids| && ids[j] == x;
      assert SameEntry(t, u, x, j);
      assert IndexedAt(u, j);
      assert u.addr[ip] == j;
      forall b | 0 <= b < |t.news| ensures j in u.news[b] <==> x in t.news[b] {
        assert SameBucket(t, ids, u.news, b);
      }
      forall b | 0 <= b < |t.tried| ensures j in u.tried[b] <==> x in t.tried[b] {
        assert SameTried(t, ids, u.tried, b);
      }
    }
  }

  lemma {:induction false} SameKeys(a: map<NetAddr, int>, b: map<NetAddr, int>)
    requires forall ip :: ip in a <==> ip in b
    ensures a.Keys == b.Keys
  {
    forall ip ensures ip in a.Keys <==> ip in b.Keys { }
  }

  /** Writing and reading back: the same addresses, each with its statistics and buckets, in a
      state that meets the invariant. */
  method RoundTrip(k: Key, t: Tables) returns (u: Tables)
    requires Inv(k, t)
    ensures Inv(k, u) && u.addr.Keys == t.addr.Keys && u.nNew == t.nNew && u.nTried == t.nTried
    ensures forall ip :: ip in t.addr ==> ip in u.addr && SameAddress(t, u, ip)
  {
    var p;
    ghost var news, tried;
    p, news, tried := Write(k, t);
    u := Read(k, p, t, news, tried);
    forall ip ensures ip in t.addr <==> ip in u.addr {
      CopiedAddress(t, u, news + tried, ip);
    }
    SameKeys(t.addr, u.addr);
    forall ip | ip in t.addr ensures SameAddress(t, u, ip) {
      CopiedAddress(t, u, news + tried, ip);
    }
  }
}
