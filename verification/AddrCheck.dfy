/** CAddrMan::Check_ (addrman.cpp), the consistency check that debug builds run: what it accepts, that
    the invariant of AddrTables passes it, and which times break it. */
module AddrCheck {
  import opened Basics
  import opened StdOrder
  import opened AddrTables
  import opened AddrOperations

  /** The checks of one entry, as an error code. */
  function CheckEntry(t: Tables, n: int): (code: int)
    requires n in t.info
    ensures code <= 0
  {
    var i := t.info[n];
    if i.inTried && i.lastSuccess == 0 then -1
    else if i.inTried && i.refCount != 0 then -2
    else if !i.inTried && (i.refCount < 0 || i.refCount > NEW_BUCKETS_PER_ADDRESS) then -3
    else if !i.inTried && i.refCount == 0 then -4
    // operator[] yields 0 for a missing address
    else if (if i.ip in t.addr then t.addr[i.ip] else 0) != n then -5
    else if i.randomPos < 0 || i.randomPos >= |t.random| || t.random[i.randomPos] != n then -14
    else if i.lastTry < 0 then -6
    else if i.lastSuccess < 0 then -8
    else 0
  }

  /** An entry passes exactly if it is tried, was once good and has no references, or is new and has one to
      four; its address and its place in vRandom lead back to it; and its times are not negative. */
  lemma {:induction false} EntryPassesIff(t: Tables, n: int)
    requires n in t.info
    ensures var i := t.info[n];
      CheckEntry(t, n) == 0 <==>
        && (if i.inTried then i.lastSuccess != 0 && i.refCount == 0 else 1 <= i.refCount <= 4)
        && (if i.ip in t.addr then t.addr[i.ip] == n else n == 0)
        && 0 <= i.randomPos < |t.random| && t.random[i.randomPos] == n
        && i.lastTry >= 0 && i.lastSuccess >= 0
  {
  }

  /** The first loop: check every entry, and collect the tried ids and the reference counts. */
  method CheckEntries(t: Tables) returns (code: int, setTried: set<int>, mapNew: map<int, int>)
    ensures code == 0 <==> forall n :: n in t.info ==> CheckEntry(t, n) == 0
    ensures code == 0 ==> setTried == TriedIds(t.info) && mapNew.Keys == NewIds(t.info)
    ensures code == 0 ==> forall n :: n in mapNew ==> mapNew[n] == t.info[n].refCount
  {
    var q := Iterate(t.info.Keys);
    code, setTried, mapNew := CollectFrom(t, q);
    AllInOrder(t, q);
    if code == 0 {
      CollectedAll(t, q, setTried, mapNew);
    }
  }

  method CollectFrom(t: Tables, q: seq<int>) returns (code: int, setTried: set<int>, mapNew: map<int, int>)
    requires forall x :: x in q ==> x in t.info
    ensures code == 0 <==> AllPass(t, q)
    ensures code == 0 ==> Collected(t, q, setTried, mapNew)
  {
    setTried, mapNew := {}, map[];
    for j := 0 to |q|
      invariant Collected(t, q[..j], setTried, mapNew) && AllPass(t, q[..j])
    {
      assert q[j] in q;
      code := CheckEntry(t, q[j]);
      if code != 0 {
        return;
      }
      setTried, mapNew := Collect(t, q, j, setTried, mapNew);
    }
    assert q[..|q|] == q;
    return 0, setTried, mapNew;
  }

  /** Sort one entry into the two collections. */
  method Collect(t: Tables, q: seq<int>, j: nat, setTried0: set<int>, mapNew0: map<int, int>) returns (setTried: set<int>, mapNew: map<int, int>)
    requires j < |q| && q[j] in t.info && Collected(t, q[..j], setTried0, mapNew0)
    requires AllPass(t, q[..j]) && CheckEntry(t, q[j]) == 0
    ensures Collected(t, q[..j + 1], setTried, mapNew) && AllPass(t, q[..j + 1])
  {
    CollectNext(t, q, j, setTried0, mapNew0);
    setTried, mapNew := setTried0, mapNew0;
    if t.info[q[j]].inTried {
      setTried := setTried + {q[j]};
    } else {
      mapNew := mapNew[q[j] := t.info[q[j]].refCount];
    }
  }

  ghost predicate AllPass(t: Tables, seen: seq<int>) {
    forall n :: n in seen && n in t.info ==> CheckEntry(t, n) == 0
  }

  ghost predicate Collected(t: Tables, seen: seq<int>, setTried: set<int>, mapNew: map<int, int>) {
    && (forall n :: n in setTried <==> n in seen && n in t.info && t.info[n].inTried)
    && (forall n :: n in mapNew <==> n in seen && n in t.info && !t.info[n].inTried)
    && (forall n :: n in mapNew ==> mapNew[n] == t.info[n].refCount)
  }

  lemma {:induction false} AllInOrder(t: Tables, q: seq<int>)
    requires forall x :: x in q <==> x in t.info.Keys
    ensures AllPass(t, q) <==> forall n :: n in t.info ==> CheckEntry(t, n) == 0
  {
  }

  lemma {:induction false} CollectNext(t: Tables, q: seq<int>, j: nat, setTried: set<int>, mapNew: map<int, int>)
    requires j < |q| && q[j] in t.info && Collected(t, q[..j], setTried, mapNew)
    ensures AllPass(t, q[..j]) && CheckEntry(t, q[j]) == 0 ==> AllPass(t, q[..j + 1])
    ensures if t.info[q[j]].inTried then Collected(t, q[..j + 1], setTried + {q[j]}, mapNew)
            else Collected(t, q[..j + 1], setTried, mapNew[q[j] := t.info[q[j]].refCount])
  {
    assert q[..j + 1] == q[..j] + [q[j]];
  }

  lemma {:induction false} CollectedAll(t: Tables, q: seq<int>, setTried: set<int>, mapNew: map<int, int>)
    requires (forall x :: x in q <==> x in t.info.Keys) && Collected(t, q, setTried, mapNew)
    ensures setTried == TriedIds(t.info) && mapNew.Keys == NewIds(t.info)
  {
    forall n ensures n in setTried <==> n in TriedIds(t.info) { }
    forall n ensures n in mapNew.Keys <==> n in NewIds(t.info) { }
  }

  // ---------------------------------------------------------------- the tried buckets

  /** All entries of the buckets, one bucket after the other. */
  ghost function Flat(buckets: seq<seq<int>>): seq<int> {
    if buckets == [] then [] else Flat(buckets[..|buckets| - 1]) + buckets[|buckets| - 1]
  }

  /** The buckets list exactly these ids, each once. */
  ghost predicate ListsOnce(buckets: seq<seq<int>>, ids: set<int>) {
    Distinct(Flat(buckets)) && forall x :: x in Flat(buckets) <==> x in ids
  }

  lemma {:induction false} FlatPrefix(buckets: seq<seq<int>>, b: nat)
    requires b <= |buckets|
    ensures Flat(buckets[..b]) <= Flat(buckets)
    decreases |buckets| - b
  {
    if b == |buckets| {
      assert buckets[..b] == buckets;
    } else {
      FlatPrefix(buckets, b + 1);
      assert buckets[..b + 1][..b] == buckets[..b];
    }
  }

  /** Some of the buckets' entries, in order: those struck so far. */
  ghost function SeenTried(buckets: seq<seq<int>>, b: nat, i: nat): seq<int>
    requires b < |buckets| && i <= |buckets[b]|
  {
    Flat(buckets[..b]) + buckets[b][..i]
  }

  lemma {:induction false} SeenPrefix(buckets: seq<seq<int>>, b: nat, i: nat)
    requires b < |buckets| && i <= |buckets[b]|
    ensures SeenTried(buckets, b, i) <= Flat(buckets)
  {
    FlatPrefix(buckets, b + 1);
    assert buckets[..b + 1][..b] == buckets[..b];
    assert buckets[b][..i] <= buckets[b];
  }

  /** `seen` are distinct ids of the set, and `left` are the others. */
  ghost predicate Struck(ids: set<int>, seen: seq<int>, left: set<int>) {
    Distinct(seen) && (forall x :: x in seen ==> x in ids) && forall x :: x in left <==> x in ids && x !in seen
  }

  lemma {:induction false} StrikeNext(ids: set<int>, seen: seq<int>, left: set<int>, x: int)
    requires Struck(ids, seen, left)
    ensures x in left ==> Struck(ids, seen + [x], left - {x})
    ensures x !in left ==> !(Distinct(seen + [x]) && x in ids)
  {
    if x !in left && x in ids {
      assert x in seen;
      var k :| 0 <= k < |seen| && seen[k] == x;
      assert (seen + [x])[k] == (seen + [x])[|seen|];
    }
  }

  /** A repeated or foreign entry in a prefix spoils the listing. */
  lemma {:induction false} BadPrefix(buckets: seq<seq<int>>, ids: set<int>, q: seq<int>, x: int)
    requires q + [x] <= Flat(buckets) && !(Distinct(q + [x]) && x in ids)
    ensures !ListsOnce(buckets, ids)
  {
    var f := Flat(buckets);
    assert f[|q|] == x && x in f;
    assert Distinct(f) ==> Distinct(f[..|q| + 1]);
    assert q + [x] == f[..|q| + 1];
  }

  /** The second loop: strike out the tried ids that the tried buckets list. */
  method StrikeTried(buckets: seq<seq<int>>, setTried: set<int>) returns (code: int, left: set<int>)
    ensures code == 0 && left == {} <==> ListsOnce(buckets, setTried)
  {
    left := setTried;
    for b := 0 to |buckets|
      invariant Struck(setTried, Flat(buckets[..b]), left)
    {
      assert SeenTried(buckets, b, 0) == Flat(buckets[..b]);
      for i := 0 to |buckets[b]|
        invariant Struck(setTried, SeenTried(buckets, b, i), left)
      {
        var x := buckets[b][i];
        StrikeNext(setTried, SeenTried(buckets, b, i), left, x);
        assert SeenTried(buckets, b, i + 1) == SeenTried(buckets, b, i) + [x];
        if x !in left {
          SeenPrefix(buckets, b, i + 1);
          BadPrefix(buckets, setTried, SeenTried(buckets, b, i), x);
          return -11, left;
        }
        left := left - {x};
      }
      assert buckets[..b + 1][..b] == buckets[..b] && buckets[b][..|buckets[b]|] == buckets[b];
    }
    assert buckets[..|buckets|] == buckets;
    AllStruck(buckets, setTried, left);
    return 0, left;
  }

  lemma {:induction false} AllStruck(buckets: seq<seq<int>>, ids: set<int>, left: set<int>)
    requires Struck(ids, Flat(buckets), left)
    ensures left == {} <==> ListsOnce(buckets, ids)
  {
    if left == {} {
      forall x ensures x in Flat(buckets) <==> x in ids {
        assert x !in left;
      }
    }
    if ListsOnce(buckets, ids) {
      forall x ensures x !in left { }
    }
  }

  // ---------------------------------------------------------------- the "new" buckets

  /** operator[] of mapNew, for counting. */
  ghost function Count(m: map<int, int>, x: int): int { if x in m then m[x] else 0 }

  /** References of `x` in the first b buckets and among the ids `seen` of the next. */
  ghost function Used(news: seq<set<int>>, b: nat, seen: seq<int>, x: int): nat
    requires b <= |news|
  {
    Refs(news[..b], x) + (if x in seen then 1 else 0)
  }

  /** `left` holds what is left of the counts in `mapNew` after those references, if positive. */
  ghost predicate NewLeft(news: seq<set<int>>, mapNew: map<int, int>, b: nat, seen: seq<int>, left: map<int, int>)
    requires b <= |news|
  {
    forall x :: CountedAt(news, mapNew, b, seen, left, x)
  }

  ghost predicate CountedAt(news: seq<set<int>>, mapNew: map<int, int>, b: nat, seen: seq<int>, left: map<int, int>, x: int)
    requires b <= |news|
  {
    && Count(left, x) == Count(mapNew, x) - Used(news, b, seen, x) >= 0
    && (x in left ==> left[x] > 0)
  }

  /** Count one listed id off. */
  function CountedOff(left: map<int, int>, x: int): map<int, int>
    requires x in left
  {
    if left[x] == 1 then left - {x} else left[x := left[x] - 1]
  }

  lemma {:induction false} CountNext(news: seq<set<int>>, mapNew: map<int, int>, b: nat, seen: seq<int>, left: map<int, int>, x: int)
    requires b < |news| && x in news[b] && x !in seen && NewLeft(news, mapNew, b, seen, left)
    ensures x in left ==> NewLeft(news, mapNew, b, seen + [x], CountedOff(left, x))
    ensures x !in left ==> Refs(news, x) != Count(mapNew, x)
  {
    assert CountedAt(news, mapNew, b, seen, left, x);
    if x in left {
      forall y ensures CountedAt(news, mapNew, b, seen + [x], CountedOff(left, x), y) {
        assert CountedAt(news, mapNew, b, seen, left, y);
        assert y in seen + [x] <==> y in seen || y == x;
      }
    } else {
      RefsPrefix(news, b + 1, x);
      assert news[..b + 1][..b] == news[..b];
    }
  }

  lemma {:induction false} CountBucketEnd(news: seq<set<int>>, mapNew: map<int, int>, b: nat, seen: seq<int>, left: map<int, int>)
    requires b < |news| && (forall x :: x in seen <==> x in news[b]) && NewLeft(news, mapNew, b, seen, left)
    ensures NewLeft(news, mapNew, b + 1, [], left)
  {
    var c := b + 1;
    assert news[..c][..b] == news[..b];
    forall y ensures CountedAt(news, mapNew, c, [], left, y) {
      assert CountedAt(news, mapNew, b, seen, left, y);
    }
  }

  lemma {:induction false} CountStart(news: seq<set<int>>, mapNew: map<int, int>)
    requires forall x :: x in mapNew ==> mapNew[x] > 0
    ensures NewLeft(news, mapNew, 0, [], mapNew)
  {
    forall x ensures CountedAt(news, mapNew, 0, [], mapNew, x) { }
  }

  lemma {:induction false} CountEnd(news: seq<set<int>>, mapNew: map<int, int>, left: map<int, int>)
    requires NewLeft(news, mapNew, |news|, [], left)
    ensures left == map[] <==> forall x :: Refs(news, x) == Count(mapNew, x)
  {
    assert news[..|news|] == news;
    if left == map[] {
      forall x ensures Refs(news, x) == Count(mapNew, x) {
        assert CountedAt(news, mapNew, |news|, [], left, x);
      }
    }
    if forall x :: Refs(news, x) == Count(mapNew, x) {
      forall x ensures x !in left {
        assert CountedAt(news, mapNew, |news|, [], left, x);
        assert Refs(news, x) == Count(mapNew, x);
      }
    }
  }

  /** One bucket of the third loop. */
  method CountBucket(news: seq<set<int>>, ghost mapNew: map<int, int>, b: nat, left0: map<int, int>) returns (code: int, left: map<int, int>)
    requires b < |news| && NewLeft(news, mapNew, b, [], left0)
    ensures code == 0 ==> NewLeft(news, mapNew, b + 1, [], left)
    ensures code != 0 ==> exists x :: Refs(news, x) != Count(mapNew, x)
  {
    var q := Iterate(news[b]);
    left := left0;
    for i := 0 to |q|
      invariant NewLeft(news, mapNew, b, q[..i], left)
    {
      assert q[i] in q && q[i] !in q[..i];
      CountNext(news, mapNew, b, q[..i], left, q[i]);
      if q[i] !in left {
        return -12, left;
      }
      assert q[..i + 1] == q[..i] + [q[i]];
      left := CountedOff(left, q[i]);
    }
    assert q[..|q|] == q;
    CountBucketEnd(news, mapNew, b, q, left);
    return 0, left;
  }

  /** The third loop: count the references in the "new" buckets off. */
  method CountNew(news: seq<set<int>>, mapNew: map<int, int>) returns (code: int, left: map<int, int>)
    requires forall x :: x in mapNew ==> mapNew[x] > 0
    ensures code == 0 && left == map[] <==> forall x :: Refs(news, x) == Count(mapNew, x)
  {
    left := mapNew;
    CountStart(news, mapNew);
    for b := 0 to |news|
      invariant NewLeft(news, mapNew, b, [], left)
    {
      code, left := CountBucket(news, mapNew, b, left);
      if code != 0 {
        return;
      }
    }
    CountEnd(news, mapNew, left);
    return 0, left;
  }

  // ---------------------------------------------------------------- the whole check

  /** The references an id should have: nRefCount if it is not tried. */
  ghost function NewCount(t: Tables, x: int): int {
    if x in t.info && !t.info[x].inTried then t.info[x].refCount else 0
  }

  /** What Check_ demands of the tables. */
  ghost predicate Passes(t: Tables) {
    && |t.random| == t.nTried + t.nNew
    && (forall n :: n in t.info ==> CheckEntry(t, n) == 0)
    && |TriedIds(t.info)| == t.nTried && |NewIds(t.info)| == t.nNew
    && ListsOnce(t.tried, TriedIds(t.info))
    && (forall x :: Refs(t.news, x) == NewCount(t, x))
  }

  lemma {:induction false} NewCounts(t: Tables, mapNew: map<int, int>)
    requires mapNew.Keys == NewIds(t.info) && forall n :: n in mapNew ==> mapNew[n] == t.info[n].refCount
    requires forall n :: n in t.info ==> CheckEntry(t, n) == 0
    ensures (forall x :: Count(mapNew, x) == NewCount(t, x)) && forall x :: x in mapNew ==> mapNew[x] > 0
  {
    forall x ensures Count(mapNew, x) == NewCount(t, x) && (x in mapNew ==> mapNew[x] > 0) {
      assert x in mapNew.Keys <==> x in NewIds(t.info);
      assert x in t.info ==> CheckEntry(t, x) == 0;
    }
  }

  /** Check_ returns zero exactly on the tables that meet its demands. */
  method Check(t: Tables) returns (code: int)
    ensures code == 0 <==> Passes(t)
  {
    if |t.random| != t.nTried + t.nNew {
      return -7;
    }
    var setTried, mapNew;
    code, setTried, mapNew := CheckEntries(t);
    if code != 0 {
      return;
    }
    if |setTried| != t.nTried {
      return -9;
    }
    if |mapNew| != t.nNew {
      return -10;
    }
    NewCounts(t, mapNew);
    var left, count;
    code, left := StrikeTried(t.tried, setTried);
    if code != 0 {
      return;
    }
    code, count := CountNew(t.news, mapNew);
    if code != 0 {
      return;
    }
    if |left| != 0 {
      return -13;
    }
    if |count| != 0 {
      return -15;
    }
    return 0;
  }

  // ---------------------------------------------------------------- the invariant passes

  lemma {:induction false} EntryPasses(k: Key, t: Tables, n: int)
    requires Inv(k, t) && n in t.info
    ensures CheckEntry(t, n) == 0
  {
    assert IndexedAt(t, n) && PlaceOk(t.info[n]) && StatsOk(t.info[n]);
  }

  lemma {:induction false} SizesAgree(k: Key, t: Tables)
    requires Structure(k, t)
    ensures |t.random| == t.nTried + t.nNew
  {
    ListedKeys(t);
    ListedSize(t.random);
    KeysSplit(t.info);
  }

  lemma {:induction false} KeysSplit(info: map<int, Info>)
    ensures |info.Keys| == |NewIds(info)| + |TriedIds(info)|
  {
    assert info.Keys == NewIds(info) + TriedIds(info);
  }

  lemma {:induction false} ListedKeys(t: Tables)
    requires Indexed(t)
    ensures (set i | 0 <= i < |t.random| :: t.random[i]) == t.info.Keys && Distinct(t.random)
  {
    forall x | x in t.info ensures exists i :: 0 <= i < |t.random| && t.random[i] == x {
      assert IndexedAt(t, x);
    }
  }

  lemma {:induction false} ListedSize(s: seq<int>)
    requires Distinct(s)
    ensures |set i | 0 <= i < |s| :: s[i]| == |s|
  {
    if s != [] {
      var k := |s| - 1;
      ListedSize(s[..k]);
      var shorter := set i | 0 <= i < k :: s[..k][i];
      assert (set i | 0 <= i < |s| :: s[i]) == shorter + {s[k]};
    }
  }

  /** The tried buckets of a state that meets the invariant list each tried id once. */
  lemma {:induction false} TriedListed(k: Key, t: Tables, b: nat)
    requires TriedOk(k, t) && b <= |t.tried|
    ensures Distinct(Flat(t.tried[..b]))
    ensures forall x :: x in Flat(t.tried[..b]) <==> exists c :: 0 <= c < b && x in t.tried[c]
  {
    if b > 0 {
      var a, last := b - 1, t.tried[b - 1];
      TriedListed(k, t, a);
      assert t.tried[..b][..a] == t.tried[..a];
      assert TriedBucketOk(k, t, a);
      forall x | x in last ensures x !in Flat(t.tried[..a]) {
        assert TriedAt(k, t, x, a);
        forall c | 0 <= c < a ensures x !in t.tried[c] {
          assert TriedBucketOk(k, t, c);
          assert x in t.tried[c] ==> TriedAt(k, t, x, c);
        }
      }
      DistinctJoin(Flat(t.tried[..a]), last);
    }
  }

  lemma {:induction false} DistinctJoin(a: seq<int>, b: seq<int>)
    requires Distinct(a) && Distinct(b) && forall x :: x in b ==> x !in a
    ensures Distinct(a + b)
  {
    forall i, j | 0 <= i < j < |a + b| ensures (a + b)[i] != (a + b)[j] {
      if i < |a| <= j {
        assert b[j - |a|] in b && a[i] in a;
      }
    }
  }

  lemma {:induction false} InvListsOnce(k: Key, t: Tables)
    requires TriedOk(k, t)
    ensures ListsOnce(t.tried, TriedIds(t.info))
  {
    TriedListed(k, t, |t.tried|);
    assert t.tried[..|t.tried|] == t.tried;
    forall x ensures x in Flat(t.tried) <==> x in TriedIds(t.info) {
      if c :| 0 <= c < |t.tried| && x in t.tried[c] {
        assert TriedBucketOk(k, t, c);
        assert TriedAt(k, t, x, c);
      }
      if x in TriedIds(t.info) {
        assert x in t.tried[TriedBucket(k, t.info[x])];
      }
    }
  }

  /** Every state that meets the invariant passes. */
  lemma {:induction false} InvPasses(k: Key, t: Tables)
    requires Inv(k, t)
    ensures Passes(t)
  {
    SizesAgree(k, t);
    forall n | n in t.info ensures CheckEntry(t, n) == 0 {
      EntryPasses(k, t, n);
    }
    InvListsOnce(k, t);
    forall x ensures Refs(t.news, x) == NewCount(t, x) {
      if x in t.info {
        assert RefCountOk(t, x, NONE) && PlaceOk(t.info[x]);
      } else {
        FreshHasNoRefs(t, x);
      }
    }
  }

  // ---------------------------------------------------------------- times that break the tables

  // ---------------------------------------------------------------- what the check does not see

  /** What the invariant demands and Check_ does not look at: that ids are in use only once counted and every
      entry's address is known, that no address outlives its entry, the sizes of the buckets, and that
      tried entries are in the buckets they hash to. */
  ghost predicate Unseen(k: Key, t: Tables) {
    && t.idCount >= 0 && NONE !in t.info && (forall x :: x in t.info ==> x < t.idCount && t.info[x].ip in t.addr)
    && (forall ip :: ip in t.addr ==> t.addr[ip] in t.info && t.info[t.addr[ip]].ip == ip)
    && |t.news| == NEW_BUCKET_COUNT && (forall b :: 0 <= b < |t.news| ==> |t.news[b]| <= NEW_BUCKET_SIZE)
    && |t.tried| == TRIED_BUCKET_COUNT && (forall b :: 0 <= b < |t.tried| ==> TriedPlaced(k, t, b))
  }

  ghost predicate TriedPlaced(k: Key, t: Tables, b: nat)
    requires b < |t.tried|
  {
    |t.tried[b]| <= TRIED_BUCKET_SIZE && forall x :: x in t.tried[b] && x in t.info ==> TriedBucket(k, t.info[x]) == b
  }

  ghost function Below(n: nat): (s: set<int>)
    ensures |s| == n && forall i :: i in s <==> 0 <= i < n
  {
    if n == 0 then {} else Below(n - 1) + {n - 1}
  }

  /** As many different numbers below n as there are: all of them. */
  lemma {:induction false} AllBelow(q: seq<int>, i: nat)
    requires Distinct(q) && (forall j :: 0 <= j < |q| ==> 0 <= q[j] < |q|) && i < |q|
    ensures i in q
  {
    var taken, below := set j | 0 <= j < |q| :: q[j], Below(|q|);
    ListedSize(q);
    assert below == taken + (below - taken);
    assert i in taken;
  }

  ghost function PlacesOf(t: Tables, q: seq<int>): (r: seq<int>)
    requires Known(t.info, q)
    ensures |r| == |q| && forall j :: 0 <= j < |q| ==> r[j] == t.info[q[j]].randomPos
  {
    seq(|q|, j requires 0 <= j < |q| => t.info[q[j]].randomPos)
  }

  /** If every entry's place in vRandom leads back to it and there are no more places than entries, every
      place is some entry's. */
  lemma {:induction false} EveryPlaceTaken(t: Tables, i: nat)
    requires |t.random| == |t.info.Keys| && i < |t.random|
    requires forall x :: x in t.info ==> 0 <= t.info[x].randomPos < |t.random| && t.random[t.info[x].randomPos] == x
    ensures t.random[i] in t.info && t.info[t.random[i]].randomPos == i
  {
    var q := Ascending(t.info.Keys);
    assert Known(t.info, q) by {
      forall j | 0 <= j < |q| ensures q[j] in t.info {
        assert q[j] in q;
      }
    }
    var places := PlacesOf(t, q);
    forall a, b | 0 <= a < b < |q| ensures places[a] != places[b] {
      assert q[a] in t.info && q[b] in t.info && q[a] < q[b];
    }
    AllBelow(places, i);
    var j :| 0 <= j < |places| && places[j] == i;
    assert q[j] in t.info;
  }

  lemma {:induction false} FlatHolds(buckets: seq<seq<int>>, x: int)
    ensures x in Flat(buckets) <==> exists b :: 0 <= b < |buckets| && x in buckets[b]
  {
    if buckets != [] {
      var k := |buckets| - 1;
      FlatHolds(buckets[..k], x);
      if x in Flat(buckets[..k]) {
        var b :| 0 <= b < k && x in buckets[..k][b];
        assert x in buckets[b];
      }
    }
  }

  lemma {:induction false} FlatBucketDistinct(buckets: seq<seq<int>>, b: nat)
    requires b < |buckets| && Distinct(Flat(buckets))
    ensures Distinct(buckets[b])
  {
    var q := buckets[b];
    SeenPrefix(buckets, b, |q|);
    var front := Flat(buckets[..b]);
    forall i, j | 0 <= i < j < |q| ensures q[i] != q[j] {
      assert SeenTried(buckets, b, |q|)[|front| + i] == q[i] && SeenTried(buckets, b, |q|)[|front| + j] == q[j];
      assert Flat(buckets)[|front| + i] == q[i] && Flat(buckets)[|front| + j] == q[j];
    }
  }

  lemma {:induction false} SeenTriedOk(k: Key, t: Tables)
    requires Passes(t) && Unseen(k, t)
    ensures TriedOk(k, t)
  {
    forall b | 0 <= b < |t.tried| ensures TriedBucketOk(k, t, b) {
      FlatBucketDistinct(t.tried, b);
      assert TriedPlaced(k, t, b);
      forall x | x in t.tried[b] ensures TriedAt(k, t, x, b) {
        FlatHolds(t.tried, x);
        assert x in TriedIds(t.info);
      }
    }
    forall x | x in t.info && t.info[x].inTried ensures x in t.tried[TriedBucket(k, t.info[x])] {
      assert x in TriedIds(t.info);
      FlatHolds(t.tried, x);
      var b :| 0 <= b < |t.tried| && x in t.tried[b];
      assert TriedPlaced(k, t, b);
    }
  }

  lemma {:induction false} SeenNewsOk(k: Key, t: Tables)
    requires Passes(t) && Unseen(k, t)
    ensures NewsOk(t) && EntriesOk(t, NONE)
  {
    forall b | 0 <= b < |t.news| ensures NewBucketOk(t, b) {
      forall x | x in t.news[b] ensures x in t.info {
        RefsZero(t.news, x);
        assert Refs(t.news, x) == NewCount(t, x);
      }
    }
    forall x | x in t.info ensures PlaceOk(t.info[x]) && RefCountOk(t, x, NONE) {
      EntryPassesIff(t, x);
      assert CheckEntry(t, x) == 0 && Refs(t.news, x) == NewCount(t, x);
    }
  }

  lemma {:induction false} SeenIndexed(k: Key, t: Tables)
    requires Passes(t) && Unseen(k, t)
    ensures Indexed(t)
  {
    KeysSplit(t.info);
    forall x | x in t.info ensures IndexedAt(t, x) {
      assert CheckEntry(t, x) == 0;
      EntryPassesIff(t, x);
    }
    forall i | 0 <= i < |t.random| ensures t.random[i] in t.info && t.info[t.random[i]].randomPos == i {
      forall x | x in t.info ensures 0 <= t.info[x].randomPos < |t.random| && t.random[t.info[x].randomPos] == x {
        assert IndexedAt(t, x);
      }
      EveryPlaceTaken(t, i);
    }
  }

  /** Tables meet the invariant exactly if Check_ accepts them and what it does not look at is in order: it
      misses nothing of the reference counts, of vRandom, and of which entries are listed where. */
  lemma {:induction false} InvIff(k: Key, t: Tables)
    ensures Inv(k, t) <==> Passes(t) && Unseen(k, t)
  {
    if Inv(k, t) {
      InvPasses(k, t);
      forall x | x in t.info ensures x < t.idCount && t.info[x].ip in t.addr {
        assert IndexedAt(t, x);
      }
      forall b | 0 <= b < |t.news| ensures |t.news[b]| <= NEW_BUCKET_SIZE {
        assert NewBucketOk(t, b);
      }
      forall b | 0 <= b < |t.tried| ensures TriedPlaced(k, t, b) {
        assert TriedBucketOk(k, t, b);
        assert forall x :: x in t.tried[b] ==> TriedAt(k, t, x, b);
      }
    }
    if Passes(t) && Unseen(k, t) {
      SeenIndexed(k, t);
      SeenNewsOk(k, t);
      SeenTriedOk(k, t);
      forall x | x in t.info ensures StatsOk(t.info[x]) {
        assert CheckEntry(t, x) == 0;
        EntryPassesIff(t, x);
      }
    }
  }

  /** Good_ leaves tables that pass Check_ if and only if the time is positive or the address is not
      known with that port. */
  lemma {:induction false} GoodPassesIff(k: Key, t: Tables, ip: NetAddr, port: int, time: int, r: Draws)
    requires Inv(k, t)
    ensures Passes(GoodDone(k, t, ip, port, time, r)) <==> time > 0 || !Matches(t, ip, port)
  {
    var u := GoodDone(k, t, ip, port, time, r);
    GoodKeepsInv(k, t, ip, port, time, r);
    if time > 0 || !Matches(t, ip, port) {
      InvPasses(k, u);
    } else {
      GoodFails(k, t, t.addr[ip], time, r);
      assert u == GoodKnown(k, t, t.addr[ip], time, r);
    }
  }

  lemma {:induction false} GoodFails(k: Key, t: Tables, id: int, time: int, r: Draws)
    requires Structure(k, t) && id in t.info && time <= 0
    ensures !Passes(GoodKnown(k, t, id, time, r))
  {
    var u := GoodKnown(k, t, id, time, r);
    assert u.info[id].inTried && u.info[id].lastSuccess == time;
    assert CheckEntry(u, id) != 0;
  }

  /** Likewise Attempt_, for a time that is not negative. */
  lemma {:induction false} AttemptPassesIff(k: Key, t: Tables, ip: NetAddr, port: int, time: int)
    requires Inv(k, t)
    ensures Passes(AttemptDone(t, ip, port, time)) <==> time >= 0 || !Matches(t, ip, port)
  {
    var u := AttemptDone(t, ip, port, time);
    AttemptKeepsInv(k, t, ip, port, time);
    if time >= 0 || !Matches(t, ip, port) {
      InvPasses(k, u);
    } else {
      assert u.info[t.addr[ip]].lastTry == time;
      assert CheckEntry(u, t.addr[ip]) != 0;
    }
  }

  /** The tables after a first Add_. */
  ghost function FirstKnown(k: Key, a: Address, source: NetAddr, now: int, r: Draws): (t: Tables)
    ensures Inv(k, t)
  {
    EmptyInv(k);
    AddKeepsInv(k, Empty(), a, source, 0, now, r);
    AddDone(k, Empty(), a, source, 0, now, r).0
  }

  lemma {:induction false} FirstMatches(k: Key, a: Address, source: NetAddr, now: int, r: Draws)
    requires k.routable(a.ip)
    ensures Matches(FirstKnown(k, a, source, now, r), a.ip, a.port)
  {
    EmptyInv(k);
    var t, id := Empty(), Empty().idCount;
    AddRemembers(k, t, a, source, 0, now, r);
    NotedReady(k, t, a, source, 0);
    var n := Noted(t, a, source, 0);
    var u := Gained(k, n, id, source, now, Skip(r, 1));
    var v :| Gain(n, u, id, v);
    assert IndexedAt(u, id);
  }

  /** Both failures happen: address 1 on port 8333, announced to a new address manager, and then
      marked good at time 0, or attempted at time -1. */
  lemma {:induction false} TimesCanFail(k: Key, r: Draws)
    requires k.routable(1)
    ensures var t := FirstKnown(k, Address(1, 8333, 1, 1_500_000_000), 2, 1_500_000_000, r);
      && Inv(k, t) && Passes(t) && !Passes(GoodDone(k, t, 1, 8333, 0, r)) && !Passes(AttemptDone(t, 1, 8333, -1))
  {
    var a := Address(1, 8333, 1, 1_500_000_000);
    var t := FirstKnown(k, a, 2, 1_500_000_000, r);
    FirstMatches(k, a, 2, 1_500_000_000, r);
    InvPasses(k, t);
    GoodPassesIff(k, t, 1, 8333, 0, r);
    AttemptPassesIff(k, t, 1, 8333, -1);
  }
}
