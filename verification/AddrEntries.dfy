/** What becomes of one address in the address manager (addrman.cpp): its counters, as the operations
    that named it since it was last good, and what follows for IsTerrible; its time, services and
    references; and the buckets it moves between. */
module AddrEntries {
  import opened Basics
  import opened StdOrder
  import opened AddrTables
  import opened AddrOperations
  import opened TriedSelection

  datatype Stats = Stats(attempts: int, lastTry: int, lastSuccess: int)

  ghost function StatsOf(i: Info): Stats { Stats(i.attempts, i.lastTry, i.lastSuccess) }

  /** The entry `id` is the one for this address and port. */
  ghost predicate Names(t: Tables, id: int, ip: NetAddr, port: int) {
    id in t.info && t.info[id].ip == ip && t.info[id].port == port
  }

  lemma {:induction false} NamesIff(t: Tables, id: int, ip: NetAddr, port: int)
    requires Indexed(t) && id in t.info
    ensures Names(t, id, ip, port) <==> Matches(t, ip, port) && t.addr[ip] == id
  {
    assert IndexedAt(t, id);
  }

  /** An operation that names an unknown address, or a known one at another port, changes nothing. */
  lemma {:induction false} OtherPortIgnored(k: Key, t: Tables, ip: NetAddr, port: int, time: int, r: Draws)
    requires Inv(k, t) && forall id :: id in t.info ==> !Names(t, id, ip, port)
    ensures GoodDone(k, t, ip, port, time, r) == AttemptDone(t, ip, port, time) == ConnectedDone(t, ip, port, time) == t
  {
    if Matches(t, ip, port) {
      assert Names(t, t.addr[ip], ip, port);
    }
  }

  // ---------------------------------------------------------------- what one operation does to an entry

  /** What the operation leaves of an entry's statistics. */
  ghost function StatsAfter(t: Tables, op: Operation, id: int): Stats
    requires id in t.info
  {
    var s := StatsOf(t.info[id]);
    match op
    case Good(ip, port, time, _) => if Names(t, id, ip, port) then Stats(0, time, time) else s
    case Attempt(ip, port, time) => if Names(t, id, ip, port) then Stats(s.attempts + 1, time, s.lastSuccess) else s
    case _ => s
  }

  ghost predicate StatsFollow(t: Tables, u: Tables, op: Operation) {
    forall id :: id in u.info ==>
      StatsOf(u.info[id]) == if id in t.info then StatsAfter(t, op, id) else Stats(0, 0, 0)
  }

  lemma {:induction false} GainKeeps(s: Tables, u: Tables, id: int, v: int)
    requires Gain(s, u, id, v)
    ensures forall x :: x in u.info ==> x in s.info && StatsOf(u.info[x]) == StatsOf(s.info[x])
  {
  }

  lemma {:induction false} AddStats(k: Key, t: Tables, op: Operation)
    requires Inv(k, t) && op.Add?
    ensures StatsFollow(t, Applied(k, t, op), op)
  {
    var Add(a, source, penalty, now, r) := op;
    var u := Applied(k, t, op);
    if k.routable(a.ip) {
      if a.ip in t.addr {
        var id := t.addr[a.ip];
        var s := WithInfo(t, id, Refreshed(t.info[id], a, penalty, now));
        var v :| Gain(s, u, id, v);
        GainKeeps(s, u, id, v);
      } else {
        var s := Noted(t, a, source, penalty);
        NotedReady(k, t, a, source, penalty);
        var v :| Gain(s, u, t.idCount, v);
        GainKeeps(s, u, t.idCount, v);
      }
    }
  }

  lemma {:induction false} GoodFollows(k: Key, t: Tables, op: Operation)
    requires Inv(k, t) && op.Good?
    ensures StatsFollow(t, Applied(k, t, op), op)
  {
    var Good(ip, port, time, r) := op;
    var u := Applied(k, t, op);
    forall id | id in u.info ensures id in t.info && StatsOf(u.info[id]) == StatsAfter(t, op, id) {
      if Matches(t, ip, port) {
        var gone :| Demoted(t, u, t.addr[ip], gone);
      }
      NamesIff(t, id, ip, port);
    }
  }

  lemma {:induction false} AttemptFollows(k: Key, t: Tables, op: Operation)
    requires Inv(k, t) && op.Attempt?
    ensures StatsFollow(t, Applied(k, t, op), op)
  {
    forall id | id in t.info ensures Names(t, id, op.ip, op.port) <==> Matches(t, op.ip, op.port) && t.addr[op.ip] == id {
      NamesIff(t, id, op.ip, op.port);
    }
  }

  lemma {:induction false} GetAddrFollows(k: Key, t: Tables, op: Operation)
    requires Inv(k, t) && op.GetAddr?
    ensures StatsFollow(t, Applied(k, t, op), op)
  {
    ShuffledKeeps(t, op.r, 0, GetAddrCount(|t.random|));
    var u := Applied(k, t, op);
    forall id | id in u.info ensures StatsOf(u.info[id]) == StatsOf(t.info[id]) {
      assert u.info[id] == t.info[id].(randomPos := u.info[id].randomPos);
    }
  }

  /** Good_ clears the count of its entry's attempts and Attempt_ adds one, each noting its time; every
      other entry keeps its statistics, and a new one starts with none. */
  lemma {:induction false} AppliedStats(k: Key, t: Tables, op: Operation)
    requires Inv(k, t)
    ensures StatsFollow(t, Applied(k, t, op), op)
  {
    match op
    case Add(_, _, _, _, _) => AddStats(k, t, op);
    case Good(_, _, _, _) => GoodFollows(k, t, op);
    case Attempt(_, _, _) => AttemptFollows(k, t, op);
    case Connected(_, _, _) =>
    case GetAddr(_) => GetAddrFollows(k, t, op);
  }

  // ---------------------------------------------------------------- whole runs

  /** Operation i is an attempt at the entry. */
  ghost predicate AttemptAt(states: seq<Tables>, ops: seq<Operation>, id: int, i: nat) {
    i < |ops| && i < |states| && ops[i].Attempt? && Names(states[i], id, ops[i].ip, ops[i].port)
  }

  ghost predicate GoodAt(states: seq<Tables>, ops: seq<Operation>, id: int, i: nat) {
    i < |ops| && i < |states| && ops[i].Good? && Names(states[i], id, ops[i].ip, ops[i].port)
  }

  /** The attempts at the entry from operation i up to operation j. */
  ghost function AttemptsBetween(states: seq<Tables>, ops: seq<Operation>, id: int, i: nat, j: nat): nat
    requires i <= j
    decreases j
  {
    if i == j then 0
    else AttemptsBetween(states, ops, id, i, j - 1) + if AttemptAt(states, ops, id, j - 1) then 1 else 0
  }

  /** Since state i the entry has been there and has not been good again. */
  ghost predicate NotGoodSince(states: seq<Tables>, ops: seq<Operation>, id: int, i: nat, j: nat)
    requires i <= j < |states|
  {
    && (forall n :: i <= n <= j ==> id in states[n].info)
    && (forall n :: i <= n < j ==> !GoodAt(states, ops, id, n))
  }

  lemma {:induction false} RunStats(k: Key, states: seq<Tables>, ops: seq<Operation>, i: nat)
    requires IsHistory(k, states, ops) && i < |ops|
    ensures StatsFollow(states[i], states[i + 1], ops[i])
  {
    RunKeepsInv(k, states, ops, i);
    assert AppliedAt(k, states, ops, i);
    AppliedStats(k, states[i], ops[i]);
  }

  /** While an entry is not good again, its count grows by the attempts at it, and its last success stays. */
  lemma {:induction false} CountGrows(k: Key, states: seq<Tables>, ops: seq<Operation>, id: int, i: nat, j: nat)
    requires IsHistory(k, states, ops) && i <= j < |states| && NotGoodSince(states, ops, id, i, j)
    ensures states[j].info[id].attempts == states[i].info[id].attempts + AttemptsBetween(states, ops, id, i, j)
    ensures states[j].info[id].lastSuccess == states[i].info[id].lastSuccess
    ensures AttemptsBetween(states, ops, id, i, j) == 0 ==> states[j].info[id].lastTry == states[i].info[id].lastTry
    decreases j
  {
    if i < j {
      CountGrows(k, states, ops, id, i, j - 1);
      RunStats(k, states, ops, j - 1);
      assert id in states[j].info && id in states[j - 1].info && !GoodAt(states, ops, id, j - 1);
    }
  }

  /** Since it was created: the count is that of all attempts at it, and it never had a success. */
  lemma {:induction false} CountSinceCreated(k: Key, states: seq<Tables>, ops: seq<Operation>, id: int, i: nat, j: nat)
    requires IsHistory(k, states, ops) && 0 < i <= j < |states| && NotGoodSince(states, ops, id, i, j)
    requires id !in states[i - 1].info
    ensures states[j].info[id].attempts == AttemptsBetween(states, ops, id, i, j)
    ensures states[j].info[id].lastSuccess == 0
  {
    assert id in states[i].info;
    RunStats(k, states, ops, i - 1);
    CountGrows(k, states, ops, id, i, j);
  }

  /** Since it was last good, by operation i: the count is that of the attempts since. */
  lemma {:induction false} CountSinceGood(k: Key, states: seq<Tables>, ops: seq<Operation>, id: int, i: nat, j: nat)
    requires IsHistory(k, states, ops) && i < j < |states| && NotGoodSince(states, ops, id, i + 1, j)
    requires GoodAt(states, ops, id, i)
    ensures states[j].info[id].attempts == AttemptsBetween(states, ops, id, i + 1, j)
    ensures states[j].info[id].lastSuccess == ops[i].time
  {
    assert id in states[i + 1].info;
    RunStats(k, states, ops, i);
    CountGrows(k, states, ops, id, i + 1, j);
  }

  /** The last attempt at the entry was operation i. */
  lemma {:induction false} LastTryIs(k: Key, states: seq<Tables>, ops: seq<Operation>, id: int, i: nat, j: nat)
    requires IsHistory(k, states, ops) && i < j < |states| && NotGoodSince(states, ops, id, i + 1, j)
    requires AttemptAt(states, ops, id, i) && AttemptsBetween(states, ops, id, i + 1, j) == 0
    ensures states[j].info[id].lastTry == ops[i].time
  {
    assert id in states[i + 1].info;
    RunStats(k, states, ops, i);
    CountGrows(k, states, ops, id, i + 1, j);
  }

  // ---------------------------------------------------------------- terrible entries

  /** The entry is tried, was tried and seen at that time with success, and has no failed attempts. */
  ghost predicate JustGood(i: Info, ip: NetAddr, port: int, time: int) {
    && i.ip == ip && i.port == port && i.inTried
    && i.attempts == 0 && i.lastSuccess == time && i.lastTry == time && i.time == time
  }

  /** So Good_ leaves its entry. */
  lemma {:induction false} GoodResets(k: Key, t: Tables, ip: NetAddr, port: int, time: int, r: Draws)
    requires Structure(k, t) && Matches(t, ip, port) && 0 < time < 0x1_0000_0000
    ensures var u := GoodDone(k, t, ip, port, time, r);
      t.addr[ip] in u.info && JustGood(u.info[t.addr[ip]], ip, port, time)
  {
    GoodEntryIs(k, t, t.addr[ip], time, r);
  }

  lemma {:induction false} GoodEntryIs(k: Key, t: Tables, id: int, time: int, r: Draws)
    requires Structure(k, t) && id in t.info && 0 < time < 0x1_0000_0000
    ensures var u := GoodKnown(k, t, id, time, r);
      id in u.info && JustGood(u.info[id], t.info[id].ip, t.info[id].port, time)
  {
    StatsAreGood(t.info[id], GoodKnown(k, t, id, time, r).info[id], time);
  }

  lemma {:induction false} StatsAreGood(i: Info, j: Info, time: int)
    requires 0 < time < 0x1_0000_0000 && j == GoodStats(i, time).(inTried := true, refCount := 0)
    ensures JustGood(j, i.ip, i.port, time)
  {
  }

  /** It is then not terrible from ten minutes before that time to thirty days after it. */
  lemma {:induction false} GoodIsNotTerrible(i: Info, time: int, now: int)
    requires JustGood(i, i.ip, i.port, time) && time > 0 && time - 600 <= now <= time + HORIZON_DAYS * 86400
    ensures !IsTerrible(i, now)
  {
  }

  /** Three attempts since it was created and no success, the last more than a minute ago. */
  lemma {:induction false} TerribleAfterThree(k: Key, states: seq<Tables>, ops: seq<Operation>, id: int, i: nat, j: nat, now: int)
    requires IsHistory(k, states, ops) && 0 < i <= j < |states| && NotGoodSince(states, ops, id, i, j)
    requires id !in states[i - 1].info && AttemptsBetween(states, ops, id, i, j) >= 3
    ensures IsTerrible(states[j].info[id], now) <==> states[j].info[id].lastTry < now - 60
  {
    CountSinceCreated(k, states, ops, id, i, j);
    WasTried(k, states, ops, id, i, j);
  }

  /** An attempt leaves a time of last try. */
  lemma {:induction false} WasTried(k: Key, states: seq<Tables>, ops: seq<Operation>, id: int, i: nat, j: nat)
    requires IsHistory(k, states, ops) && i <= j < |states| && NotGoodSince(states, ops, id, i, j)
    requires AttemptsBetween(states, ops, id, i, j) > 0
    ensures states[j].info[id].lastTry > 0
    decreases j
  {
    RunStats(k, states, ops, j - 1);
    assert id in states[j].info && id in states[j - 1].info && !GoodAt(states, ops, id, j - 1);
    assert AppliedAt(k, states, ops, j - 1);
    if !AttemptAt(states, ops, id, j - 1) {
      WasTried(k, states, ops, id, i, j - 1);
    }
  }

  /** Ten attempts since it was last good, more than a week ago, the last more than a minute ago. */
  lemma {:induction false} TerribleAfterTen(k: Key, states: seq<Tables>, ops: seq<Operation>, id: int, i: nat, j: nat, now: int)
    requires IsHistory(k, states, ops) && i < j < |states| && NotGoodSince(states, ops, id, i + 1, j)
    requires GoodAt(states, ops, id, i) && AttemptsBetween(states, ops, id, i + 1, j) >= 10 && now - ops[i].time > 7 * 86400
    ensures IsTerrible(states[j].info[id], now) <==> states[j].info[id].lastTry < now - 60
  {
    CountSinceGood(k, states, ops, id, i, j);
    WasTried(k, states, ops, id, i + 1, j);
  }

  /** With fewer failures only the time it was last seen counts: in the last thirty days, and not more
      than ten minutes ahead. */
  lemma {:induction false} FewFailures(i: Info, now: int)
    requires i.attempts < if i.lastSuccess == 0 then 3 else 10
    ensures IsTerrible(i, now) <==>
      (i.lastTry == 0 || i.lastTry < now - 60) && !(i.time != 0 && now - 30 * 86400 <= i.time <= now + 600)
  {
  }

  // ---------------------------------------------------------------- times and services

  /** Connected_ refreshes the time of its entry if it is more than twenty minutes behind, and nothing else. */
  lemma {:induction false} ConnectedRefreshes(k: Key, t: Tables, ip: NetAddr, port: int, time: int)
    requires Inv(k, t) && Matches(t, ip, port) && 0 <= time < 0x1_0000_0000
    ensures var id, u := t.addr[ip], ConnectedDone(t, ip, port, time);
      && id in u.info && u == t.(info := t.info[id := u.info[id]])
      && u.info[id] == t.info[id].(time := u.info[id].time)
      && u.info[id].time >= time - 20 * 60
      && (u.info[id].time == time || u.info[id].time == t.info[id].time)
      && (t.info[id].time >= time - 20 * 60 ==> u == t)
  {
    assert t.info == t.info[t.addr[ip] := t.info[t.addr[ip]]];
  }

  /** The time that an announcement gives an address, less the penalty. */
  ghost function Announced(a: Address, penalty: int): int { Max(0, a.time - penalty) }

  lemma {:induction false} RefreshedIs(i: Info, a: Address, penalty: int, now: int)
    requires 0 < a.time < 0x1_0000_0000 && penalty >= 0 && i.time >= 0
    ensures var f := Refreshed(i, a, penalty, now);
      && f == i.(time := f.time, services := i.services | a.services)
      && f.time >= i.time && (f.time == i.time || f.time == Announced(a, penalty))
      && f.time + penalty + (if now - a.time < 86400 then 3600 else 86400) >= a.time
  {
  }

  lemma {:induction false} KnownEntryIs(k: Key, t: Tables, a: Address, source: NetAddr, penalty: int, now: int, r: Draws)
    requires Inv(k, t) && k.routable(a.ip) && a.ip in t.addr
    ensures var id, u := t.addr[a.ip], AddDone(k, t, a, source, penalty, now, r).0;
      && id in t.info && id in u.info
      && u.info[id] == Refreshed(t.info[id], a, penalty, now).(refCount := u.info[id].refCount, randomPos := u.info[id].randomPos)
  {
    var id := t.addr[a.ip];
    var s := WithInfo(t, id, Refreshed(t.info[id], a, penalty, now));
    var v :| Gain(s, AddDone(k, t, a, source, penalty, now, r).0, id, v);
  }

  /** An announcement of a known address adds its services and never sets its time back; afterwards the
      time is behind the announced one by no more than the penalty and an hour, or a day if the address
      has not been seen for a day. */
  lemma {:induction false} AnnouncedAgain(k: Key, t: Tables, a: Address, source: NetAddr, penalty: int, now: int, r: Draws)
    requires Inv(k, t) && k.routable(a.ip) && a.ip in t.addr
    requires 0 < a.time < 0x1_0000_0000 && penalty >= 0 && t.info[t.addr[a.ip]].time >= 0
    ensures var id, u := t.addr[a.ip], AddDone(k, t, a, source, penalty, now, r).0;
      && id in u.info
      && u.info[id].services == t.info[id].services | a.services
      && u.info[id].time >= t.info[id].time
      && (u.info[id].time == t.info[id].time || u.info[id].time == Announced(a, penalty))
      && u.info[id].time + penalty + (if now - a.time < 86400 then 3600 else 86400) >= a.time
      && u.info[id] == t.info[id].(time := u.info[id].time, services := u.info[id].services,
                                   refCount := u.info[id].refCount, randomPos := u.info[id].randomPos)
  {
    KnownEntryIs(k, t, a, source, penalty, now, r);
    RefreshedIs(t.info[t.addr[a.ip]], a, penalty, now);
  }

  /** Add_'s last part counts one more reference exactly if the bucket did not hold the entry yet. */
  lemma {:induction false} OneMoreReference(k: Key, t: Tables, id: int, source: NetAddr, now: int, r: Draws)
    requires id in t.info && InvWith(k, Claimed(t, id), id) && (Structure(k, t) || Refs(t.news, id) == 0)
    ensures var b, u := NewBucket(k, t.info[id].ip, source), Gained(k, t, id, source, now, r);
      u.info[id].refCount == t.info[id].refCount + if id in t.news[b] then 0 else 1
  {
    var b, c := NewBucket(k, t.info[id].ip, source), Claimed(t, id);
    if id !in t.news[b] && |t.news[b]| == NEW_BUCKET_SIZE {
      var u := Shrunk(k, c, b, now, r, id);
      var v :| v in c.news[b] && OthersKept(c, u, v) && RestKept(c, u, b, v) && LostReference(c, u, v);
      assert u.info[id] == c.info[id].(randomPos := u.info[id].randomPos);
      assert Gained(k, t, id, source, now, r) == Held(u, b, id);
    } else if id !in t.news[b] {
      assert Gained(k, t, id, source, now, r) == Held(c, b, id);
    } else {
      assert Gained(k, t, id, source, now, r) == t;
    }
  }

  /** A known address gains a reference only if the announcement is news even after the update of its time,
      it is not tried, has fewer than four, and the draw among two to the power of its references is zero;
      then it is in the bucket that the source selects. */
  lemma {:induction false} AnotherReference(k: Key, t: Tables, a: Address, source: NetAddr, penalty: int, now: int, r: Draws)
    requires Inv(k, t) && k.routable(a.ip) && a.ip in t.addr && a.time > 0
    ensures var id, u := t.addr[a.ip], AddDone(k, t, a, source, penalty, now, r).0;
      && id in u.info
      && var b := k.newHash(a.ip, source) % NEW_BUCKET_COUNT;
      && var before := t.info[id];
      && var lucky := (u.info[id].time == 0 || a.time > u.info[id].time) && !before.inTried && before.refCount < 4
                      && RandInt(r(0), Pow2(before.refCount)) == 0;
      && (lucky ==> id in u.news[b])
      && u.info[id].refCount == before.refCount + if lucky && id !in t.news[b] then 1 else 0
  {
    var id := t.addr[a.ip];
    var i := Refreshed(t.info[id], a, penalty, now);
    var s := WithInfo(t, id, i);
    WithInfoStructure(k, t, id, i);
    var u := AddDone(k, t, a, source, penalty, now, r).0;
    var v :| Gain(s, u, id, v);
    assert PlaceOk(t.info[id]) && t.info[id].ip == a.ip;
    if Again(i, a, r) {
      ClaimedInv(k, s, id);
      OneMoreReference(k, s, id, source, now, Skip(r, 1));
    }
  }

  lemma {:induction false} NotedIs(t: Tables, a: Address, source: NetAddr, penalty: int)
    requires 0 <= a.time < 0x1_0000_0000 && penalty >= 0
    ensures var n := Noted(t, a, source, penalty);
      n.info[t.idCount] == Info(a.ip, a.port, a.services, Announced(a, penalty), source, 0, 0, 0, 0, false, n.info[t.idCount].randomPos)
  {
  }

  lemma {:induction false} FirstReference(k: Key, t: Tables, a: Address, source: NetAddr, penalty: int, now: int, r: Draws)
    requires Inv(k, t) && k.routable(a.ip) && a.ip !in t.addr
    ensures var id, n, u := t.idCount, Noted(t, a, source, penalty), AddDone(k, t, a, source, penalty, now, r).0;
      && id !in t.info && id in n.info && id in u.info && id in u.news[NewBucket(k, a.ip, source)]
      && u.info[id] == n.info[id].(refCount := n.info[id].refCount + 1, randomPos := u.info[id].randomPos)
      && a.ip in u.addr && u.addr[a.ip] == id
  {
    NotedReady(k, t, a, source, penalty);
    var id, n := t.idCount, Noted(t, a, source, penalty);
    var u := Gained(k, n, id, source, now, Skip(r, 1));
    assert n.info[id].ip == a.ip;
    var v :| Gain(n, u, id, v);
    assert IndexedAt(u, id);
    RefsZero(n.news, id);
    OneMoreReference(k, n, id, source, now, Skip(r, 1));
  }

  /** An unknown address is entered as announced, with one reference, in the bucket its source selects. */
  lemma {:induction false} AnnouncedFirst(k: Key, t: Tables, a: Address, source: NetAddr, penalty: int, now: int, r: Draws)
    requires Inv(k, t) && k.routable(a.ip) && a.ip !in t.addr && 0 <= a.time < 0x1_0000_0000 && penalty >= 0
    ensures var id, u := t.idCount, AddDone(k, t, a, source, penalty, now, r).0;
      && id !in t.info && id in u.info && id in u.news[k.newHash(a.ip, source) % NEW_BUCKET_COUNT]
      && u.info[id] == Info(a.ip, a.port, a.services, Announced(a, penalty), source, 0, 0, 0, 1, false, u.info[id].randomPos)
      && a.ip in u.addr && u.addr[a.ip] == id
  {
    NotedIs(t, a, source, penalty);
    FirstReference(k, t, a, source, penalty, now, r);
  }

  // ---------------------------------------------------------------- what makes room in a bucket

  /** The four positions drawn. */
  ghost function FourDrawn(r: Draws, n: nat): (p: seq<nat>)
    requires n > 0
    ensures |p| == 4 && forall i :: 0 <= i < 4 ==> p[i] == RandInt(r(i), n)
  {
    [RandInt(r(0), n), RandInt(r(1), n), RandInt(r(2), n), RandInt(r(3), n)]
  }

  lemma {:induction false} OldestAmong(info: map<int, Info>, q: seq<int>, p: seq<nat>, picks: set<int>, v: int) returns (m: nat)
    requires Known(info, q) && |p| == 4 && (forall i :: 0 <= i < 4 ==> p[i] < |q|) && picks == {p[0], p[1], p[2], p[3]}
    requires IsOldest(info, q, picks, |q|, v) && v != NONE
    ensures m < 4 && v == q[p[m]] && forall i :: 0 <= i < 4 ==> info[v].time <= info[q[p[i]]].time
  {
    var i :| 0 <= i < |q| && i in picks && OldestAt(info, q, picks, |q|, i) && v == q[i];
    m :| 0 <= m < 4 && i == p[m];
    forall l | 0 <= l < 4 ensures info[v].time <= info[q[p[l]]].time {
      assert p[l] in picks;
    }
  }

  /** In a bucket without a terrible entry one of those at four random positions goes, none of which was last
      seen before it. */
  lemma {:induction false} OldestOfFour(t: Tables, b: nat, now: int, r: Draws) returns (m: nat)
    requires b < |t.news| && Known(t.info, Ascending(t.news[b])) && t.news[b] != {} && NONE !in t.info
    requires forall x :: x in t.news[b] ==> x in t.info && !IsTerrible(t.info[x], now)
    ensures m < 4
    ensures var q := Ascending(t.news[b]); var v, p := Victim(t, b, now, r), FourDrawn(r, |q|);
      v == q[p[m]] && forall i :: 0 <= i < 4 ==> t.info[v].time <= t.info[q[p[i]]].time
  {
    var q := Ascending(t.news[b]);
    VictimIs(t, b, now, r);
    m := OldestAmong(t.info, q, FourDrawn(r, |q|), Picks(r, |q|), Victim(t, b, now, r));
  }

  /** The bucket at place c, counting round. */
  ghost predicate HeldRound(news: seq<set<int>>, id: int, c: nat) {
    |news| > 0 && id in news[c % |news|]
  }

  /** The bucket that Good_ takes as an entry's origin is the first that holds it from a random one on and round. */
  lemma {:induction false} FoundNearest(news: seq<set<int>>, id: int, start: nat, n: nat) returns (c: nat)
    requires |news| > 0 && FindBucket(news, id, start, n).Some?
    ensures start <= c < start + n && FindBucket(news, id, start, n).value == c % |news| && HeldRound(news, id, c)
    ensures forall d :: start <= d < c ==> !HeldRound(news, id, d)
    decreases n
  {
    if HeldRound(news, id, start) {
      c := start;
    } else {
      c := FoundNearest(news, id, start + 1, n - 1);
    }
  }

  // ---------------------------------------------------------------- where a tried entry goes

  /** `gone` left the tried bucket kb for `id`, and went to its own "new" bucket if that has room, else to
      the one `id` came from. */
  ghost predicate Replaced(k: Key, t: Tables, u: Tables, id: int, origin: nat, kb: nat, gone: int)
    requires |t.tried| == |u.tried| == TRIED_BUCKET_COUNT && |t.news| == |u.news| == NEW_BUCKET_COUNT && kb < TRIED_BUCKET_COUNT
  {
    && gone in t.tried[kb] && gone in t.info && gone != id
    && multiset(u.tried[kb]) == multiset(t.tried[kb]) - multiset{gone} + multiset{id}
    && var own := k.newHash(t.info[gone].ip, t.info[gone].source) % NEW_BUCKET_COUNT;
       var back := if |t.news[own] - {id}| < NEW_BUCKET_SIZE then own else origin;
       forall c :: 0 <= c < |t.news| ==> u.news[c] == t.news[c] - {id} + if c == back then {gone} else {}
  }

  /** The entry of the tried bucket kb that SelectTried offers. */
  ghost function Offered(t: Tables, kb: nat, r: Draws): int
    requires kb < |t.tried| && Known(t.info, t.tried[kb]) && NONE !in t.info && t.tried[kb] != []
  {
    SelectFromFacts(t.info, t.tried[kb], r);
    var (q, p) := SelectFrom(t.info, t.tried[kb], r, 0, NONE, NONE);
    q[p]
  }

  /** `id` has its place in the bucket as SelectTried leaves it. */
  ghost predicate Offers(t: Tables, u: Tables, id: int, kb: nat, r: Draws) {
    && kb < |t.tried| == |u.tried| && Known(t.info, t.tried[kb]) && NONE !in t.info && t.tried[kb] != []
    && var (q, p) := SelectFrom(t.info, t.tried[kb], r, 0, NONE, NONE);
       0 <= p < |q| && u.tried[kb] == q[p := id]
  }

  lemma {:induction false} PlaceTaken(bucket: seq<int>, pos: nat, id: int)
    requires pos < |bucket|
    ensures multiset(bucket[pos := id]) == multiset(bucket) - multiset{bucket[pos]} + multiset{id}
  {
  }

  lemma {:induction false} SettledEvicts(k: Key, t: Tables, id: int, origin: nat, r: Draws) returns (bucket: seq<int>, pos: nat)
    requires Loose(k, t, id) && origin < NEW_BUCKET_COUNT && |t.news[origin]| < NEW_BUCKET_SIZE
    requires |t.tried[TriedBucket(k, t.info[id])]| >= TRIED_BUCKET_SIZE
    ensures Permuted(t.tried[TriedBucket(k, t.info[id])], bucket) && pos < |bucket|
    ensures bucket[pos] in t.info && bucket[pos] != id
    ensures Known(t.info, t.tried[TriedBucket(k, t.info[id])])
    ensures SelectFrom(t.info, t.tried[TriedBucket(k, t.info[id])], r, 0, NONE, NONE) == (bucket, pos)
    ensures Settled(k, t, id, origin, r) == Evicted(k, t, id, origin, bucket, pos)
  {
    var kb := TriedBucket(k, t.info[id]);
    TriedKnown(k, t, kb);
    var (b, p) := SelectFrom(t.info, t.tried[kb], r, 0, NONE, NONE);
    SelectFromFacts(t.info, t.tried[kb], r);
    GoneIsTried(k, t, id, b, p);
    return b, p;
  }

  lemma {:induction false} MadeTriedSettles(k: Key, t: Tables, id: int, origin: nat, r: Draws)
    requires Structure(k, t) && origin < NEW_BUCKET_COUNT && id in t.news[origin]
    ensures id in t.info && Loose(k, Unlisted(t, id), id) && |Unlisted(t, id).news[origin]| < NEW_BUCKET_SIZE
    ensures MadeTried(k, t, id, origin, r) == Settled(k, Unlisted(t, id), id, origin, r)
  {
    OriginHasRoom(k, t, id, origin);
    UnlistedLoose(k, t, id);
  }

  /** With room the entry goes to the end of the bucket. */
  lemma {:induction false} PlacedAtEnd(k: Key, t: Tables, id: int, origin: nat, r: Draws)
    requires Structure(k, t) && origin < NEW_BUCKET_COUNT && id in t.news[origin] && id in t.info
    requires |t.tried[TriedBucket(k, t.info[id])]| < TRIED_BUCKET_SIZE
    ensures var u, kb := MadeTried(k, t, id, origin, r), TriedBucket(k, t.info[id]);
      && |u.tried| == TRIED_BUCKET_COUNT && |u.news| == NEW_BUCKET_COUNT
      && (forall b :: 0 <= b < |t.tried| && b != kb ==> u.tried[b] == t.tried[b])
      && u.tried[kb] == t.tried[kb] + [id] && forall c :: 0 <= c < |t.news| ==> u.news[c] == t.news[c] - {id}
  {
    MadeTriedSettles(k, t, id, origin, r);
    assert MadeTried(k, t, id, origin, r) == Placed(k, Unlisted(t, id), id);
  }

  /** An eviction replaces the entry at its position. */
  lemma {:induction false} EvictedReplaces(k: Key, t: Tables, id: int, origin: nat, bucket: seq<int>, pos: nat)
    requires Structure(k, t) && id in t.info && origin < NEW_BUCKET_COUNT && pos < |bucket|
    requires multiset(bucket) == multiset(t.tried[TriedBucket(k, t.info[id])])
    requires bucket[pos] in t.info && bucket[pos] != id
    ensures var u, kb := Evicted(k, Unlisted(t, id), id, origin, bucket, pos), TriedBucket(k, t.info[id]);
      && |u.tried| == TRIED_BUCKET_COUNT && |u.news| == NEW_BUCKET_COUNT
      && (forall b :: 0 <= b < |t.tried| && b != kb ==> u.tried[b] == t.tried[b])
      && u.tried[kb] == bucket[pos := id] && Replaced(k, t, u, id, origin, kb, bucket[pos])
  {
    PlaceTaken(bucket, pos, id);
    assert bucket[pos] in multiset(bucket);
  }

  lemma {:induction false} MadeTriedEvicts(k: Key, t: Tables, id: int, origin: nat, r: Draws) returns (bucket: seq<int>, pos: nat)
    requires Structure(k, t) && origin < NEW_BUCKET_COUNT && id in t.news[origin] && id in t.info
    requires |t.tried[TriedBucket(k, t.info[id])]| >= TRIED_BUCKET_SIZE
    ensures Permuted(t.tried[TriedBucket(k, t.info[id])], bucket) && pos < |bucket|
    ensures bucket[pos] in t.info && bucket[pos] != id && Known(t.info, t.tried[TriedBucket(k, t.info[id])])
    ensures SelectFrom(t.info, t.tried[TriedBucket(k, t.info[id])], r, 0, NONE, NONE) == (bucket, pos)
    ensures MadeTried(k, t, id, origin, r) == Evicted(k, Unlisted(t, id), id, origin, bucket, pos)
  {
    MadeTriedSettles(k, t, id, origin, r);
    var s, kb := Unlisted(t, id), TriedBucket(k, t.info[id]);
    assert TriedBucket(k, s.info[id]) == kb;
    bucket, pos := SettledEvicts(k, s, id, origin, r);
    SelectSame(s.info, t.info, t.tried[kb], r, 0, NONE, NONE);
  }

  /** In a full bucket it takes the place of the one that SelectTried offers. */
  lemma {:induction false} PlacedInstead(k: Key, t: Tables, id: int, origin: nat, r: Draws)
    requires Structure(k, t) && origin < NEW_BUCKET_COUNT && id in t.news[origin] && id in t.info
    requires |t.tried[TriedBucket(k, t.info[id])]| >= TRIED_BUCKET_SIZE
    ensures var u, kb := MadeTried(k, t, id, origin, r), TriedBucket(k, t.info[id]);
      && |u.tried| == TRIED_BUCKET_COUNT && |u.news| == NEW_BUCKET_COUNT
      && (forall b :: 0 <= b < |t.tried| && b != kb ==> u.tried[b] == t.tried[b])
      && Offers(t, u, id, kb, r) && Replaced(k, t, u, id, origin, kb, Offered(t, kb, r))
  {
    var bucket, pos := MadeTriedEvicts(k, t, id, origin, r);
    EvictedReplaces(k, t, id, origin, bucket, pos);
  }

  /** MakeTried takes the entry out of all "new" buckets and puts it into the tried bucket it hashes to:
      at the end if there is room, else in the place of the entry that SelectTried offers. */
  lemma {:induction false} MadeTriedPlaces(k: Key, t: Tables, id: int, origin: nat, r: Draws)
    requires Structure(k, t) && origin < NEW_BUCKET_COUNT && id in t.news[origin]
    ensures id in t.info
    ensures var u, kb := MadeTried(k, t, id, origin, r), k.triedHash(t.info[id].ip, t.info[id].port) % TRIED_BUCKET_COUNT;
      && |u.tried| == TRIED_BUCKET_COUNT && |u.news| == NEW_BUCKET_COUNT
      && (forall b :: 0 <= b < |t.tried| && b != kb ==> u.tried[b] == t.tried[b])
      && if |t.tried[kb]| < TRIED_BUCKET_SIZE
         then u.tried[kb] == t.tried[kb] + [id] && forall c :: 0 <= c < |t.news| ==> u.news[c] == t.news[c] - {id}
         else Offers(t, u, id, kb, r) && Replaced(k, t, u, id, origin, kb, Offered(t, kb, r))
  {
    OriginHasRoom(k, t, id, origin);
    if |t.tried[TriedBucket(k, t.info[id])]| < TRIED_BUCKET_SIZE {
      PlacedAtEnd(k, t, id, origin, r);
    } else {
      PlacedInstead(k, t, id, origin, r);
    }
  }
}
