/** The bounded map of per-identity buckets of api/internal/mcp/ratelimit.go.

    A `rate.Limiter` is represented by its identity, a number handed out at creation. The
    linked list of the source is a sequence, front first. The capacity, a constant of 10,000
    there, is a parameter here. */
module LruLimiters {

  /** An identity, such as "apikey:7" or "user:3". */
  datatype Key = Key(text: string)

  /** The calls made so far, oldest innermost. */
  datatype Uses = Unused | Then(before: Uses, key: Key)

  function Append(h: Uses, more: Uses): Uses {
    match more
    case Unused => h
    case Then(before, key) => Then(Append(h, before), key)
  }

  /** The distinct keys used. */
  function Keys(h: Uses): set<Key> {
    match h
    case Unused => {}
    case Then(before, key) => Keys(before) + {key}
  }

  // ----- Sequences without repetition -----

  function Elements(s: seq<Key>): set<Key> { set x | x in s }

  ghost predicate Distinct(s: seq<Key>) {
    forall i, j :: 0 <= i < j < |s| ==> s[i] != s[j]
  }

  /** `s` without the first occurrence of `key`. */
  function Remove(s: seq<Key>, key: Key): seq<Key> {
    if s == [] then [] else if s[0] == key then s[1..] else [s[0]] + Remove(s[1..], key)
  }

  /** What stands before the first occurrence of `key`. */
  function Before(s: seq<Key>, key: Key): seq<Key> {
    if s == [] || s[0] == key then [] else [s[0]] + Before(s[1..], key)
  }

  function Cut(s: seq<Key>, n: nat): seq<Key> { if |s| <= n then s else s[..n] }

  lemma DistinctCons(x: Key, s: seq<Key>)
    requires Distinct(s) && x !in s
    ensures Distinct([x] + s)
  {
    var t := [x] + s;
    forall i, j | 0 <= i < j < |t| ensures t[i] != t[j] {
      assert t[j] == s[j - 1];
      if i > 0 { assert t[i] == s[i - 1]; }
    }
  }

  lemma DistinctTail(s: seq<Key>)
    requires Distinct(s) && s != []
    ensures Distinct(s[1..]) && s[0] !in s[1..] && s == [s[0]] + s[1..]
  {
  }

  lemma {:induction false} RemoveFacts(s: seq<Key>, key: Key)
    requires Distinct(s)
    ensures Distinct(Remove(s, key))
    ensures forall x :: x in Remove(s, key) <==> x in s && x != key
  {
    if s != [] {
      DistinctTail(s);
      if s[0] != key {
        RemoveFacts(s[1..], key);
        DistinctCons(s[0], Remove(s[1..], key));
      }
    }
  }

  lemma {:induction false} RemoveKept(s: seq<Key>, key: Key, m: nat)
    requires m <= |s| && key !in s[..m]
    ensures m <= |Remove(s, key)| && Remove(s, key)[..m] == s[..m]
  {
    if m > 0 {
      assert s[..m] == [s[0]] + s[1..][..m - 1];
      RemoveKept(s[1..], key, m - 1);
    }
  }

  lemma {:induction false} RemoveInside(s: seq<Key>, key: Key, m: nat)
    requires m <= |s| && key in s[..m]
    ensures m - 1 <= |Remove(s, key)| && Remove(s[..m], key) == Remove(s, key)[..m - 1]
  {
    assert s[..m] == [s[0]] + s[1..][..m - 1];
    assert s[..m][1..] == s[1..][..m - 1];
    if s[0] != key { RemoveInside(s[1..], key, m - 1); }
  }

  /** Moving a key to the front commutes with cutting. */
  lemma CutMoveToFront(s: seq<Key>, key: Key, n: nat)
    requires n >= 1 && Distinct(s)
    ensures key in Cut(s, n) ==> Cut([key] + Remove(s, key), n) == [key] + Remove(Cut(s, n), key)
    ensures key !in Cut(s, n) ==> Cut([key] + Remove(s, key), n) == [key] + Cut(s, n - 1)
  {
    var m := if |s| <= n then |s| else n;
    assert Cut(s, n) == s[..m];
    if key in s[..m] {
      RemoveInside(s, key, m);
      RemoveLength(s, key);
    } else {
      RemoveKept(s, key, m);
      RemoveLength(s, key);
    }
  }

  lemma {:induction false} RemoveLength(s: seq<Key>, key: Key)
    ensures |Remove(s, key)| == if key in s then |s| - 1 else |s|
  {
    if s != [] {
      assert s == [s[0]] + s[1..];
      if s[0] != key { RemoveLength(s[1..], key); }
    }
  }

  lemma {:induction false} DistinctSize(s: seq<Key>)
    requires Distinct(s)
    ensures |Elements(s)| == |s|
  {
    if s != [] {
      DistinctSize(s[1..]);
      assert s == [s[0]] + s[1..];
      assert Elements(s) == Elements(s[1..]) + {s[0]};
    }
  }

  lemma {:induction false} BeforeFacts(s: seq<Key>, key: Key, n: nat)
    requires Distinct(s) && key in s
    ensures Distinct(Before(s, key))
    ensures forall x :: x in Before(s, key) ==> x in s && x != key
    ensures key in Cut(s, n) <==> |Before(s, key)| < n
  {
    DistinctTail(s);
    if s[0] != key {
      BeforeFacts(s[1..], key, if n == 0 then 0 else n - 1);
      DistinctCons(s[0], Before(s[1..], key));
      if n > 0 { assert Cut(s, n) == [s[0]] + Cut(s[1..], n - 1); }
    } else if n > 0 {
      assert Cut(s, n)[0] == key;
    }
  }

  lemma {:induction false} BeforeRemove(s: seq<Key>, key: Key, x: Key)
    requires Distinct(s) && key in s && x != key
    ensures Before(Remove(s, x), key) == Remove(Before(s, key), x)
  {
    assert s == [s[0]] + s[1..];
    if s[0] == x {
      assert Before(s, key)[1..] == Before(s[1..], key);
    } else if s[0] != key {
      BeforeRemove(s[1..], key, x);
      assert ([s[0]] + Remove(s[1..], x))[1..] == Remove(s[1..], x);
      assert Before(s, key)[1..] == Before(s[1..], key);
    }
  }

  // ----- The list and the map -----

  datatype Lru = Lru(limiters: map<Key, nat>, order: seq<Key>, created: nat)

  predicate Full(capacity: nat, s: Lru) { |s.limiters| >= capacity && s.order != [] }

  /** A full list gives up its back entry. */
  function Evict(capacity: nat, s: Lru): Lru {
    if Full(capacity, s) then
      var n := |s.order| - 1;
      s.(limiters := s.limiters - {s.order[n]}, order := s.order[..n])
    else s
  }

  function Insert(s: Lru, key: Key): Lru {
    Lru(s.limiters[key := s.created], [key] + s.order, s.created + 1)
  }

  /** The state after getLimiter(key): move to the front, or evict the back and create. */
  function Touch(capacity: nat, s: Lru, key: Key): Lru {
    if key in s.limiters then s.(order := [key] + Remove(s.order, key))
    else Insert(Evict(capacity, s), key)
  }

  function After(capacity: nat, h: Uses): Lru {
    match h
    case Unused => Lru(map[], [], 0)
    case Then(before, key) => Touch(capacity, After(capacity, before), key)
  }

  class RateLimiter {
    const capacity: nat
    var limiters: map<Key, nat>
    var order: seq<Key>
    var created: nat
    ghost var uses: Uses

    ghost predicate Valid()
      reads this
    {
      capacity >= 1 && Lru(limiters, order, created) == After(capacity, uses)
    }

    constructor (capacity: nat)
      requires capacity >= 1
      ensures Valid() && this.capacity == capacity && uses == Unused
    {
      this.capacity := capacity;
      limiters, order, created, uses := map[], [], 0, Unused;
    }

    /** The list is the recency list of all uses so far, cut to the capacity, in bijection with
        the map; the bucket returned is the one the map holds for the key. */
    method GetLimiter(key: Key) returns (bucket: nat)
      requires Valid()
      modifies this
      ensures Valid() && uses == Then(old(uses), key)
      ensures order == Cut(Recent(uses), capacity)
      ensures limiters.Keys == Elements(order) && |limiters| == |order| <= capacity
      ensures key in limiters && bucket == limiters[key]
      ensures key in old(limiters) ==> bucket == old(limiters)[key]
      ensures key !in old(limiters) ==> bucket == old(created)
    {
      AfterTouch(capacity, uses, key);
      var limiters', order', created' := limiters, order, created;
      if key in limiters' {
        order' := [key] + Remove(order', key);
      } else {
        if |limiters'| >= capacity && order' != [] {
          var evicted := order'[|order'| - 1];
          order' := order'[..|order'| - 1];
          limiters' := limiters' - {evicted};
        }
        limiters' := limiters'[key := created'];
        order' := [key] + order';
        created' := created' + 1;
      }
      assert Lru(limiters', order', created') == Touch(capacity, Lru(limiters, order, created), key);
      bucket := limiters'[key];
      limiters, order, created, uses := limiters', order', created', Then(uses, key);
    }
  }

  lemma AfterTouch(capacity: nat, h: Uses, key: Key)
    requires capacity >= 1
    ensures var s := Touch(capacity, After(capacity, h), key);
            && s == After(capacity, Then(h, key)) && s.order == Cut(Recent(Then(h, key)), capacity)
            && s.limiters.Keys == Elements(s.order) && |s.limiters| == |s.order| <= capacity
  {
    AfterIsCutRecency(capacity, Then(h, key));
  }

  // ----- Recency -----

  /** All keys ever used, most recently used first. */
  function Recent(h: Uses): seq<Key> {
    match h
    case Unused => []
    case Then(before, key) => [key] + Remove(Recent(before), key)
  }

  lemma {:induction false} RecentDistinct(h: Uses)
    ensures Distinct(Recent(h))
    ensures forall x :: x in Recent(h) <==> x in Keys(h)
  {
    if h.Then? {
      RecentDistinct(h.before);
      RemoveFacts(Recent(h.before), h.key);
      DistinctCons(h.key, Remove(Recent(h.before), h.key));
    }
  }

  function Length(h: Uses): nat { if h.Unused? then 0 else Length(h.before) + 1 }

  /** The number of the last call that used the key. */
  function LastUse(h: Uses, key: Key): nat
    requires key in Keys(h)
  {
    if h.key == key then Length(h) else LastUse(h.before, key)
  }

  lemma {:induction false} LastUseBound(h: Uses, key: Key)
    requires key in Keys(h)
    ensures LastUse(h, key) <= Length(h)
  {
    if h.key != key { LastUseBound(h.before, key); }
  }

  ghost predicate LaterFirst(h: Uses, s: seq<Key>) {
    && (forall x :: x in s ==> x in Keys(h))
    && (forall i, j :: 0 <= i < j < |s| ==> LastUse(h, s[i]) > LastUse(h, s[j]))
  }

  lemma {:induction false} RemoveLaterFirst(h: Uses, s: seq<Key>, key: Key)
    requires Distinct(s) && LaterFirst(h, s)
    ensures LaterFirst(h, Remove(s, key))
  {
    if s != [] {
      DistinctTail(s);
      assert LaterFirst(h, s[1..]);
      if s[0] != key {
        RemoveFacts(s[1..], key);
        RemoveLaterFirst(h, s[1..], key);
        LaterFirstCons(h, s[0], s[1..], Remove(s[1..], key));
      }
    }
  }

  lemma LaterFirstCons(h: Uses, x: Key, s: seq<Key>, t: seq<Key>)
    requires LaterFirst(h, [x] + s) && LaterFirst(h, t) && forall y :: y in t ==> y in s
    ensures LaterFirst(h, [x] + t)
  {
    var u := [x] + t;
    assert ([x] + s)[0] == x;
    forall i, j | 0 <= i < j < |u| ensures LastUse(h, u[i]) > LastUse(h, u[j]) {
      assert u[j] == t[j - 1];
      if i == 0 {
        assert u[j] in t;
        var k :| 0 <= k < |s| && s[k] == u[j];
        assert ([x] + s)[k + 1] == u[j];
      } else {
        assert u[i] == t[i - 1];
      }
    }
  }

  /** Recent really lists the keys by last use, latest first. */
  lemma {:induction false} RecentByLastUse(h: Uses)
    ensures LaterFirst(h, Recent(h))
  {
    if h.Then? {
      RecentByLastUse(h.before);
      RecentDistinct(h.before);
      RecentDistinct(h);
      var t := Remove(Recent(h.before), h.key);
      RemoveFacts(Recent(h.before), h.key);
      RemoveLaterFirst(h.before, Recent(h.before), h.key);
      var r := [h.key] + t;
      forall i, j | 0 <= i < j < |r| ensures LastUse(h, r[i]) > LastUse(h, r[j]) {
        assert r[j] == t[j - 1];
        LastUseBound(h.before, t[j - 1]);
        if i > 0 { assert r[i] == t[i - 1]; }
      }
    }
  }

  ghost predicate Bijective(s: Lru) {
    && Distinct(s.order)
    && s.limiters.Keys == Elements(s.order)
    && |s.limiters| == |s.order|
    && (forall k :: k in s.limiters ==> s.limiters[k] < s.created)
  }

  ghost predicate Faithful(capacity: nat, s: Lru, recent: seq<Key>) {
    s.order == Cut(recent, capacity) && Bijective(s)
  }

  lemma TouchOrder(capacity: nat, s: Lru, recent: seq<Key>, key: Key)
    requires capacity >= 1 && Distinct(recent) && Faithful(capacity, s, recent)
    ensures Touch(capacity, s, key).order == Cut([key] + Remove(recent, key), capacity)
  {
    CutMoveToFront(recent, key, capacity);
    assert key in s.limiters <==> key in Elements(s.order);
    if key !in s.limiters {
      EvictOrder(capacity, s, recent);
    }
  }

  lemma EvictOrder(capacity: nat, s: Lru, recent: seq<Key>)
    requires capacity >= 1 && s.order == Cut(recent, capacity) && |s.limiters| == |s.order|
    ensures Evict(capacity, s).order == Cut(recent, capacity - 1)
  {
  }

  lemma EvictBijective(capacity: nat, s: Lru)
    requires Bijective(s)
    ensures Bijective(Evict(capacity, s)) && Evict(capacity, s).limiters.Keys <= s.limiters.Keys
  {
    if Full(capacity, s) {
      var n := |s.order| - 1;
      var back, rest := s.order[n], s.order[..n];
      assert s.order == rest + [back];
      assert back !in rest;
      assert Elements(rest) == Elements(s.order) - {back};
      assert (s.limiters - {back}).Keys == Elements(rest);
      DistinctSize(rest);
      assert |s.limiters - {back}| == |(s.limiters - {back}).Keys|;
    }
  }

  lemma InsertBijective(s: Lru, key: Key)
    requires Bijective(s) && key !in s.limiters
    ensures Bijective(Insert(s, key))
  {
    var s' := Insert(s, key);
    assert key !in Elements(s.order);
    DistinctCons(key, s.order);
    assert s'.limiters.Keys == Elements(s.order) + {key} == Elements(s'.order);
  }

  lemma TouchBijective(capacity: nat, s: Lru, key: Key)
    requires Bijective(s)
    ensures Bijective(Touch(capacity, s, key))
  {
    if key in s.limiters {
      var rest := Remove(s.order, key);
      RemoveFacts(s.order, key);
      RemoveLength(s.order, key);
      assert key in Elements(s.order);
      DistinctCons(key, rest);
      assert Elements([key] + rest) == Elements(s.order);
    } else {
      EvictBijective(capacity, s);
      InsertBijective(Evict(capacity, s), key);
    }
  }

  /** After any call sequence the list is the recency list cut to the capacity, in bijection
      with the map. */
  lemma {:induction false} AfterIsCutRecency(capacity: nat, h: Uses)
    requires capacity >= 1
    ensures Faithful(capacity, After(capacity, h), Recent(h))
  {
    if h.Unused? {
      assert Elements([]) == {};
    } else {
      AfterIsCutRecency(capacity, h.before);
      RecentDistinct(h.before);
      TouchOrder(capacity, After(capacity, h.before), Recent(h.before), h.key);
      TouchBijective(capacity, After(capacity, h.before), h.key);
    }
  }

  // ----- Who gets its bucket back -----

  /** After a use of `key` and then the calls `mid`, `key` stands behind exactly the distinct
      keys of `mid`. */
  lemma {:induction false} Position(h: Uses, key: Key, mid: Uses)
    requires key !in Keys(mid)
    ensures var r := Recent(Append(Then(h, key), mid));
            key in r && Elements(Before(r, key)) == Keys(mid)
  {
    if mid.Then? {
      Position(h, key, mid.before);
      var all := Append(Then(h, key), mid.before);
      var r, x := Recent(all), mid.key;
      RecentDistinct(all);
      RemoveFacts(r, x);
      BeforeFacts(r, key, 0);
      BeforeRemove(r, key, x);
      RemoveFacts(Before(r, key), x);
      assert ([x] + Remove(r, x))[1..] == Remove(r, x);
      assert Before([x] + Remove(r, x), key) == [x] + Remove(Before(r, key), x);
    }
  }

  /** `key` is still held after `mid` iff `mid` used fewer than `capacity` distinct keys. */
  lemma HeldIff(capacity: nat, h: Uses, key: Key, mid: Uses)
    requires capacity >= 1 && key !in Keys(mid)
    ensures key in After(capacity, Append(Then(h, key), mid)).limiters <==> |Keys(mid)| < capacity
  {
    var all := Append(Then(h, key), mid);
    Position(h, key, mid);
    AfterIsCutRecency(capacity, all);
    RecentDistinct(all);
    BeforeFacts(Recent(all), key, capacity);
    DistinctSize(Before(Recent(all), key));
  }

  /** A bucket that is still held is the one that was handed out at the earlier use. */
  lemma {:induction false} HeldUnchanged(capacity: nat, h: Uses, key: Key, mid: Uses)
    requires capacity >= 1 && key !in Keys(mid)
    ensures var first, now := After(capacity, Then(h, key)), After(capacity, Append(Then(h, key), mid));
            && first.created <= now.created
            && (key in now.limiters ==> key in first.limiters && now.limiters[key] == first.limiters[key])
  {
    if mid.Then? {
      HeldUnchanged(capacity, h, key, mid.before);
    }
  }

  /** A key gets its earlier bucket back iff fewer than `capacity` distinct other keys were used
      since its last use; otherwise it gets one created after every bucket existing then. */
  lemma SameBucketIff(capacity: nat, h: Uses, key: Key, mid: Uses)
    requires capacity >= 1 && key !in Keys(mid)
    ensures var first, again := After(capacity, Then(h, key)),
                                After(capacity, Then(Append(Then(h, key), mid), key));
            && key in first.limiters && key in again.limiters
            && (again.limiters[key] == first.limiters[key] <==> |Keys(mid)| < capacity)
            && (|Keys(mid)| >= capacity ==> again.limiters[key] >= first.created)
  {
    AfterIsCutRecency(capacity, Then(h, key));
    HeldIff(capacity, h, key, mid);
    HeldUnchanged(capacity, h, key, mid);
  }

  // ----- Pricing -----

  /** The tokens one request costs: never 0 and, with a positive burst, never more than the
      bucket can ever hold, so no priced tool is unreachable. */
  function CostOf(costs: map<string, int>, burst: int, name: string): (cost: int)
    ensures cost >= 1 && (burst > 0 ==> cost <= burst)
    ensures name in costs && 1 <= costs[name] && (burst > 0 ==> costs[name] <= burst) && name != "" ==> cost == costs[name]
    ensures name == "" || name !in costs || costs[name] < 1 ==> cost == 1
    ensures name != "" && name in costs && costs[name] > burst > 0 ==> cost == burst
  {
    if name == "" then 1
    else if name !in costs || costs[name] < 1 then 1
    else if burst > 0 && costs[name] > burst then burst
    else costs[name]
  }
}
