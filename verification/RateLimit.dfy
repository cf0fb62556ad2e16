/** The fixed-window limiter: INCR and EXPIRE NX on one key per identity. */
module RateLimit {
  import opened Base

  type Time = nat

  /** A stored counter; a key INCR has just created carries no expiry yet. */
  datatype Counter = Counter(count: nat, expiresAt: Option<Time>)

  /** The key as Redis sees it at `now`: gone once its expiry has passed. */
  function Alive(key: Option<Counter>, now: Time): Option<Counter> {
    if key.Some? && key.value.expiresAt.Some? && key.value.expiresAt.value <= now then None else key
  }

  function Incremented(key: Option<Counter>): Counter {
    if key.Some? then key.value.(count := key.value.count + 1) else Counter(1, None)
  }

  /** EXPIRE with NX: only a key that has no expiry gets one. */
  function ExpiryIfNone(c: Counter, deadline: Time): Counter {
    if c.expiresAt.Some? then c else c.(expiresAt := Some(deadline))
  }

  function Hit(key: Option<Counter>, window: nat, now: Time): Counter {
    ExpiryIfNone(Incremented(Alive(key, now)), now + window)
  }

  /** How Redis takes one pipeline: it answers, never sees it, or runs it and fails to answer. */
  datatype Redis = Reached | Down | AnswerLost

  /** One call of `consume`; the name is the namespace and the identity together. */
  datatype Call = Call(name: string, limit: int, window: nat, now: Time, redis: Redis)

  /** A limit of zero or less is no limit, and a Redis that is down counts nothing. */
  predicate Counted(c: Call) {
    c.limit > 0 && !c.redis.Down?
  }

  type Keys = map<string, Counter>

  function KeyOf(keys: Keys, name: string): Option<Counter> {
    if name in keys then Some(keys[name]) else None
  }

  /** The keys after one call, and its answer. */
  function Consumed(keys: Keys, c: Call): (Keys, bool) {
    if !Counted(c) then (keys, true)
    else
      var key := Hit(KeyOf(keys, c.name), c.window, c.now);
      (keys[c.name := key], c.redis.AnswerLost? || key.count <= c.limit)
  }

  class Limiter {
    var keys: map<string, Counter>

    constructor ()
      ensures keys == map[]
    {
      keys := map[];
    }

    /** `consume`; a Redis that fails lets the caller through, whether or not it has counted the hit. */
    method Consume(name: string, limit: int, window: nat, now: Time, redis: Redis) returns (allowed: bool)
      modifies this
      ensures (keys, allowed) == Consumed(old(keys), Call(name, limit, window, now, redis))
      ensures limit <= 0 || redis.Down? ==> allowed && keys == old(keys)
      ensures limit > 0 && !redis.Down? ==>
                && name in keys && keys == old(keys)[name := keys[name]]
                && keys[name].expiresAt.Some? && (allowed <==> redis.AnswerLost? || keys[name].count <= limit)
    {
      if limit <= 0 || redis.Down? {
        return true;
      }
      var counter := Incremented(Alive(KeyOf(keys, name), now));
      keys := keys[name := counter];
      if counter.expiresAt.None? {
        keys := keys[name := counter.(expiresAt := Some(now + window))];
      }
      assert keys == old(keys)[name := keys[name]];
      return redis.AnswerLost? || counter.count <= limit;
    }
  }

  // ---- one identity's hits over time ----

  ghost predicate InOrder(hits: seq<Time>) {
    forall i, j | 0 <= i <= j < |hits| :: hits[i] <= hits[j]
  }

  function KeyAfter(hits: seq<Time>, window: nat): Option<Counter> {
    if hits == [] then None else Some(Hit(KeyAfter(hits[..|hits| - 1], window), window, hits[|hits| - 1]))
  }

  /** Was the i-th hit let through? */
  predicate Admitted(hits: seq<Time>, window: nat, limit: nat, i: nat)
    requires i < |hits| && limit > 0
  {
    KeyAfter(hits[..i + 1], window).value.count <= limit
  }

  /** The first hit of the window the i-th hit falls in. */
  function Start(hits: seq<Time>, window: nat, i: nat): (s: nat)
    requires i < |hits|
    ensures s <= i
  {
    if i == 0 then 0
    else
      var before := Start(hits, window, i - 1);
      if hits[i] < hits[before] + window then before else i
  }

  lemma {:induction false} KeyCountsFromStart(hits: seq<Time>, window: nat, i: nat)
    requires InOrder(hits) && i < |hits| && window > 0
    ensures var s := Start(hits, window, i);
            KeyAfter(hits[..i + 1], window) == Some(Counter(i - s + 1, Some(hits[s] + window)))
            && hits[i] < hits[s] + window
  {
    assert hits[..i + 1][..i] == hits[..i];
    if i > 0 {
      KeyCountsFromStart(hits, window, i - 1);
    } else {
      assert hits[..0] == [];
    }
  }

  /**
   Each window admits exactly its first `limit` hits; a hit is only ever refused inside a window that
   is still open.
   */
  lemma AdmittedIff(hits: seq<Time>, window: nat, limit: nat, i: nat)
    requires InOrder(hits) && i < |hits| && window > 0 && limit > 0
    ensures Admitted(hits, window, limit, i) <==> i - Start(hits, window, i) < limit
    ensures hits[i] < hits[Start(hits, window, i)] + window
  {
    KeyCountsFromStart(hits, window, i);
  }

  lemma {:induction false} Starts(hits: seq<Time>, window: nat, i: nat, j: nat)
    requires InOrder(hits) && i <= j < |hits|
    ensures var s, t := Start(hits, window, i), Start(hits, window, j);
            Start(hits, window, s) == s && s <= t && (s == t || (t > i && hits[t] >= hits[s] + window))
    decreases j
  {
    if i < j {
      Starts(hits, window, i, j - 1);
    } else if i > 0 {
      Starts(hits, window, i - 1, i - 1);
    }
  }

  /** However steady the traffic, the first hit a full window after the current window's first one is let through. */
  lemma TrafficCannotDelayReadmission(hits: seq<Time>, window: nat, limit: nat, i: nat, j: nat)
    requires InOrder(hits) && i < j < |hits| && window > 0 && limit > 0
    requires hits[j] >= hits[Start(hits, window, i)] + window
    ensures exists k :: i < k <= j && Start(hits, window, k) == k && Admitted(hits, window, limit, k)
  {
    Starts(hits, window, i, j);
    AdmittedIff(hits, window, limit, j);
    var k := Start(hits, window, j);
    Starts(hits, window, j, j);
    AdmittedIff(hits, window, limit, k);
  }

  // ---- the bound ----

  function AdmittedIn(hits: seq<Time>, window: nat, limit: nat, from: Time): set<int>
    requires limit > 0
  {
    set i | 0 <= i < |hits| && from <= hits[i] < from + window && Admitted(hits, window, limit, i)
  }

  function Range(a: int, n: nat): (r: set<int>)
    ensures |r| == n && forall i :: i in r <==> a <= i < a + n
  {
    if n == 0 then {} else Range(a, n - 1) + {a + n - 1}
  }

  /** Any half-open interval as long as the window admits at most twice the limit. */
  lemma FixedWindowBound(hits: seq<Time>, window: nat, limit: nat, from: Time)
    requires InOrder(hits) && window > 0 && limit > 0
    ensures |AdmittedIn(hits, window, limit, from)| <= 2 * limit
  {
    var admitted := AdmittedIn(hits, window, limit, from);
    if admitted == {} {
      return;
    }
    var some: int :| some in admitted;
    var first := FirstIn(hits, window, from, some);
    var s := Start(hits, window, first);
    var t := SecondStart(hits, window, from, first);
    var a, b := Range(s, limit), Range(t, limit);
    forall i | i in admitted
      ensures i in a + b
    {
      AdmittedIff(hits, window, limit, i);
      OnlyTwoWindows(hits, window, from, first, t, i);
    }
    SubsetCardinality(admitted, a + b);
    assert |a + b| <= |a| + |b|;
  }

  lemma FirstIn(hits: seq<Time>, window: nat, from: Time, some: nat) returns (first: nat)
    requires some < |hits| && from <= hits[some] < from + window
    ensures first <= some && from <= hits[first] < from + window
    ensures forall i | 0 <= i < first :: !(from <= hits[i] < from + window)
  {
    first := 0;
    while !(from <= hits[first] < from + window)
      invariant first <= some
      invariant forall j | 0 <= j < first :: !(from <= hits[j] < from + window)
      decreases some - first
    {
      first := first + 1;
    }
  }

  /** The next window that opens inside the interval, if any does. */
  lemma SecondStart(hits: seq<Time>, window: nat, from: Time, first: nat) returns (t: nat)
    requires InOrder(hits) && first < |hits| && from <= hits[first] < from + window
    ensures forall i | first <= i < |hits| && hits[i] < from + window && Start(hits, window, i) > first ::
              t == Start(hits, window, i)
  {
    if i :| first <= i < |hits| && hits[i] < from + window && Start(hits, window, i) > first {
      t := Start(hits, window, i);
      forall j | first <= j < |hits| && hits[j] < from + window && Start(hits, window, j) > first
        ensures t == Start(hits, window, j)
      {
        if i <= j {
          LaterStartIsLate(hits, window, from, first, i, j);
        } else {
          LaterStartIsLate(hits, window, from, first, j, i);
        }
      }
    } else {
      t := 0;
    }
  }

  lemma LaterStartIsLate(hits: seq<Time>, window: nat, from: Time, first: nat, i: nat, j: nat)
    requires InOrder(hits) && first <= i <= j < |hits| && from <= hits[first] && hits[j] < from + window
    requires Start(hits, window, i) > first
    ensures Start(hits, window, i) == Start(hits, window, j)
  {
    Starts(hits, window, i, j);
  }

  lemma OnlyTwoWindows(hits: seq<Time>, window: nat, from: Time, first: nat, t: nat, i: nat)
    requires InOrder(hits) && first <= i < |hits| && hits[i] < from + window
    requires Start(hits, window, i) > first ==> t == Start(hits, window, i)
    ensures Start(hits, window, i) == Start(hits, window, first) || Start(hits, window, i) == t
  {
    Starts(hits, window, first, i);
  }

  // ---- every sequence of calls ----

  function KeysAfter(calls: seq<Call>): Keys {
    if calls == [] then map[] else Consumed(KeysAfter(calls[..|calls| - 1]), calls[|calls| - 1]).0
  }

  /** The answer to the i-th call. */
  predicate Allowed(calls: seq<Call>, i: nat)
    requires i < |calls|
  {
    Consumed(KeysAfter(calls[..i]), calls[i]).1
  }

  /** The times at which `name` was counted. */
  function HitsOf(calls: seq<Call>, name: string): seq<Time> {
    if calls == [] then []
    else
      var before, last := HitsOf(calls[..|calls| - 1], name), calls[|calls| - 1];
      if last.name == name && Counted(last) then before + [last.now] else before
  }

  /** The clock does not run backwards, and the counted calls on `name` share one limit and one window. */
  ghost predicate OneAllowance(calls: seq<Call>, name: string, limit: nat, window: nat) {
    && (forall i, j | 0 <= i <= j < |calls| :: calls[i].now <= calls[j].now)
    && (forall c | c in calls && c.name == name && Counted(c) :: c.limit == limit && c.window == window)
  }

  /** Whatever is called in between, a name's key is what its own counted calls make of it. */
  lemma {:induction false} CallsYieldKey(calls: seq<Call>, name: string, limit: nat, window: nat)
    requires OneAllowance(calls, name, limit, window)
    ensures KeyOf(KeysAfter(calls), name) == KeyAfter(HitsOf(calls, name), window)
  {
    if calls != [] {
      var front, last := calls[..|calls| - 1], calls[|calls| - 1];
      assert calls == front + [last];
      CallsYieldKey(front, name, limit, window);
      if last.name == name && Counted(last) {
        var hits := HitsOf(front, name);
        assert (hits + [last.now])[..|hits|] == hits;
      }
    }
  }

  lemma {:induction false} HitsGrow(calls: seq<Call>, name: string, i: nat)
    requires i <= |calls|
    ensures HitsOf(calls[..i], name) <= HitsOf(calls, name)
    decreases |calls|
  {
    if i < |calls| {
      HitsGrow(calls[..|calls| - 1], name, i);
      assert calls[..|calls| - 1][..i] == calls[..i];
    } else {
      assert calls[..i] == calls;
    }
  }

  lemma {:induction false} HitsInOrder(calls: seq<Call>, name: string)
    requires forall i, j | 0 <= i <= j < |calls| :: calls[i].now <= calls[j].now
    ensures InOrder(HitsOf(calls, name))
    ensures forall h | h in HitsOf(calls, name) :: calls != [] && h <= calls[|calls| - 1].now
  {
    if calls != [] {
      var front := calls[..|calls| - 1];
      HitsInOrder(front, name);
      var before, last := HitsOf(front, name), calls[|calls| - 1];
      forall h | h in before
        ensures h <= last.now
      {
        assert front[|front| - 1].now <= last.now;
      }
      assert forall i | 0 <= i < |before| :: before[i] in before;
    }
  }

  /** A call that Redis does not answer always goes through; an answered one exactly when its hit is admitted. */
  lemma AllowedIffAdmitted(calls: seq<Call>, limit: nat, window: nat, i: nat)
    requires i < |calls| && limit > 0 && OneAllowance(calls, calls[i].name, limit, window)
    ensures !Counted(calls[i]) ==> Allowed(calls, i)
    ensures Counted(calls[i]) ==>
              var hits, n := HitsOf(calls, calls[i].name), |HitsOf(calls[..i], calls[i].name)|;
              n < |hits| && hits[n] == calls[i].now
              && (Allowed(calls, i) <==> calls[i].redis.AnswerLost? || Admitted(hits, window, limit, n))
  {
    if Counted(calls[i]) {
      var name := calls[i].name;
      assert calls[..i + 1][..i] == calls[..i];
      CallsYieldKey(calls[..i + 1], name, limit, window);
      HitsGrow(calls, name, i + 1);
      var before := HitsOf(calls[..i], name);
      assert HitsOf(calls[..i + 1], name) == before + [calls[i].now];
      assert HitsOf(calls, name)[..|before| + 1] == before + [calls[i].now];
    }
  }

  /** A call that is decided by its count. */
  predicate Decided(c: Call) {
    c.limit > 0 && c.redis.Reached?
  }

  ghost function AllowedIn(calls: seq<Call>, name: string, from: Time, window: nat): set<int> {
    set i | 0 <= i < |calls| && calls[i].name == name && Decided(calls[i])
            && from <= calls[i].now < from + window && Allowed(calls, i)
  }

  lemma PlacesDiffer(calls: seq<Call>, name: string, i: nat, j: nat)
    requires j < |calls| && i < |calls| && calls[i].name == name && Counted(calls[i])
    ensures i < j ==> |HitsOf(calls[..i], name)| < |HitsOf(calls[..j], name)|
  {
    if i < j {
      assert calls[..j][..i + 1] == calls[..i + 1] && calls[..i + 1][..i] == calls[..i];
      HitsGrow(calls[..j], name, i + 1);
    }
  }

  /**
   Over all calls, interleaved with any others and with any failures of Redis: the calls on one name
   that Redis answers are let through at most 2 * limit times in any window-long interval.
   */
  lemma CallsBound(calls: seq<Call>, name: string, limit: nat, window: nat, from: Time)
    requires OneAllowance(calls, name, limit, window) && window > 0 && limit > 0
    ensures |AllowedIn(calls, name, from, window)| <= 2 * limit
  {
    var hits := HitsOf(calls, name);
    var allowed := AllowedIn(calls, name, from, window);
    var place := (i: int) => if 0 <= i <= |calls| then |HitsOf(calls[..i], name)| else 0;
    forall i, j | i in allowed && j in allowed && place(i) == place(j)
      ensures i == j
    {
      PlacesDiffer(calls, name, i, j);
      PlacesDiffer(calls, name, j, i);
    }
    forall i | i in allowed
      ensures place(i) in AdmittedIn(hits, window, limit, from)
    {
      AllowedIffAdmitted(calls, limit, window, i);
    }
    InjectionCardinality(allowed, AdmittedIn(hits, window, limit, from), place);
    HitsInOrder(calls, name);
    FixedWindowBound(hits, window, limit, from);
  }
}
