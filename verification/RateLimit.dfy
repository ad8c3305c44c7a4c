/** The in-memory fixed-window limiter against the rule it stands for. */
module RateLimit {
  import opened Common

  /** Count and reset time stored under a key. */
  type Slot = (nat, int)

  datatype Decision = Decision(allowed: bool, remaining: nat, retryAfter: int, resetAt: int)

  function Window(now: int, w: int): int
    requires w > 0
  {
    now / w
  }

  /** `_check_memory` on one slot. */
  function Checked(slot: Option<Slot>, now: int, w: int): Slot
    requires w > 0
  {
    var reset := now - now % w + w;
    var (count, stored) := if slot.Some? then slot.value else (0, reset);
    if stored <= now then (1, reset) else (count + 1, stored)
  }

  function Decide(slot: Slot, limit: nat, now: int): Decision {
    Decision(slot.0 <= limit, Max(0, limit - slot.0), if slot.0 <= limit then 0 else Max(1, slot.1 - now), slot.1)
  }

  // ---------------------------------------------------------------- the rule

  /** The slot after requests at the given times, all for one key. */
  function SlotAfter(times: seq<int>, w: int): Option<Slot>
    requires w > 0
  {
    if times == [] then None else Some(Checked(SlotAfter(times[..|times| - 1], w), times[|times| - 1], w))
  }

  /** Requests that fell in the given aligned window. */
  function InWindow(times: seq<int>, w: int, window: int): nat
    requires w > 0
  {
    if times == [] then 0
    else InWindow(times[..|times| - 1], w, window) + (if Window(times[|times| - 1], w) == window then 1 else 0)
  }

  /** Allowed: fewer than `limit` earlier requests fell in the window of this one. */
  predicate Rule(times: seq<int>, w: int, limit: nat, now: int)
    requires w > 0
  {
    InWindow(times, w, Window(now, w)) < limit
  }

  ghost predicate Monotone(times: seq<int>) { forall i, j :: 0 <= i <= j < |times| ==> times[i] <= times[j] }

  lemma WindowBounds(now: int, w: int)
    requires w > 0
    ensures Window(now, w) * w <= now < Window(now, w) * w + w
    ensures now - now % w == Window(now, w) * w
  {}

  lemma Multiples(k: int, l: int, w: int)
    requires w > 0 && k < l
    ensures k * w + w <= l * w
  {
    assert (l - k - 1) * w >= 0;
    assert l * w == k * w + w + (l - k - 1) * w;
  }

  lemma WindowMonotone(a: int, b: int, w: int)
    requires w > 0 && a <= b
    ensures Window(a, w) <= Window(b, w)
  {
    WindowBounds(a, w);
    WindowBounds(b, w);
    var k, l := Window(a, w), Window(b, w);
    if l < k { Multiples(l, k, w); }
  }

  lemma SameWindow(now: int, w: int, window: int)
    requires w > 0 && window * w <= now < window * w + w
    ensures Window(now, w) == window
  {
    WindowBounds(now, w);
    var k := Window(now, w);
    if k < window { Multiples(k, window, w); }
    if k > window { Multiples(window, k, w); }
  }

  lemma {:induction false} EmptyLaterWindow(times: seq<int>, w: int, window: int)
    requires w > 0 && forall i :: 0 <= i < |times| ==> Window(times[i], w) < window
    ensures InWindow(times, w, window) == 0
  {
    if times != [] { EmptyLaterWindow(times[..|times| - 1], w, window); }
  }

  /** The stored slot is the number of requests in the current window and that window's end. */
  lemma {:induction false} SlotMeaning(times: seq<int>, w: int)
    requires w > 0 && times != [] && Monotone(times)
    ensures
      var now := times[|times| - 1];
      SlotAfter(times, w) == Some((InWindow(times, w, Window(now, w)), Window(now, w) * w + w))
  {
    var n := |times| - 1;
    var now, before := times[n], times[..n];
    var window := Window(now, w);
    WindowBounds(now, w);
    var reset := now - now % w + w;
    assert reset == window * w + w;
    if n == 0 {
      assert before == [];
    } else {
      SlotMeaning(before, w);
      var last := times[n - 1];
      assert last == before[n - 1];
      WindowMonotone(last, now, w);
      if Window(last, w) < window {
        Multiples(Window(last, w), window, w);
        forall i | 0 <= i < |before| ensures Window(before[i], w) < window { WindowMonotone(before[i], last, w); }
        EmptyLaterWindow(before, w, window);
      }
    }
  }

  /** With a clock that does not go back, the limiter decides exactly by the rule. */
  lemma LimiterRefinesRule(times: seq<int>, now: int, w: int, limit: nat)
    requires w > 0 && Monotone(times + [now])
    ensures Decide(Checked(SlotAfter(times, w), now, w), limit, now).allowed <==> Rule(times, w, limit, now)
  {
    assert (times + [now])[..|times|] == times;
    SlotMeaning(times + [now], w);
  }

  lemma RetryTime(times: seq<int>, now: int, w: int, limit: nat)
    requires w > 0 && Monotone(times + [now])
    requires !Decide(Checked(SlotAfter(times, w), now, w), limit, now).allowed
    ensures now + Decide(Checked(SlotAfter(times, w), now, w), limit, now).retryAfter == Window(now, w) * w + w
  {
    assert (times + [now])[..|times|] == times;
    SlotMeaning(times + [now], w);
    WindowBounds(now, w);
  }

  lemma NextWindowIsFresh(times: seq<int>, now: int, w: int, back: int)
    requires w > 0 && Monotone(times + [now]) && back == Window(now, w) * w + w
    ensures back == Window(back, w) * w && Window(back, w) == Window(now, w) + 1
    ensures InWindow(times + [now], w, Window(back, w)) == 0
  {
    var all, k := times + [now], Window(now, w);
    assert (k + 1) * w == back;
    SameWindow(back, w, k + 1);
    forall i | 0 <= i < |all| ensures Window(all[i], w) < k + 1 { WindowMonotone(all[i], all[|times|], w); }
    EmptyLaterWindow(all, w, k + 1);
  }

  /** A refused caller that waits `retryAfter` comes back at the start of a window nobody has used. */
  lemma RetryLandsInFreshWindow(times: seq<int>, now: int, w: int, limit: nat, back: int)
    requires w > 0 && Monotone(times + [now])
    requires !Decide(Checked(SlotAfter(times, w), now, w), limit, now).allowed
    requires back == now + Decide(Checked(SlotAfter(times, w), now, w), limit, now).retryAfter
    ensures back == Window(back, w) * w && Window(back, w) == Window(now, w) + 1
    ensures InWindow(times + [now], w, Window(back, w)) == 0
  {
    RetryTime(times, now, w, limit);
    NextWindowIsFresh(times, now, w, back);
  }

  /** Requests admitted with times in [from, until). */
  function Admitted(times: seq<int>, w: int, limit: nat, from: int, until: int): nat
    requires w > 0
  {
    if times == [] then 0
    else
      var n := |times| - 1;
      Admitted(times[..n], w, limit, from, until)
      + (if from <= times[n] < until && Decide(Checked(SlotAfter(times[..n], w), times[n], w), limit, times[n]).allowed then 1 else 0)
  }

  function AdmittedInWindow(times: seq<int>, w: int, limit: nat, window: int): nat
    requires w > 0
  {
    Admitted(times, w, limit, window * w, window * w + w)
  }

  /** One aligned window admits its first `limit` requests and no more. */
  lemma {:induction false} WindowAdmits(times: seq<int>, w: int, limit: nat, window: int)
    requires w > 0 && Monotone(times)
    ensures AdmittedInWindow(times, w, limit, window) == Min(limit, InWindow(times, w, window))
  {
    if times != [] {
      var n := |times| - 1;
      var now := times[n];
      WindowAdmits(times[..n], w, limit, window);
      assert times[..n] + [now] == times;
      LimiterRefinesRule(times[..n], now, w, limit);
      WindowBounds(now, w);
      if window * w <= now < window * w + w { assert Window(now, w) == window by { SameWindow(now, w, window); } }
    }
  }

  lemma {:induction false} AdmittedSplits(times: seq<int>, w: int, limit: nat, a: int, b: int, c: int)
    requires w > 0 && a <= b <= c
    ensures Admitted(times, w, limit, a, c) == Admitted(times, w, limit, a, b) + Admitted(times, w, limit, b, c)
  {
    if times != [] { AdmittedSplits(times[..|times| - 1], w, limit, a, b, c); }
  }

  /** No interval of one window length admits more than twice the limit. */
  lemma TwiceTheLimit(times: seq<int>, w: int, limit: nat, from: int)
    requires w > 0 && Monotone(times)
    ensures Admitted(times, w, limit, from, from + w) <= 2 * limit
  {
    var k := Window(from, w);
    var lo, mid, hi := k * w, k * w + w, k * w + w + w;
    WindowBounds(from, w);
    WindowAdmitsAt(times, w, limit, k, lo);
    assert (k + 1) * w == mid;
    WindowAdmitsAt(times, w, limit, k + 1, mid);
    TwoWindows(times, w, limit, lo, mid, hi, from);
  }

  lemma WindowAdmitsAt(times: seq<int>, w: int, limit: nat, window: int, lo: int)
    requires w > 0 && Monotone(times) && lo == window * w
    ensures Admitted(times, w, limit, lo, lo + w) <= limit
  {
    WindowAdmits(times, w, limit, window);
  }

  /** What two neighbouring windows admit bounds every interval inside them. */
  lemma TwoWindows(times: seq<int>, w: int, limit: nat, lo: int, mid: int, hi: int, from: int)
    requires w > 0 && lo <= from <= mid <= from + w <= hi
    requires Admitted(times, w, limit, lo, mid) <= limit && Admitted(times, w, limit, mid, hi) <= limit
    ensures Admitted(times, w, limit, from, from + w) <= 2 * limit
  {
    AdmittedSplits(times, w, limit, lo, from, mid);
    AdmittedSplits(times, w, limit, mid, from + w, hi);
    AdmittedSplits(times, w, limit, from, mid, from + w);
  }

  // ---------------------------------------------------------------- many keys

  /** A request as the limiter stores it. */
  datatype Hit = Hit(key: string, now: int, window: int)

  type Memory = map<string, Slot>

  function SlotIn(memory: Memory, key: string): Option<Slot> { if key in memory then Some(memory[key]) else None }

  /** One check changes one slot. */
  function Recorded(memory: Memory, h: Hit): Memory
    requires h.window > 0
  {
    memory[h.key := Checked(SlotIn(memory, h.key), h.now, h.window)]
  }

  function MemoryAfter(hits: seq<Hit>): Memory
    requires forall i :: 0 <= i < |hits| ==> hits[i].window > 0
  {
    if hits == [] then map[] else Recorded(MemoryAfter(hits[..|hits| - 1]), hits[|hits| - 1])
  }

  /** When the key was requested. */
  function TimesOf(hits: seq<Hit>, key: string): seq<int> {
    if hits == [] then []
    else
      var h := hits[|hits| - 1];
      TimesOf(hits[..|hits| - 1], key) + if h.key == key then [h.now] else []
  }

  /** Requests for other keys do not matter: each slot is what the key's own times alone give. */
  lemma {:induction false} SlotsAreSeparate(hits: seq<Hit>, key: string, w: int)
    requires w > 0 && forall i :: 0 <= i < |hits| ==> hits[i].window > 0 && (hits[i].key == key ==> hits[i].window == w)
    ensures SlotIn(MemoryAfter(hits), key) == SlotAfter(TimesOf(hits, key), w)
  {
    if hits != [] {
      var n := |hits| - 1;
      SlotsAreSeparate(hits[..n], key, w);
      var times := TimesOf(hits[..n], key);
      if hits[n].key == key {
        assert (times + [hits[n].now])[..|times|] == times;
      } else {
        assert times + [] == times;
      }
    }
  }

  ghost predicate ClockRuns(hits: seq<Hit>) { forall i, j :: 0 <= i <= j < |hits| ==> hits[i].now <= hits[j].now }

  lemma {:induction false} TimesAreMonotone(hits: seq<Hit>, key: string)
    requires ClockRuns(hits)
    ensures Monotone(TimesOf(hits, key))
    ensures forall i :: 0 <= i < |TimesOf(hits, key)| ==> hits != [] && TimesOf(hits, key)[i] <= hits[|hits| - 1].now
  {
    if hits != [] {
      var n := |hits| - 1;
      TimesAreMonotone(hits[..n], key);
      if n > 0 { assert hits[n - 1].now <= hits[n].now; }
    }
  }

  /** In any run over any keys, a request is allowed exactly by the rule on its own key's earlier requests. */
  lemma RunRefinesRule(hits: seq<Hit>, h: Hit, limit: nat)
    requires h.window > 0 && ClockRuns(hits + [h])
    requires forall i :: 0 <= i < |hits| ==> hits[i].window > 0 && (hits[i].key == h.key ==> hits[i].window == h.window)
    ensures Decide(Recorded(MemoryAfter(hits), h)[h.key], limit, h.now).allowed <==> Rule(TimesOf(hits, h.key), h.window, limit, h.now)
  {
    var times := TimesOf(hits, h.key);
    SlotsAreSeparate(hits, h.key, h.window);
    TimesAreMonotone(hits + [h], h.key);
    assert (hits + [h])[..|hits|] == hits;
    assert TimesOf(hits + [h], h.key) == times + [h.now];
    LimiterRefinesRule(times, h.now, h.window, limit);
  }

  // ---------------------------------------------------------------- keys

  /** `_safe_identity`; which characters are alphanumeric is Python's business. */
  predicate SafeChar(isAlnum: char -> bool, c: char) { isAlnum(c) || c == '_' || c == '.' || c == ':' || c == '-' }

  function SafeIdentity(isAlnum: char -> bool, identity: string): (r: string)
    ensures |r| <= 160
  {
    var s := if identity == "" then "anonymous" else identity;
    var t := seq(|s|, i requires 0 <= i < |s| => if SafeChar(isAlnum, s[i]) then s[i] else '_');
    if |t| <= 160 then t else t[..160]
  }

  function KeyOf(isAlnum: char -> bool, policy: string, identity: string): string {
    "soulclaw:rl:" + policy + ":" + SafeIdentity(isAlnum, identity)
  }

  /** Short identities made of safe characters never share a slot within a policy. */
  lemma SafeIdentitiesAreKept(isAlnum: char -> bool, policy: string, a: string, b: string)
    requires a != "" && b != "" && |a| <= 160 && |b| <= 160
    requires (forall i :: 0 <= i < |a| ==> SafeChar(isAlnum, a[i])) && (forall i :: 0 <= i < |b| ==> SafeChar(isAlnum, b[i]))
    requires KeyOf(isAlnum, policy, a) == KeyOf(isAlnum, policy, b)
    ensures a == b
  {
    var prefix := "soulclaw:rl:" + policy + ":";
    assert SafeIdentity(isAlnum, a) == a && SafeIdentity(isAlnum, b) == b;
    assert a == KeyOf(isAlnum, policy, a)[|prefix|..] && b == KeyOf(isAlnum, policy, b)[|prefix|..];
  }

  class FixedWindowRateLimiter {
    const isAlnum: char -> bool
    var memory: Memory
    var hits: map<string, nat>
    var blocked: map<string, nat>

    constructor (isAlnum: char -> bool)
      ensures this.isAlnum == isAlnum && memory == MemoryAfter([]) && hits == map[] && blocked == map[]
    {
      this.isAlnum := isAlnum;
      memory, hits, blocked := map[], map[], map[];
    }

    /** `check` without Redis: one slot and the policy's counters change, nothing else. */
    method Check(policy: string, identity: string, limit: int, w: int, now: int) returns (d: Decision)
      requires w > 0
      modifies this
      ensures
        var key := KeyOf(isAlnum, policy, identity);
        var effective: nat := Max(1, limit);
        memory == Recorded(old(memory), Hit(key, now, w)) && d == Decide(memory[key], effective, now)
      ensures hits == Bumped(old(hits), policy)
      ensures blocked == if d.allowed then old(blocked) else Bumped(old(blocked), policy)
      ensures forall p :: Counted(hits, p) == Counted(old(hits), p) + if p == policy then 1 else 0
      ensures forall p :: Counted(blocked, p) == Counted(old(blocked), p) + if p == policy && !d.allowed then 1 else 0
    {
      var effective: nat := Max(1, limit);
      var key := KeyOf(isAlnum, policy, identity);
      d := CheckMemory(key, effective, w, now);
      Record(policy, d);
    }

    method CheckMemory(key: string, limit: nat, w: int, now: int) returns (d: Decision)
      requires w > 0
      modifies this`memory
      ensures memory == Recorded(old(memory), Hit(key, now, w)) && d == Decide(memory[key], limit, now)
    {
      var start := now - now % w;
      var reset := start + w;
      var count, stored := 0, reset;
      if key in memory {
        count, stored := memory[key].0, memory[key].1;
      }
      if stored <= now {
        count, stored := 0, reset;
      }
      count := count + 1;
      memory := memory[key := (count, stored)];
      var allowed := count <= limit;
      d := Decision(allowed, Max(0, limit - count), if allowed then 0 else Max(1, stored - now), stored);
    }

    method Record(policy: string, d: Decision)
      modifies this`hits, this`blocked
      ensures hits == Bumped(old(hits), policy) && blocked == if d.allowed then old(blocked) else Bumped(old(blocked), policy)
    {
      hits := hits[policy := (if policy in hits then hits[policy] else 0) + 1];
      if !d.allowed {
        blocked := blocked[policy := (if policy in blocked then blocked[policy] else 0) + 1];
      }
    }
  }

  function Counted(counts: map<string, nat>, policy: string): nat { if policy in counts then counts[policy] else 0 }

  function Bumped(counts: map<string, nat>, policy: string): map<string, nat> {
    counts[policy := (if policy in counts then counts[policy] else 0) + 1]
  }

  // ---------------------------------------------------------------- the numbers, spelled out

  /** The slot after a request: its place in the window, and the window's end. */
  lemma RecordedSlot(hits: seq<Hit>, h: Hit, times: seq<int>)
    requires h.window > 0 && ClockRuns(hits + [h]) && times == TimesOf(hits, h.key)
    requires forall i :: 0 <= i < |hits| ==> hits[i].window > 0 && (hits[i].key == h.key ==> hits[i].window == h.window)
    ensures Recorded(MemoryAfter(hits), h)[h.key] ==
            (InWindow(times, h.window, Window(h.now, h.window)) + 1, Window(h.now, h.window) * h.window + h.window)
  {
    SlotsAreSeparate(hits, h.key, h.window);
    TimesAreMonotone(hits + [h], h.key);
    assert (hits + [h])[..|hits|] == hits;
    assert TimesOf(hits + [h], h.key) == times + [h.now];
    assert (times + [h.now])[..|times|] == times;
    SlotMeaning(times + [h.now], h.window);
  }

  /** What the caller is told: how many requests are left in the window, when it ends, and how long to wait. */
  lemma DecisionMeaning(hits: seq<Hit>, h: Hit, limit: nat)
    requires h.window > 0 && ClockRuns(hits + [h])
    requires forall i :: 0 <= i < |hits| ==> hits[i].window > 0 && (hits[i].key == h.key ==> hits[i].window == h.window)
    ensures
      var d := Decide(Recorded(MemoryAfter(hits), h)[h.key], limit, h.now);
      var used := InWindow(TimesOf(hits, h.key), h.window, Window(h.now, h.window)) + 1;
      && d.allowed == (used <= limit) && d.remaining == (if used < limit then limit - used else 0)
      && d.resetAt == Window(h.now, h.window) * h.window + h.window
      && d.retryAfter == (if used <= limit then 0 else d.resetAt - h.now)
  {
    RecordedSlot(hits, h, TimesOf(hits, h.key));
    var end := Window(h.now, h.window) * h.window + h.window;
    assert end > h.now by { WindowBounds(h.now, h.window); }
    DecideMeaning(InWindow(TimesOf(hits, h.key), h.window, Window(h.now, h.window)) + 1, end, limit, h.now);
  }

  lemma DecideMeaning(used: nat, end: int, limit: nat, now: int)
    requires end > now
    ensures
      var d := Decide((used, end), limit, now);
      && d.allowed == (used <= limit) && d.remaining == (if used < limit then limit - used else 0) && d.resetAt == end
      && d.retryAfter == (if used <= limit then 0 else end - now)
  {}

  /** The aligned window of a time: the multiple of the length at or before it. */
  lemma WindowIs(now: int, w: int)
    requires w > 0
    ensures Window(now, w) * w <= now < (Window(now, w) + 1) * w
  {
    WindowBounds(now, w);
    NextMultiple(Window(now, w), w);
  }

  lemma NextMultiple(k: int, w: int)
    ensures (k + 1) * w == k * w + w
  {}

  /** A request is counted in exactly its own aligned window. */
  lemma InWindowSnoc(times: seq<int>, now: int, w: int, window: int)
    requires w > 0
    ensures InWindow([], w, window) == 0
    ensures InWindow(times + [now], w, window) == InWindow(times, w, window) + if window * w <= now < window * w + w then 1 else 0
  {
    assert (times + [now])[..|times|] == times;
    WindowBounds(now, w);
    if window * w <= now < window * w + w { SameWindow(now, w, window); }
  }

  /** The identity in the key: its first 160 characters, with every unsafe one replaced. */
  lemma IdentityMeaning(isAlnum: char -> bool, identity: string, i: nat)
    ensures
      var s, r := if identity == "" then "anonymous" else identity, SafeIdentity(isAlnum, identity);
      && |r| == (if |s| <= 160 then |s| else 160)
      && (i < |r| ==> r[i] == if isAlnum(s[i]) || s[i] == '_' || s[i] == '.' || s[i] == ':' || s[i] == '-' then s[i] else '_')
  {
    var s, r := if identity == "" then "anonymous" else identity, SafeIdentity(isAlnum, identity);
    if i < |r| { assert r[i] == if SafeChar(isAlnum, s[i]) then s[i] else '_'; }
  }
}
