/** The L1 lock cache used when the hash database is off: an atomic test-and-set map whose entries
    leave through a first-in first-out queue of deadlines. One shard; times are nanoseconds. */
module L1Cache {
  import opened Strconv
  import opened Types

  const MILLISECOND := 1_000_000

  /** How many characters of a hash name its shard. */
  type CutChar = k: nat | 1 <= k <= 3 witness 1

  /** An item the expiry loop has popped, and the time it sleeps until. */
  datatype Flight = Flight(item: PQItem, wake: int)

  datatype Counters = Counters(locked: nat, flagEx: nat, set_: nat, deleted: nat)

  datatype State = State(cache: map<string, Case>, que: seq<PQItem>, flight: Option<Flight>, counter: Counters)

  function Locked(s: State, hash: string, value: Case): (State, Case) {
    if hash == "" then (s, Invalid)
    else if hash !in s.cache then
      (s.(cache := s.cache[hash := value], counter := s.counter.(locked := s.counter.locked + 1)), CasePass)
    else (s, s.cache[hash])
  }

  function Pushed(s: State, key: string, expires: int): State {
    s.(que := s.que + [PQItem(key, expires)])
  }

  function SetIn(s: State, hash: string, value: Case, flagexpires: bool, now: int, ttl: nat): State {
    if |hash| < HASH_LEN then s
    else
      var queued := if flagexpires then Pushed(s, hash, now + ttl) else s;
      var c := s.counter;
      queued.(cache := s.cache[hash := value],
              counter := if flagexpires then c.(flagEx := c.flagEx + 1)
                         else if value == CaseWrite then c.(set_ := c.set_ + 1) else c)
  }

  /** Without a hash database an insert is a Set of CaseAdded that expires, and a search is a lock
      attempt that leaves CaseDupes behind. */
  function Queried(s: State, hash: string, offset: int, now: int, ttl: nat): (State, Case) {
    if |hash| < HASH_LEN then (s, Invalid)
    else if offset > 0 then (SetIn(s, hash, CaseAdded, true, now, ttl), CaseAdded)
    else
      var (s', code) := Locked(s, hash, CaseDupes);
      (s', if code == CasePass then CasePass else CaseDupes)
  }

  /** Popping reads the clock to see whether the item is due and again to compute the sleep, and does
      not sleep for less than a millisecond. */
  function Taken(s: State, now1: int, now2: int): State {
    if s.flight.Some? || s.que == [] then s
    else
      var item := s.que[0];
      var wake := if item.expires <= now1 then now1
                  else if item.expires - now2 >= MILLISECOND then item.expires
                  else now2;
      s.(que := s.que[1..], flight := Some(Flight(item, wake)))
  }

  function Deleted(s: State): State {
    if s.flight.None? then s
    else s.(cache := s.cache - {s.flight.value.item.key}, flight := None,
            counter := s.counter.(deleted := s.counter.deleted + 1))
  }

  class L1Shard {
    var cache: map<string, Case>
    var que: seq<PQItem>
    var flight: Option<Flight>
    var counter: Counters
    const ttl: nat
    const cutChar: CutChar

    ghost function Shard(): State
      reads this
    {
      State(cache, que, flight, counter)
    }

    constructor (ttl: nat, cutChar: CutChar)
      ensures this.ttl == ttl && this.cutChar == cutChar && Shard() == Empty()
    {
      this.ttl, this.cutChar := ttl, cutChar;
      cache, que, flight, counter := map[], [], None, Counters(0, 0, 0, 0);
    }

    /** The source slices the shard's name from any hash that is not empty. */
    method LockL1Cache(hash: string, value: Case) returns (retcase: Case)
      requires hash == "" || |hash| >= cutChar
      modifies this
      ensures (Shard(), retcase) == Locked(old(Shard()), hash, value)
      ensures hash == "" || hash in old(cache) ==> Shard() == old(Shard())
      ensures retcase == if hash == "" then Invalid else if hash in old(cache) then old(cache)[hash] else CasePass
      ensures hash != "" && hash !in old(cache) ==> cache == old(cache)[hash := value] && que == old(que) && flight == old(flight)
    {
      if hash == "" {
        return Invalid;
      }
      if hash !in cache {
        counter := counter.(locked := counter.locked + 1);
        cache := cache[hash := value];
        retcase := CasePass;
      } else {
        retcase := cache[hash];
      }
    }

    method Push(key: string, expires: int, now: int)
      modifies this`que
      ensures Shard() == Pushed(old(Shard()), key, now + expires)
      ensures que == old(que) + [PQItem(key, now + expires)]
    {
      que := que + [PQItem(key, now + expires)];
    }

    method Pop() returns (item: Option<PQItem>, lenpq: nat)
      modifies this`que
      ensures lenpq == |old(que)|
      ensures if old(que) == [] then item == None && que == []
              else item == Some(old(que)[0]) && que == old(que)[1..]
    {
      lenpq := |que|;
      if lenpq == 0 {
        return None, 0;
      }
      item := Some(que[0]);
      que := que[1..];
    }

    method Set(hash: string, value: Case, flagexpires: bool, now: int)
      modifies this
      ensures Shard() == SetIn(old(Shard()), hash, value, flagexpires, now, ttl)
      ensures |hash| < HASH_LEN ==> Shard() == old(Shard())
      ensures |hash| >= HASH_LEN ==>
        && cache == old(cache)[hash := value] && flight == old(flight)
        && que == old(que) + (if flagexpires then [PQItem(hash, now + ttl)] else [])
        && counter.flagEx == old(counter).flagEx + (if flagexpires then 1 else 0)
        && counter.set_ == old(counter).set_ + (if !flagexpires && value == CaseWrite then 1 else 0)
    {
      if |hash| < HASH_LEN {
        return;
      }
      if flagexpires {
        Push(hash, ttl, now);
      }
      cache := cache[hash := value];
      if flagexpires {
        counter := counter.(flagEx := counter.flagEx + 1);
      } else if value == CaseWrite {
        counter := counter.(set_ := counter.set_ + 1);
      }
    }

    method IndexQuery(hash: string, offset: int, now: int) returns (code: Case)
      modifies this
      ensures (Shard(), code) == Queried(old(Shard()), hash, offset, now, ttl)
      ensures |hash| < HASH_LEN <==> code == Invalid
      ensures |hash| < HASH_LEN ==> Shard() == old(Shard())
      ensures |hash| >= HASH_LEN && offset > 0 ==>
        code == CaseAdded && cache == old(cache)[hash := CaseAdded] && que == old(que) + [PQItem(hash, now + ttl)]
      ensures |hash| >= HASH_LEN && offset <= 0 ==>
        && que == old(que)
        && code == (if hash in old(cache) && old(cache)[hash] != CasePass then CaseDupes else CasePass)
        && cache == if hash in old(cache) then old(cache) else old(cache)[hash := CaseDupes]
    {
      if |hash| < HASH_LEN {
        return Invalid;
      }
      if offset > 0 {
        Set(hash, CaseAdded, true, now);
        code := CaseAdded;
      } else {
        code := LockL1Cache(hash, CaseDupes);
        if code != CasePass {
          code := CaseDupes;
        }
      }
    }

    /** The expiry loop up to its sleep, for a loop that holds no item. */
    method ExpireTake(now1: int, now2: int)
      requires flight.None?
      modifies this
      ensures Shard() == Taken(old(Shard()), now1, now2)
      ensures cache == old(cache) && (old(que) == [] <==> flight.None?)
      ensures flight.Some? ==>
        var item := old(que)[0];
        && flight.value.item == item && que == old(que)[1..]
        && (item.expires <= now1 ==> flight.value.wake == now1)
        && (item.expires > now1 && item.expires - now2 < 1_000_000 ==> flight.value.wake == now2)
        && (item.expires > now1 && item.expires - now2 >= 1_000_000 ==> flight.value.wake == item.expires)
    {
      var item, _ := Pop();
      if item.None? {
        return;
      }
      var wake := now1;
      if item.value.expires > now1 {
        var isleep := item.value.expires - now2;
        wake := if isleep >= MILLISECOND then now2 + isleep else now2;
      }
      flight := Some(Flight(item.value, wake));
    }

    /** The expiry loop after its sleep. */
    method ExpireDelete()
      modifies this
      ensures Shard() == Deleted(old(Shard()))
      ensures old(flight).Some? ==>
        flight.None? && cache == old(cache) - {old(flight).value.item.key} && counter.deleted == old(counter).deleted + 1
    {
      if flight.Some? {
        cache := cache - {flight.value.item.key};
        counter := counter.(deleted := counter.deleted + 1);
        flight := None;
      }
    }
  }

  // ---------------------------------------------------------------------------
  // All interleavings
  // ---------------------------------------------------------------------------

  function Empty(): State {
    State(map[], [], None, Counters(0, 0, 0, 0))
  }

  /** A shard on a clock, with what has happened per hash: searches answered CasePass, inserts, and
      items acted on, the last also with their deadline and time. */
  datatype World = World(s: State, now: int, passed: multiset<string>, added: multiset<string>,
                         expired: multiset<string>, acted: seq<(PQItem, int)>)

  datatype Step =
    | Search(hash: string, offset: int, t: int)
    | Add(hash: string, offset: int, t: int)
    | Take(t1: int, t2: int)
    | Delete(t: int)

  /** A step is possible when the clock does not run backwards; deleting waits for the sleep. */
  function Next(ttl: nat, w: World, step: Step): World {
    match step
    case Search(hash, offset, t) =>
      if w.now <= t && |hash| >= HASH_LEN && offset <= 0 then
        var (s', code) := Queried(w.s, hash, offset, t, ttl);
        w.(s := s', now := t, passed := if code == CasePass then w.passed + multiset{hash} else w.passed)
      else w
    case Add(hash, offset, t) =>
      if w.now <= t && |hash| >= HASH_LEN && offset > 0 then
        w.(s := Queried(w.s, hash, offset, t, ttl).0, now := t, added := w.added + multiset{hash})
      else w
    case Take(t1, t2) =>
      if w.now <= t1 <= t2 then w.(s := Taken(w.s, t1, t2), now := t2) else w
    case Delete(t) =>
      if w.now <= t && w.s.flight.Some? && w.s.flight.value.wake <= t then
        var item := w.s.flight.value.item;
        w.(s := Deleted(w.s), now := t, expired := w.expired + multiset{item.key}, acted := w.acted + [(item, t)])
      else w
  }

  function Start(now: int): World {
    World(Empty(), now, multiset{}, multiset{}, multiset{}, [])
  }

  function Run(ttl: nat, w: World, steps: seq<Step>): World {
    if steps == [] then w else Next(ttl, Run(ttl, w, steps[..|steps| - 1]), steps[|steps| - 1])
  }

  /** The items not yet acted on, the popped one first. */
  function Pending(s: State): seq<PQItem> {
    (if s.flight.Some? then [s.flight.value.item] else []) + s.que
  }

  function Keys(items: seq<PQItem>): (keys: seq<string>)
    ensures |keys| == |items| && forall i :: 0 <= i < |items| ==> keys[i] == items[i].key
  {
    seq(|items|, i requires 0 <= i < |items| => items[i].key)
  }

  function InCache(s: State, hash: string): nat {
    if hash in s.cache then 1 else 0
  }

  ghost predicate HasPending(s: State, hash: string) {
    hash in Keys(Pending(s))
  }

  ghost predicate CountsOk(w: World) {
    && w.added == w.expired + multiset(Keys(Pending(w.s)))
    && (forall h :: w.passed[h] <= w.expired[h] + InCache(w.s, h))
    && w.s.counter.locked == |w.passed| <= w.s.counter.deleted + |w.s.cache|
    && w.s.counter.flagEx == w.s.counter.deleted + |Pending(w.s)|
  }

  ghost predicate Sorted(items: seq<PQItem>) {
    forall i, j :: 0 <= i < j < |items| ==> items[i].expires <= items[j].expires
  }

  /** Every deadline is at most horizon. */
  ghost predicate DueBy(items: seq<PQItem>, horizon: int) {
    forall i :: 0 <= i < |items| ==> items[i].expires <= horizon
  }

  ghost predicate TimesOk(ttl: nat, w: World) {
    && Sorted(Pending(w.s))
    && DueBy(Pending(w.s), w.now + ttl)
    && (w.s.flight.Some? ==> w.s.flight.value.item.expires < w.s.flight.value.wake + MILLISECOND)
    && (forall i :: 0 <= i < |w.acted| ==> w.acted[i].0.expires < w.acted[i].1 + MILLISECOND)
  }

  ghost predicate EntriesOk(s: State) {
    forall h :: h in s.cache ==> s.cache[h] in {CaseAdded, CaseDupes} && (s.cache[h] == CaseAdded ==> HasPending(s, h))
  }

  ghost predicate Inv(ttl: nat, w: World) {
    CountsOk(w) && TimesOk(ttl, w) && EntriesOk(w.s)
  }

  /** Every positive offset inserts: the hash is cached as added, and one item of it is queued. */
  lemma AfterAdd(ttl: nat, s: State, hash: string, offset: int, t: int)
    requires |hash| >= HASH_LEN && offset > 0
    ensures var (s', code) := Queried(s, hash, offset, t, ttl);
      && code == CaseAdded && s'.que == s.que + [PQItem(hash, t + ttl)]
      && Pending(s') == Pending(s) + [PQItem(hash, t + ttl)]
      && Keys(Pending(s')) == Keys(Pending(s)) + [hash]
      && s'.cache == s.cache[hash := CaseAdded] && s'.flight == s.flight
      && s'.counter == s.counter.(flagEx := s.counter.flagEx + 1)
  {
  }

  lemma AfterTake(s: State, t1: int, t2: int)
    ensures var s' := Taken(s, t1, t2);
      && Pending(s') == Pending(s) && s'.cache == s.cache && s'.counter == s.counter
      && (s'.flight.Some? && t1 <= t2 && s'.flight != s.flight ==>
            s'.flight.value.item.expires < s'.flight.value.wake + MILLISECOND)
  {
  }

  lemma AfterDelete(s: State)
    requires s.flight.Some?
    ensures var s' := Deleted(s); var item := s.flight.value.item;
      && Pending(s) == [item] + Pending(s') && Keys(Pending(s)) == [item.key] + Keys(Pending(s'))
      && s'.cache == s.cache - {item.key} && s'.flight == None
      && s'.counter == s.counter.(deleted := s.counter.deleted + 1)
      && |s.cache| <= |s'.cache| + 1
  {
    var k := s.flight.value.item.key;
    assert Deleted(s).cache.Keys == s.cache.Keys - {k};
    assert |s.cache.Keys| <= |s.cache.Keys - {k}| + 1;
  }

  /** Every other offset searches: nothing is queued, and an absent hash is left behind as a duplicate. */
  lemma AfterSearch(ttl: nat, s: State, hash: string, offset: int, t: int)
    requires |hash| >= HASH_LEN && offset <= 0
    ensures var (s', code) := Queried(s, hash, offset, t, ttl);
      && code in {CasePass, CaseDupes} && s'.que == s.que
      && Pending(s') == Pending(s) && s'.flight == s.flight
      && (hash in s.cache ==> s' == s && (code == CasePass <==> s.cache[hash] == CasePass))
      && (hash !in s.cache ==>
            && code == CasePass && s'.cache == s.cache[hash := CaseDupes]
            && s'.counter == s.counter.(locked := s.counter.locked + 1))
  {
  }

  lemma SearchKeepsCounts(ttl: nat, w: World, hash: string, offset: int, t: int)
    requires CountsOk(w) && EntriesOk(w.s) && |hash| >= HASH_LEN && offset <= 0
    ensures CountsOk(Next(ttl, w, Search(hash, offset, t)))
  {
    hide Pending, Keys, Queried, HasPending;
    AfterSearch(ttl, w.s, hash, offset, t);
  }

  lemma AddKeepsCounts(ttl: nat, w: World, hash: string, offset: int, t: int)
    requires CountsOk(w) && |hash| >= HASH_LEN && offset > 0
    ensures CountsOk(Next(ttl, w, Add(hash, offset, t)))
  {
    hide Pending, Keys, Queried;
    AfterAdd(ttl, w.s, hash, offset, t);
    assert multiset(Keys(Pending(w.s)) + [hash]) == multiset(Keys(Pending(w.s))) + multiset{hash};
  }

  lemma DeleteKeepsCounts(ttl: nat, w: World, t: int)
    requires CountsOk(w) && w.s.flight.Some?
    ensures CountsOk(Next(ttl, w, Delete(t)))
  {
    hide Pending, Keys, Deleted;
    AfterDelete(w.s);
    var key := w.s.flight.value.item.key;
    var rest := Keys(Pending(Deleted(w.s)));
    assert multiset([key] + rest) == multiset{key} + multiset(rest);
  }

  lemma NextKeepsCounts(ttl: nat, w: World, step: Step)
    requires CountsOk(w) && EntriesOk(w.s)
    ensures CountsOk(Next(ttl, w, step))
  {
    hide Pending, Keys, Queried, Taken, Deleted, EntriesOk;
    match step
    case Search(hash, offset, t) =>
      if |hash| >= HASH_LEN && offset <= 0 { SearchKeepsCounts(ttl, w, hash, offset, t); }
    case Add(hash, offset, t) =>
      if |hash| >= HASH_LEN && offset > 0 { AddKeepsCounts(ttl, w, hash, offset, t); }
    case Take(t1, t2) =>
      AfterTake(w.s, t1, t2);
    case Delete(t) =>
      if w.s.flight.Some? { DeleteKeepsCounts(ttl, w, t); }
  }

  lemma SortedEnds(first: PQItem, items: seq<PQItem>, last: PQItem)
    ensures Sorted([first] + items) ==> Sorted(items)
    ensures Sorted(items) && (forall i :: 0 <= i < |items| ==> items[i].expires <= last.expires) ==> Sorted(items + [last])
  {
    if Sorted([first] + items) {
      assert forall i :: 0 <= i < |items| ==> items[i] == ([first] + items)[i + 1];
    }
  }

  lemma DueByEnds(first: PQItem, items: seq<PQItem>, last: PQItem, horizon: int)
    ensures DueBy([first] + items, horizon) ==> DueBy(items, horizon)
    ensures DueBy(items, horizon) && last.expires <= horizon ==> DueBy(items + [last], horizon)
  {
    if DueBy([first] + items, horizon) {
      assert forall i :: 0 <= i < |items| ==> items[i] == ([first] + items)[i + 1];
    }
  }

  lemma NextKeepsTimes(ttl: nat, w: World, step: Step)
    requires TimesOk(ttl, w)
    ensures TimesOk(ttl, Next(ttl, w, step)) && w.now <= Next(ttl, w, step).now
  {
    hide Pending, Queried, Taken, Deleted, Sorted;
    match step
    case Search(hash, offset, t) =>
      if |hash| >= HASH_LEN && offset <= 0 { AfterSearch(ttl, w.s, hash, offset, t); }
    case Add(hash, offset, t) =>
      if |hash| >= HASH_LEN && w.now <= t && offset > 0 {
        var item := PQItem(hash, t + ttl);
        AfterAdd(ttl, w.s, hash, offset, t);
        SortedEnds(item, Pending(w.s), item);
        DueByEnds(item, Pending(w.s), item, t + ttl);
      }
    case Take(t1, t2) =>
      AfterTake(w.s, t1, t2);
    case Delete(t) =>
      if w.s.flight.Some? {
        var item := w.s.flight.value.item;
        AfterDelete(w.s);
        SortedEnds(item, Pending(Deleted(w.s)), item);
        DueByEnds(item, Pending(Deleted(w.s)), item, w.now + ttl);
      }
  }

  lemma NextKeepsEntries(ttl: nat, w: World, step: Step)
    requires EntriesOk(w.s)
    ensures EntriesOk(Next(ttl, w, step).s)
  {
    hide Pending, Keys, Queried, Taken, Deleted;
    match step
    case Search(hash, offset, t) =>
      if |hash| >= HASH_LEN && offset <= 0 { AfterSearch(ttl, w.s, hash, offset, t); }
    case Add(hash, offset, t) =>
      if |hash| >= HASH_LEN && offset > 0 {
        AfterAdd(ttl, w.s, hash, offset, t);
        InConcat(Keys(Pending(w.s)), [hash]);
      }
    case Take(t1, t2) =>
      AfterTake(w.s, t1, t2);
    case Delete(t) =>
      if w.s.flight.Some? {
        AfterDelete(w.s);
        InConcat([w.s.flight.value.item.key], Keys(Pending(Deleted(w.s))));
      }
  }

  lemma InConcat(a: seq<string>, b: seq<string>)
    ensures forall x :: x in a + b <==> x in a || x in b
  {
  }

  lemma {:induction false} Reachable(ttl: nat, now: int, steps: seq<Step>)
    ensures Inv(ttl, Run(ttl, Start(now), steps))
  {
    if steps != [] {
      hide Next, CountsOk, TimesOk, EntriesOk;
      var before := steps[..|steps| - 1];
      Reachable(ttl, now, before);
      var w := Run(ttl, Start(now), before);
      NextKeepsCounts(ttl, w, steps[|steps| - 1]);
      NextKeepsTimes(ttl, w, steps[|steps| - 1]);
      NextKeepsEntries(ttl, w, steps[|steps| - 1]);
    }
  }

  /** In every run a hash is passed at most once more than its items were acted on, hence at most
      once more than it was inserted; inserts are the items acted on plus those pending. */
  lemma PassesAreBounded(ttl: nat, now: int, steps: seq<Step>, hash: string)
    ensures var w := Run(ttl, Start(now), steps);
      && w.passed[hash] <= w.expired[hash] + 1 <= w.added[hash] + 1
      && w.added[hash] == w.expired[hash] + multiset(Keys(Pending(w.s)))[hash]
  {
    Reachable(ttl, now, steps);
  }

  /** The cache's own counters agree: pushes are the items queued, in flight and deleted, and the
      locks granted are at most the deletions plus the entries still held. */
  lemma CountersAgree(ttl: nat, now: int, steps: seq<Step>)
    ensures var s := Run(ttl, Start(now), steps).s;
      && s.counter.flagEx == |s.que| + (if s.flight.Some? then 1 else 0) + s.counter.deleted
      && s.counter.locked <= s.counter.deleted + |s.cache|
  {
    Reachable(ttl, now, steps);
  }

  lemma QueueSorted(s: State)
    requires Sorted(Pending(s))
    ensures Sorted(s.que)
  {
    if s.flight.Some? {
      SortedEnds(s.flight.value.item, s.que, s.flight.value.item);
    } else {
      assert Pending(s) == s.que;
    }
  }

  /** The queue is ordered by deadline, no item is acted on a millisecond or more before its deadline,
      and every inserted hash still cached has an item to remove it. */
  lemma DeadlinesAreKept(ttl: nat, now: int, steps: seq<Step>)
    ensures var w := Run(ttl, Start(now), steps);
      && Sorted(w.s.que)
      && (forall i :: 0 <= i < |w.acted| ==> w.acted[i].1 > w.acted[i].0.expires - MILLISECOND)
      && (forall h :: h in w.s.cache && w.s.cache[h] == CaseAdded ==> HasPending(w.s, h))
  {
    hide Run;
    Reachable(ttl, now, steps);
    QueueSorted(Run(ttl, Start(now), steps).s);
  }

  /** Items of the hash are due at the deadline or later. */
  ghost predicate NotBefore(items: seq<PQItem>, hash: string, deadline: int) {
    forall i :: 0 <= i < |items| && items[i].key == hash ==> items[i].expires >= deadline
  }

  ghost predicate SafeUntil(s: State, hash: string, deadline: int) {
    && hash in s.cache && s.cache[hash] != CasePass
    && NotBefore(Pending(s), hash, deadline)
  }

  lemma NotBeforeEnds(first: PQItem, items: seq<PQItem>, last: PQItem, hash: string, deadline: int)
    ensures NotBefore([first] + items, hash, deadline) ==>
              NotBefore(items, hash, deadline) && (first.key == hash ==> first.expires >= deadline)
    ensures NotBefore(items, hash, deadline) && last.expires >= deadline ==> NotBefore(items + [last], hash, deadline)
  {
    if NotBefore([first] + items, hash, deadline) {
      assert ([first] + items)[0] == first;
      assert forall i :: 0 <= i < |items| ==> items[i] == ([first] + items)[i + 1];
    }
  }

  lemma NextKeepsSafe(ttl: nat, w: World, step: Step, hash: string, deadline: int)
    requires TimesOk(ttl, w) && SafeUntil(w.s, hash, deadline) && deadline <= w.now + ttl
    requires Next(ttl, w, step).now + MILLISECOND <= deadline
    ensures SafeUntil(Next(ttl, w, step).s, hash, deadline)
    ensures Next(ttl, w, step).passed[hash] == w.passed[hash]
  {
    hide Pending, Queried, Taken, Deleted, Sorted, DueBy, NotBefore;
    match step
    case Search(h, offset, t) =>
      if |h| >= HASH_LEN && offset <= 0 { AfterSearch(ttl, w.s, h, offset, t); }
    case Add(h, offset, t) =>
      if |h| >= HASH_LEN && offset > 0 {
        var item := PQItem(h, t + ttl);
        AfterAdd(ttl, w.s, h, offset, t);
        NotBeforeEnds(item, Pending(w.s), item, hash, deadline);
      }
    case Take(t1, t2) =>
      AfterTake(w.s, t1, t2);
    case Delete(t) =>
      if w.s.flight.Some? {
        var item := w.s.flight.value.item;
        AfterDelete(w.s);
        NotBeforeEnds(item, Pending(Deleted(w.s)), item, hash, deadline);
      }
  }

  lemma {:induction false} RunIsMonotone(ttl: nat, w: World, steps: seq<Step>)
    requires TimesOk(ttl, w)
    ensures TimesOk(ttl, Run(ttl, w, steps)) && w.now <= Run(ttl, w, steps).now
  {
    if steps != [] {
      hide TimesOk, Next;
      RunIsMonotone(ttl, w, steps[..|steps| - 1]);
      NextKeepsTimes(ttl, Run(ttl, w, steps[..|steps| - 1]), steps[|steps| - 1]);
    }
  }

  /** A cached hash whose pending items are all due at the deadline or later stays cached, and is
      passed to nobody, until a millisecond before that deadline, whatever else happens. */
  lemma {:induction false} StaysLocked(ttl: nat, w: World, steps: seq<Step>, hash: string, deadline: int)
    requires TimesOk(ttl, w) && SafeUntil(w.s, hash, deadline) && deadline <= w.now + ttl
    requires Run(ttl, w, steps).now + MILLISECOND <= deadline
    ensures SafeUntil(Run(ttl, w, steps).s, hash, deadline)
    ensures Run(ttl, w, steps).passed[hash] == w.passed[hash]
  {
    if steps != [] {
      hide TimesOk, SafeUntil, Next;
      var before := steps[..|steps| - 1];
      RunIsMonotone(ttl, w, before);
      NextKeepsTimes(ttl, Run(ttl, w, before), steps[|steps| - 1]);
      StaysLocked(ttl, w, before, hash, deadline);
      NextKeepsSafe(ttl, Run(ttl, w, before), steps[|steps| - 1], hash, deadline);
    }
  }

  /** After an insert with no older item pending, no search is passed for the whole lifetime less a
      millisecond. */
  lemma InsertLocks(ttl: nat, now: int, before: seq<Step>, hash: string, offset: int, t: int, after: seq<Step>)
    requires var w := Run(ttl, Start(now), before); w.now <= t && |hash| >= HASH_LEN && offset > 0 && !HasPending(w.s, hash)
    ensures var w := Next(ttl, Run(ttl, Start(now), before), Add(hash, offset, t)); var w' := Run(ttl, w, after);
      w'.now + MILLISECOND <= t + ttl ==> hash in w'.s.cache && w'.passed[hash] == w.passed[hash]
  {
    hide Run;
    var w0 := Run(ttl, Start(now), before);
    Reachable(ttl, now, before);
    NextKeepsTimes(ttl, w0, Add(hash, offset, t));
    AfterAdd(ttl, w0.s, hash, offset, t);
    var w := Next(ttl, w0, Add(hash, offset, t));
    assert forall i :: 0 <= i < |Pending(w0.s)| ==> Keys(Pending(w0.s))[i] == Pending(w0.s)[i].key;
    NotBeforeEnds(PQItem(hash, t + ttl), Pending(w0.s), PQItem(hash, t + ttl), hash, t + ttl);
    if Run(ttl, w, after).now + MILLISECOND <= t + ttl {
      StaysLocked(ttl, w, after, hash, t + ttl);
    }
  }

  predicate NeverAdds(steps: seq<Step>, hash: string) {
    forall i :: 0 <= i < |steps| && steps[i].Add? ==> steps[i].hash != hash
  }

  /** Cached, with nothing left that would remove it. */
  ghost predicate Forgotten(s: State, hash: string) {
    hash in s.cache && s.cache[hash] != CasePass && !HasPending(s, hash)
  }

  /** A search that passes leaves an entry that nothing expires: unless the hash is inserted, every
      later search for it is answered duplicate, for ever. */
  lemma {:induction false} PassedButNeverAdded(ttl: nat, w: World, steps: seq<Step>, hash: string)
    requires Forgotten(w.s, hash) && NeverAdds(steps, hash)
    ensures var w' := Run(ttl, w, steps);
      Forgotten(w'.s, hash) && w'.passed[hash] == w.passed[hash]
  {
    if steps != [] {
      hide Next;
      var before, step := steps[..|steps| - 1], steps[|steps| - 1];
      assert forall i :: 0 <= i < |before| ==> before[i] == steps[i];
      PassedButNeverAdded(ttl, w, before, hash);
      StepKeepsForgotten(ttl, Run(ttl, w, before), step, hash);
    }
  }

  predicate NeverSearches(steps: seq<Step>, hash: string) {
    forall i :: 0 <= i < |steps| && steps[i].Search? ==> steps[i].hash != hash
  }

  /** Not cached, or with an item pending that will remove it. */
  ghost predicate Leaving(s: State, hash: string) {
    hash in s.cache ==> HasPending(s, hash)
  }

  lemma {:induction false} LeavingStays(ttl: nat, w: World, steps: seq<Step>, hash: string)
    requires Leaving(w.s, hash) && NeverSearches(steps, hash)
    ensures Leaving(Run(ttl, w, steps).s, hash)
  {
    if steps != [] {
      hide Next, Leaving;
      var before, step := steps[..|steps| - 1], steps[|steps| - 1];
      assert forall i :: 0 <= i < |before| ==> before[i] == steps[i];
      LeavingStays(ttl, w, before, hash);
      StepKeepsLeaving(ttl, Run(ttl, w, before), step, hash);
    }
  }

  lemma StepKeepsLeaving(ttl: nat, w: World, step: Step, hash: string)
    requires Leaving(w.s, hash) && (step.Search? ==> step.hash != hash)
    ensures Leaving(Next(ttl, w, step).s, hash)
  {
    hide Pending, Keys, Queried, Taken, Deleted;
    match step
    case Search(h, offset, t) =>
      if |h| >= HASH_LEN && offset <= 0 { AfterSearch(ttl, w.s, h, offset, t); }
    case Add(h, offset, t) =>
      if |h| >= HASH_LEN && offset > 0 {
        AfterAdd(ttl, w.s, h, offset, t);
        InConcat(Keys(Pending(w.s)), [h]);
      }
    case Take(t1, t2) =>
      AfterTake(w.s, t1, t2);
    case Delete(t) =>
      if w.s.flight.Some? {
        AfterDelete(w.s);
        InConcat([w.s.flight.value.item.key], Keys(Pending(Deleted(w.s))));
      }
  }

  /** Entries stay for ever exactly when nothing pending would remove them: over any further steps that
      neither search for the hash nor insert it, once its last item was acted on the hash is cached if
      and only if it was forgotten at the start. */
  lemma StaysIffForgotten(ttl: nat, now: int, before: seq<Step>, after: seq<Step>, hash: string)
    requires NeverAdds(after, hash) && NeverSearches(after, hash)
    requires !HasPending(Run(ttl, Run(ttl, Start(now), before), after).s, hash)
    ensures hash in Run(ttl, Run(ttl, Start(now), before), after).s.cache
       <==> Forgotten(Run(ttl, Start(now), before).s, hash)
  {
    hide Run, HasPending;
    var w := Run(ttl, Start(now), before);
    Reachable(ttl, now, before);
    if Forgotten(w.s, hash) {
      PassedButNeverAdded(ttl, w, after, hash);
    } else {
      LeavingStays(ttl, w, after, hash);
    }
  }

  predicate OnlyExpires(steps: seq<Step>) {
    forall i :: 0 <= i < |steps| ==> steps[i].Take? || steps[i].Delete?
  }

  lemma {:induction false} RunConcat(ttl: nat, w: World, a: seq<Step>, b: seq<Step>)
    ensures Run(ttl, w, a + b) == Run(ttl, Run(ttl, w, a), b)
  {
    hide Next;
    if b == [] {
      assert a + b == a;
    } else {
      RunConcat(ttl, w, a, b[..|b| - 1]);
      assert (a + b)[..|a + b| - 1] == a + b[..|b| - 1];
    }
  }

  /** One item is popped, if none is in flight, slept on, and acted on. */
  lemma ActsOnFirst(ttl: nat, w: World) returns (steps: seq<Step>)
    requires Pending(w.s) != []
    ensures OnlyExpires(steps) && Pending(Run(ttl, w, steps).s) == Pending(w.s)[1..]
  {
    hide Pending, Taken, Next, Run;
    var take := Take(w.now, w.now);
    var taken := Next(ttl, w, take);
    TakeFills(ttl, w);
    var wake := taken.s.flight.value.wake;
    var delete := Delete(if wake < taken.now then taken.now else wake);
    DeletesFirst(ttl, taken, delete.t);
    steps := [take, delete];
    RunOfTwo(ttl, w, take, delete);
  }

  lemma DeletesFirst(ttl: nat, w: World, t: int)
    requires w.s.flight.Some? && w.now <= t && w.s.flight.value.wake <= t
    ensures Pending(Next(ttl, w, Delete(t)).s) == Pending(w.s)[1..]
  {
    hide Pending, Deleted;
    AfterDelete(w.s);
  }

  lemma RunOfTwo(ttl: nat, w: World, a: Step, b: Step)
    ensures Run(ttl, w, [a, b]) == Next(ttl, Next(ttl, w, a), b)
  {
    hide Next;
    assert [a, b][..1] == [a] && [a][..0] == [];
    assert Run(ttl, w, [a]) == Next(ttl, Run(ttl, w, []), a);
  }

  ghost predicate WakesInTime(w: World) {
    w.s.flight.Some? ==> w.s.flight.value.wake <= w.now || w.s.flight.value.wake == w.s.flight.value.item.expires
  }

  lemma {:induction false} FlightWakes(ttl: nat, now: int, steps: seq<Step>)
    ensures WakesInTime(Run(ttl, Start(now), steps))
  {
    if steps != [] {
      hide Queried, Deleted;
      var before, step := steps[..|steps| - 1], steps[|steps| - 1];
      var w := Run(ttl, Start(now), before);
      FlightWakes(ttl, now, before);
      match step
      case Search(h, offset, t) =>
        if |h| >= HASH_LEN && offset <= 0 { AfterSearch(ttl, w.s, h, offset, t); }
      case Add(h, offset, t) =>
        if |h| >= HASH_LEN && offset > 0 { AfterAdd(ttl, w.s, h, offset, t); }
      case Take(t1, t2) =>
      case Delete(t) =>
        if w.s.flight.Some? { AfterDelete(w.s); }
    }
  }

  /** The loop never sleeps past a deadline: in every run an item in flight can be acted on at any time
      from its deadline on, and then its hash leaves the cache. */
  lemma ActedOnInTime(ttl: nat, now: int, steps: seq<Step>, t: int)
    requires var w := Run(ttl, Start(now), steps);
      w.s.flight.Some? && w.now <= t && w.s.flight.value.item.expires <= t
    ensures var w := Run(ttl, Start(now), steps); var item := w.s.flight.value.item;
      var w' := Next(ttl, w, Delete(t));
      w'.acted == w.acted + [(item, t)] && w'.s.flight.None? && item.key !in w'.s.cache
  {
    hide Run, Deleted;
    FlightWakes(ttl, now, steps);
    AfterDelete(Run(ttl, Start(now), steps).s);
  }

  lemma TakeFills(ttl: nat, w: World)
    requires Pending(w.s) != []
    ensures var w' := Next(ttl, w, Take(w.now, w.now));
      w'.s.flight.Some? && Pending(w'.s) == Pending(w.s)
  {
    AfterTake(w.s, w.now, w.now);
  }

  lemma {:induction false} QueueDrains(ttl: nat, w: World) returns (steps: seq<Step>)
    ensures OnlyExpires(steps) && Pending(Run(ttl, w, steps).s) == []
    decreases |Pending(w.s)|
  {
    hide Pending, Next;
    steps := [];
    if Pending(w.s) != [] {
      var first := ActsOnFirst(ttl, w);
      var rest := QueueDrains(ttl, Run(ttl, w, first));
      steps := first + rest;
      RunConcat(ttl, w, first, rest);
    }
  }

  /** After any run the expiry loop, left to itself, can empty its queue, and whenever it has done so
      the entries left are exactly the forgotten ones. */
  lemma ForgottenRemain(ttl: nat, now: int, before: seq<Step>)
    ensures var w := Run(ttl, Start(now), before);
      && (exists steps :: OnlyExpires(steps) && Pending(Run(ttl, w, steps).s) == [])
      && forall steps, hash :: OnlyExpires(steps) && Pending(Run(ttl, w, steps).s) == [] ==>
           (hash in Run(ttl, w, steps).s.cache <==> Forgotten(w.s, hash))
  {
    hide Run, Pending, Forgotten;
    var w := Run(ttl, Start(now), before);
    var drained := QueueDrains(ttl, w);
    forall steps, hash | OnlyExpires(steps) && Pending(Run(ttl, w, steps).s) == []
      ensures hash in Run(ttl, w, steps).s.cache <==> Forgotten(w.s, hash)
    {
      StaysIffForgotten(ttl, now, before, steps, hash);
    }
  }

  lemma StepKeepsForgotten(ttl: nat, w: World, step: Step, hash: string)
    requires Forgotten(w.s, hash) && (step.Add? ==> step.hash != hash)
    ensures var w' := Next(ttl, w, step);
      Forgotten(w'.s, hash) && w'.passed[hash] == w.passed[hash]
  {
    hide Pending, Keys, Queried, Taken, Deleted;
    match step
    case Search(h, offset, t) =>
      if |h| >= HASH_LEN && offset <= 0 { AfterSearch(ttl, w.s, h, offset, t); }
    case Add(h, offset, t) =>
      if |h| >= HASH_LEN && offset > 0 {
        AfterAdd(ttl, w.s, h, offset, t);
        InConcat(Keys(Pending(w.s)), [h]);
      }
    case Take(t1, t2) =>
      AfterTake(w.s, t1, t2);
    case Delete(t) =>
      if w.s.flight.Some? {
        AfterDelete(w.s);
        InConcat([w.s.flight.value.item.key], Keys(Pending(Deleted(w.s))));
      }
  }

  /** The search that passes on a fresh hash leaves it so. */
  lemma PassForgets(ttl: nat, w: World, hash: string, offset: int, t: int)
    requires |hash| >= HASH_LEN && offset <= 0 && hash !in w.s.cache && !HasPending(w.s, hash) && w.now <= t
    ensures var w' := Next(ttl, w, Search(hash, offset, t));
      Forgotten(w'.s, hash) && w'.passed[hash] == w.passed[hash] + 1
  {
    hide Pending, Keys, Queried;
    AfterSearch(ttl, w.s, hash, offset, t);
  }

  /** Since start no item of the hash was acted on exactly if it is still cached; until one was, it
      was passed to nobody. */
  ghost predicate LivesOn(start: World, w: World, hash: string) {
    && start.expired[hash] <= w.expired[hash]
    && (hash in w.s.cache <==> w.expired[hash] == start.expired[hash])
  }

  ghost predicate HeldSince(start: World, w: World, hash: string) {
    && start.expired[hash] <= w.expired[hash]
    && (w.expired[hash] == start.expired[hash] ==> hash in w.s.cache && w.passed[hash] == start.passed[hash])
  }

  lemma StepKeepsLife(ttl: nat, start: World, w: World, step: Step, hash: string)
    requires EntriesOk(w.s)
    ensures HeldSince(start, w, hash) ==> HeldSince(start, Next(ttl, w, step), hash)
    ensures (step.Search? || step.Add? ==> step.hash != hash) && LivesOn(start, w, hash) ==>
              LivesOn(start, Next(ttl, w, step), hash)
  {
    hide Pending, Keys, Queried, Taken, Deleted, HasPending;
    match step
    case Search(h, offset, t) =>
      if |h| >= HASH_LEN && offset <= 0 { AfterSearch(ttl, w.s, h, offset, t); }
    case Add(h, offset, t) =>
      if |h| >= HASH_LEN && offset > 0 { AfterAdd(ttl, w.s, h, offset, t); }
    case Take(t1, t2) =>
      AfterTake(w.s, t1, t2);
    case Delete(t) =>
      if w.s.flight.Some? { AfterDelete(w.s); }
  }

  lemma {:induction false} RunKeepsEntries(ttl: nat, w: World, steps: seq<Step>)
    requires EntriesOk(w.s)
    ensures EntriesOk(Run(ttl, w, steps).s)
  {
    if steps != [] {
      hide EntriesOk, Next;
      RunKeepsEntries(ttl, w, steps[..|steps| - 1]);
      NextKeepsEntries(ttl, Run(ttl, w, steps[..|steps| - 1]), steps[|steps| - 1]);
    }
  }

  lemma {:induction false} RunKeepsLife(ttl: nat, w: World, steps: seq<Step>, hash: string)
    requires EntriesOk(w.s) && hash in w.s.cache
    ensures HeldSince(w, Run(ttl, w, steps), hash)
    ensures NeverAdds(steps, hash) && NeverSearches(steps, hash) ==> LivesOn(w, Run(ttl, w, steps), hash)
  {
    if steps != [] {
      hide EntriesOk, Next, HeldSince, LivesOn;
      var before, step := steps[..|steps| - 1], steps[|steps| - 1];
      assert forall i :: 0 <= i < |before| ==> before[i] == steps[i];
      RunKeepsLife(ttl, w, before, hash);
      RunKeepsEntries(ttl, w, before);
      StepKeepsLife(ttl, w, Run(ttl, w, before), step, hash);
    }
  }

  /** The exact lifetime of an insert: until an item of the hash is acted on, its own or an older one, the
      hash stays cached and is passed to nobody, whatever happens; and without further searches and
      inserts of it, it is cached exactly until then. */
  lemma InsertLifetime(ttl: nat, now: int, before: seq<Step>, hash: string, offset: int, t: int, after: seq<Step>)
    requires Run(ttl, Start(now), before).now <= t && |hash| >= HASH_LEN && offset > 0
    ensures var w := Next(ttl, Run(ttl, Start(now), before), Add(hash, offset, t)); var w' := Run(ttl, w, after);
      && (w'.expired[hash] == w.expired[hash] ==> hash in w'.s.cache && w'.passed[hash] == w.passed[hash])
      && (NeverAdds(after, hash) && NeverSearches(after, hash) ==>
            (hash in w'.s.cache <==> w'.expired[hash] == w.expired[hash]))
  {
    hide Run, EntriesOk;
    var w := Run(ttl, Start(now), before);
    Reachable(ttl, now, before);
    NextKeepsEntries(ttl, w, Add(hash, offset, t));
    AfterAdd(ttl, w.s, hash, offset, t);
    RunKeepsLife(ttl, Next(ttl, w, Add(hash, offset, t)), after, hash);
  }

  lemma {:induction false} AddsUnchanged(ttl: nat, w: World, steps: seq<Step>, hash: string)
    requires NeverAdds(steps, hash)
    ensures Run(ttl, w, steps).added[hash] == w.added[hash]
  {
    if steps != [] {
      hide Next;
      var before, step := steps[..|steps| - 1], steps[|steps| - 1];
      assert forall i :: 0 <= i < |before| ==> before[i] == steps[i];
      AddsUnchanged(ttl, w, before, hash);
      StepAdds(ttl, Run(ttl, w, before), step, hash);
    }
  }

  lemma StepAdds(ttl: nat, w: World, step: Step, hash: string)
    requires step.Add? ==> step.hash != hash
    ensures Next(ttl, w, step).added[hash] == w.added[hash]
  {
    hide Queried, Taken, Deleted;
  }

  /** All items ever queued, in order: those acted on and those pending. */
  function Items(w: World): seq<PQItem> {
    ActedItems(w.acted) + Pending(w.s)
  }

  function ActedItems(acted: seq<(PQItem, int)>): (items: seq<PQItem>)
    ensures |items| == |acted| && forall i :: 0 <= i < |items| ==> items[i] == acted[i].0
  {
    seq(|acted|, i requires 0 <= i < |acted| => acted[i].0)
  }

  lemma StepKeepsItems(ttl: nat, w: World, step: Step)
    ensures Items(w) <= Items(Next(ttl, w, step))
  {
    hide ActedItems, Pending, Keys, Queried, Taken, Deleted;
    match step
    case Search(h, offset, t) =>
      if |h| >= HASH_LEN && offset <= 0 { AfterSearch(ttl, w.s, h, offset, t); }
    case Add(h, offset, t) =>
      if |h| >= HASH_LEN && offset > 0 { AfterAdd(ttl, w.s, h, offset, t); }
    case Take(t1, t2) =>
      AfterTake(w.s, t1, t2);
    case Delete(t) =>
      if w.s.flight.Some? {
        AfterDelete(w.s);
        ActedMore(w.acted, w.s.flight.value.item, t, Pending(Deleted(w.s)));
      }
  }

  lemma ActedMore(acted: seq<(PQItem, int)>, item: PQItem, t: int, rest: seq<PQItem>)
    ensures ActedItems(acted + [(item, t)]) + rest == ActedItems(acted) + ([item] + rest)
  {
    assert ActedItems(acted + [(item, t)]) == ActedItems(acted) + [item];
  }

  /** Items are acted on in the order in which they were inserted, and none is lost. */
  lemma {:induction false} ItemsInOrder(ttl: nat, w: World, steps: seq<Step>)
    ensures Items(w) <= Items(Run(ttl, w, steps))
  {
    if steps != [] {
      hide Next, Items;
      var before := steps[..|steps| - 1];
      ItemsInOrder(ttl, w, before);
      StepKeepsItems(ttl, Run(ttl, w, before), steps[|steps| - 1]);
      PrefixOfPrefix(Items(w), Items(Run(ttl, w, before)), Items(Run(ttl, w, steps)));
    }
  }

  lemma PrefixOfPrefix(a: seq<PQItem>, b: seq<PQItem>, c: seq<PQItem>)
    requires a <= b <= c
    ensures a <= c
  {
  }

  /** Inserting a hash again does not prolong it: with older items of it pending, the first of them to be
      acted on removes the entry of the second insert while another item of the hash is still pending,
      and the entry does not come back when that is acted on. */
  lemma ReAddDoesNotProlong(ttl: nat, now: int, before: seq<Step>, hash: string, offset: int, t: int, after: seq<Step>)
    requires var w := Run(ttl, Start(now), before); w.now <= t && |hash| >= HASH_LEN && offset > 0 && HasPending(w.s, hash)
    requires NeverAdds(after, hash) && NeverSearches(after, hash)
    ensures var w := Next(ttl, Run(ttl, Start(now), before), Add(hash, offset, t)); var w' := Run(ttl, w, after);
      && w.added[hash] >= w.expired[hash] + 2
      && (w'.expired[hash] > w.expired[hash] ==> hash !in w'.s.cache)
      && (HasPending(w'.s, hash) <==> w'.expired[hash] < w.added[hash])
  {
    hide Run, Next, Pending, Keys, TimesOk, EntriesOk;
    var w0 := Run(ttl, Start(now), before);
    var w := Next(ttl, w0, Add(hash, offset, t));
    InsertLifetime(ttl, now, before, hash, offset, t, after);
    AddsUnchanged(ttl, w, after, hash);
    Reachable(ttl, now, before);
    Reachable(ttl, now, before + [Add(hash, offset, t)] + after);
    RunConcat(ttl, Start(now), before + [Add(hash, offset, t)], after);
    AfterReAdd(ttl, now, before, hash, offset, t);
  }

  lemma AfterReAdd(ttl: nat, now: int, before: seq<Step>, hash: string, offset: int, t: int)
    requires Run(ttl, Start(now), before).now <= t && |hash| >= HASH_LEN && offset > 0
    ensures var w := Run(ttl, Start(now), before); var w' := Next(ttl, w, Add(hash, offset, t));
      && Run(ttl, Start(now), before + [Add(hash, offset, t)]) == w'
      && w'.added[hash] == w.added[hash] + 1 && w'.expired == w.expired
  {
    hide Queried;
    assert (before + [Add(hash, offset, t)])[..|before|] == before;
  }
}
