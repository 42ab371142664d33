/** The least-recently-used cache in front of the assembler (context/cache.py). */
module Caching {
  import opened Basics
  import opened Assembly

  type MessageKey = (int, string, string)

  datatype Key = Key(sessionId: SessionId, messages: seq<MessageKey>, summary: Option<(int, string)>, budget: int)

  function CacheKey(session: Session, budget: int): Key {
    Key(session.sessionId,
        seq(|session.messages|, i requires 0 <= i < |session.messages| =>
          (session.messages[i].seqNo, session.messages[i].role, session.messages[i].content)),
        if session.summary.None? then None else Some((session.summary.value.coversUpToSeq, session.summary.value.summaryText)),
        budget)
  }

  /** The context computed from a key alone. */
  function ForKey(k: Key): AssembledContext {
    AssembledFrom(if k.summary.None? then [] else [SummaryOf(k.summary.value.1)],
                  seq(|k.messages|, i requires 0 <= i < |k.messages| => Message(k.messages[i].1, k.messages[i].2)), k.budget)
  }

  /** The key forgets nothing the assembler reads. */
  lemma KeyDeterminesResult(session: Session, budget: int)
    ensures Assembled(session, budget) == ForKey(CacheKey(session, budget))
  {
    var k := CacheKey(session, budget);
    var raw := seq(|k.messages|, i requires 0 <= i < |k.messages| => Message(k.messages[i].1, k.messages[i].2));
    assert raw == RawMessages(session);
  }

  /** Sessions with one key assemble alike. */
  lemma SameKeySameResult(a: Session, b: Session, budgetA: int, budgetB: int)
    requires CacheKey(a, budgetA) == CacheKey(b, budgetB)
    ensures Assembled(a, budgetA) == Assembled(b, budgetB)
  {
    KeyDeterminesResult(a, budgetA);
    KeyDeterminesResult(b, budgetB);
  }

  /** What the cache tells apart: the session, the budget, the summary, and number, role and content of
      each message; the times of creation it does not. */
  ghost predicate LookAlike(a: Session, b: Session) {
    && a.sessionId == b.sessionId && |a.messages| == |b.messages|
    && (forall i :: 0 <= i < |a.messages| ==>
          && a.messages[i].seqNo == b.messages[i].seqNo && a.messages[i].role == b.messages[i].role
          && a.messages[i].content == b.messages[i].content)
    && a.summary.Some? == b.summary.Some?
    && (a.summary.Some? ==> a.summary.value.coversUpToSeq == b.summary.value.coversUpToSeq
                            && a.summary.value.summaryText == b.summary.value.summaryText)
  }

  lemma KeysAgreeExactlyWhen(a: Session, b: Session, budgetA: int, budgetB: int)
    ensures CacheKey(a, budgetA) == CacheKey(b, budgetB) <==> budgetA == budgetB && LookAlike(a, b)
  {
    var x, y := CacheKey(a, budgetA), CacheKey(b, budgetB);
    if x == y {
      forall i | 0 <= i < |a.messages|
        ensures a.messages[i].seqNo == b.messages[i].seqNo && a.messages[i].role == b.messages[i].role
                && a.messages[i].content == b.messages[i].content
      {
        assert x.messages[i] == y.messages[i];
      }
    }
    if LookAlike(a, b) {
      assert x.messages == y.messages;
    }
  }

  // ---------------------------------------------------------------- recency

  function Remove(keys: seq<Key>, k: Key): (rest: seq<Key>)
    ensures forall x :: x in rest <==> x in keys && x != k
  {
    if keys == [] then []
    else if keys[0] == k then Remove(keys[1..], k)
    else [keys[0]] + Remove(keys[1..], k)
  }

  /** The distinct keys of a trace, least recently used first. */
  function Recency(trace: seq<Key>): seq<Key> {
    if trace == [] then []
    else
      var n := |trace| - 1;
      Remove(Recency(trace[..n]), trace[n]) + [trace[n]]
  }

  /** The last n elements, or all of them. */
  function Newest<T>(s: seq<T>, n: int): seq<T> {
    if n <= 0 then [] else if |s| <= n then s else s[|s| - n..]
  }

  /** What a cache of that size holds after a trace: its most recently used keys, oldest first. */
  function Held(trace: seq<Key>, size: int): seq<Key> { Newest(Recency(trace), size) }

  function Hits(trace: seq<Key>, size: int): nat {
    if trace == [] then 0
    else
      var n := |trace| - 1;
      Hits(trace[..n], size) + if trace[n] in Held(trace[..n], size) then 1 else 0
  }

  lemma {:induction false} RemoveConcat(a: seq<Key>, b: seq<Key>, k: Key)
    ensures Remove(a + b, k) == Remove(a, k) + Remove(b, k)
  {
    if a == [] {
      assert a + b == b;
    } else {
      RemoveConcat(a[1..], b, k);
      assert (a + b)[1..] == a[1..] + b;
    }
  }

  lemma {:induction false} RemoveAbsent(s: seq<Key>, k: Key)
    requires k !in s
    ensures Remove(s, k) == s
  {
    if s != [] {
      RemoveAbsent(s[1..], k);
    }
  }

  lemma {:induction false} RemoveDistinct(s: seq<Key>, k: Key)
    requires NoDup(s)
    ensures NoDup(Remove(s, k)) && |Remove(s, k)| == |s| - if k in s then 1 else 0
  {
    if s != [] {
      if s[0] == k {
        RemoveAbsent(s[1..], k);
      } else {
        RemoveDistinct(s[1..], k);
        assert s[0] !in s[1..];
        assert s == [s[0]] + s[1..];
      }
    }
  }

  lemma {:induction false} RecencyIsDistinct(trace: seq<Key>)
    ensures NoDup(Recency(trace))
    ensures forall k :: k in Recency(trace) <==> k in trace
  {
    if trace != [] {
      var n := |trace| - 1;
      RecencyIsDistinct(trace[..n]);
      RemoveDistinct(Recency(trace[..n]), trace[n]);
      assert trace == trace[..n] + [trace[n]];
    }
  }

  lemma NewestSuffix(p: seq<Key>, t: seq<Key>, n: int)
    requires n >= 1 && (|t| == n || (|t| < n && p == []))
    ensures Newest(p + t, n) == t
  {
  }

  lemma UseHeld(p: seq<Key>, s: seq<Key>, k: Key, n: int)
    requires n >= 1 && (|s| == n || (|s| < n && p == []))
    requires NoDup(p + s) && k in s
    ensures Newest(Remove(p + s, k) + [k], n) == Remove(s, k) + [k]
  {
    var i :| 0 <= i < |s| && s[i] == k;
    assert (p + s)[|p| + i] == k;
    assert NoDup(s) by { forall i, j | 0 <= i < j < |s| ensures s[i] != s[j] { assert (p + s)[|p| + i] != (p + s)[|p| + j]; } }
    assert k !in p by { forall j | 0 <= j < |p| ensures p[j] != k { assert (p + s)[j] == p[j]; } }
    RemoveConcat(p, s, k);
    RemoveAbsent(p, k);
    RemoveDistinct(s, k);
    assert (p + Remove(s, k)) + [k] == p + (Remove(s, k) + [k]);
    NewestSuffix(p, Remove(s, k) + [k], n);
  }

  lemma UseNew(p: seq<Key>, s: seq<Key>, k: Key, n: int)
    requires n >= 1 && (|s| == n || (|s| < n && p == []))
    requires k !in s
    ensures Newest(Remove(p + s, k) + [k], n) == if |s| + 1 > n then (s + [k])[1..] else s + [k]
  {
    RemoveConcat(p, s, k);
    RemoveAbsent(s, k);
    var p' := Remove(p, k);
    if |s| == n {
      assert (p' + s) + [k] == (p' + [s[0]]) + (s + [k])[1..];
      NewestSuffix(p' + [s[0]], (s + [k])[1..], n);
    } else {
      assert p' == [];
      assert (p' + s) + [k] == [] + (s + [k]);
      NewestSuffix([], s + [k], n);
    }
  }

  /** Using a key: it moves to the end; a new key pushes the oldest one out of a full cache. */
  lemma NewestStep(r: seq<Key>, k: Key, n: int)
    requires NoDup(r) && n >= 1
    ensures var s := Newest(r, n);
            Newest(Remove(r, k) + [k], n)
            == if k in s then Remove(s, k) + [k] else if |s| + 1 > n then (s + [k])[1..] else s + [k]
  {
    var s := Newest(r, n);
    var p := r[..|r| - |s|];
    assert r == p + s;
    if k in s {
      UseHeld(p, s, k, n);
    } else {
      UseNew(p, s, k, n);
    }
  }

  lemma HeldStep(trace: seq<Key>, k: Key, size: int)
    ensures var held := Held(trace, size);
            Held(trace + [k], size)
            == if k in held then Remove(held, k) + [k] else if |held| + 1 > size then (held + [k])[1..] else held + [k]
    ensures Hits(trace + [k], size) == Hits(trace, size) + if k in Held(trace, size) then 1 else 0
  {
    assert (trace + [k])[..|trace|] == trace;
    RecencyIsDistinct(trace);
    if size >= 1 {
      NewestStep(Recency(trace), k, size);
    }
  }

  // ---------------------------------------------------------------- the cache

  function Keys(calls: seq<(Session, int)>): seq<Key> {
    if calls == [] then []
    else
      var (session, budget) := calls[|calls| - 1];
      Keys(calls[..|calls| - 1]) + [CacheKey(session, budget)]
  }

  lemma KeysOfMore(calls: seq<(Session, int)>, session: Session, budget: int)
    ensures Keys(calls + [(session, budget)]) == Keys(calls) + [CacheKey(session, budget)]
  {
    assert (calls + [(session, budget)])[..|calls|] == calls;
  }

  /** Misses whose result was compacted. */
  ghost function Compactions(trace: seq<Key>, size: int): nat {
    if trace == [] then 0
    else
      var n := |trace| - 1;
      Compactions(trace[..n], size) + if trace[n] !in Held(trace[..n], size) && ForKey(trace[n]).compacted then 1 else 0
  }

  lemma CompactionsOfMore(trace: seq<Key>, k: Key, size: int)
    ensures Compactions(trace + [k], size) == Compactions(trace, size) + if k !in Held(trace, size) && ForKey(k).compacted then 1 else 0
  {
    assert (trace + [k])[..|trace|] == trace;
  }

  ghost predicate Tracks(order: seq<Key>, entries: map<Key, AssembledContext>) { forall k :: k in entries <==> k in order }

  /** Every value is what the assembler computes for its key. */
  ghost predicate Faithful(entries: map<Key, AssembledContext>) { forall k :: k in entries ==> entries[k] == ForKey(k) }

  /** All values of `after` come from `before`. */
  ghost predicate Within(after: map<Key, AssembledContext>, before: map<Key, AssembledContext>) {
    forall k :: k in after ==> k in before && after[k] == before[k]
  }

  lemma FaithfulWithin(after: map<Key, AssembledContext>, before: map<Key, AssembledContext>)
    requires Faithful(before) && Within(after, before)
    ensures Faithful(after)
  {
  }

  /** An ordered dictionary is a sequence of keys, oldest first, with the values beside it. */
  class ContextCache {
    const maxEntries: int
    var order: seq<Key>
    var entries: map<Key, AssembledContext>
    var hits: nat
    var misses: nat
    var compactionCount: nat
    /** Every call so far, and its key. */
    ghost var calls: seq<(Session, int)>
    ghost var trace: seq<Key>

    /** Order and counters follow from the keys asked for. */
    ghost predicate Recent()
      reads this`order, this`entries, this`hits, this`misses, this`trace
    {
      && order == Held(trace, maxEntries) && Tracks(order, entries)
      && hits == Hits(trace, maxEntries) && hits + misses == |trace|
    }

    /** The values and the number of compactions follow from them too. */
    ghost predicate Keyed()
      reads this`order, this`entries, this`hits, this`misses, this`compactionCount, this`trace
    {
      Recent() && Faithful(entries) && compactionCount == Compactions(trace, maxEntries)
    }

    ghost predicate Valid()
      reads this
    {
      Keyed() && trace == Keys(calls)
    }

    constructor (maxEntries: int)
      ensures Valid() && this.maxEntries == maxEntries && calls == []
    {
      this.maxEntries := maxEntries;
      order, entries, hits, misses, compactionCount, calls, trace := [], map[], 0, 0, 0, [], [];
    }

    method Assemble(session: Session, tokenBudget: int) returns (context: AssembledContext)
      requires Valid()
      modifies this
      ensures Valid() && calls == old(calls) + [(session, tokenBudget)]
      ensures context == Assembled(session, tokenBudget)
    {
      var key := CacheKey(session, tokenBudget);
      KeysOfMore(calls, session, tokenBudget);
      KeyDeterminesResult(session, tokenBudget);
      calls := calls + [(session, tokenBudget)];
      context := AssembleFor(key, session, tokenBudget);
    }

    method AssembleFor(key: Key, session: Session, tokenBudget: int) returns (context: AssembledContext)
      requires Keyed() && Assembled(session, tokenBudget) == ForKey(key)
      modifies this`order, this`entries, this`hits, this`misses, this`compactionCount, this`trace
      ensures Keyed() && trace == old(trace) + [key] && context == ForKey(key)
    {
      CompactionsOfMore(trace, key, maxEntries);
      if key in entries {
        Touch(key);
        return entries[key];
      }
      context := AssembleContext(session, tokenBudget);
      Store(key, context);
    }

    /** Keep a freshly assembled context. */
    method Store(key: Key, context: AssembledContext)
      requires Recent() && Faithful(entries) && key !in entries && context == ForKey(key)
      modifies this`order, this`entries, this`misses, this`compactionCount, this`trace
      ensures Recent() && Faithful(entries) && trace == old(trace) + [key]
      ensures compactionCount == old(compactionCount) + if context.compacted then 1 else 0
    {
      if context.compacted {
        compactionCount := compactionCount + 1;
      }
      ghost var put := entries[key := context];
      Insert(key, context);
      FaithfulWithin(entries, put);
    }

    /** A key that is held becomes the most recent. */
    method Touch(key: Key)
      requires Recent() && key in entries
      modifies this`order, this`hits, this`trace
      ensures Recent() && trace == old(trace) + [key]
    {
      HeldStep(trace, key, maxEntries);
      trace := trace + [key];
      hits := hits + 1;
      order := Remove(order, key) + [key];
    }

    /** A new key goes to the end; past the limit the oldest is dropped. */
    method Insert(key: Key, context: AssembledContext)
      requires Recent() && key !in entries
      modifies this`order, this`entries, this`misses, this`trace
      ensures Recent() && trace == old(trace) + [key]
      ensures Within(entries, old(entries)[key := context])
    {
      HeldStep(trace, key, maxEntries);
      FirstIsAlone(trace, key, maxEntries);
      TracksPut(order, entries, key, context);
      trace := trace + [key];
      misses := misses + 1;
      entries := entries[key := context];
      order := order + [key];
      if |order| > maxEntries {
        TracksDrop(order, entries);
        entries := entries - {order[0]};
        order := order[1..];
      }
    }
  }

  lemma TracksPut(order: seq<Key>, entries: map<Key, AssembledContext>, k: Key, context: AssembledContext)
    requires Tracks(order, entries)
    ensures Tracks(order + [k], entries[k := context])
  {
  }

  lemma TracksDrop(order: seq<Key>, entries: map<Key, AssembledContext>)
    requires Tracks(order, entries) && NoDup(order) && order != []
    ensures Tracks(order[1..], entries - {order[0]})
  {
    forall k | k in order && k != order[0] ensures k in order[1..] {
      var i :| 0 <= i < |order| && order[i] == k;
      assert order[1..][i - 1] == k;
    }
  }

  lemma FirstIsAlone(trace: seq<Key>, k: Key, size: int)
    requires k !in Held(trace, size)
    ensures NoDup(Held(trace, size) + [k])
  {
    RecencyIsDistinct(trace);
  }

  // ---------------------------------------------------------------- what the cache holds

  /** Position of the last use of a key in a trace. */
  function LastUse(trace: seq<Key>, k: Key): (i: nat)
    requires k in trace
    ensures i < |trace| && trace[i] == k && forall j :: i < j < |trace| ==> trace[j] != k
  {
    var n := |trace| - 1;
    if trace[n] == k then n else
      assert trace == trace[..n] + [trace[n]];
      LastUse(trace[..n], k)
  }

  lemma {:induction false} RecencyByLastUse(trace: seq<Key>, i: nat, j: nat)
    requires i < j < |Recency(trace)|
    ensures Recency(trace)[i] in trace && Recency(trace)[j] in trace
    ensures LastUse(trace, Recency(trace)[i]) < LastUse(trace, Recency(trace)[j])
  {
    RecencyIsDistinct(trace);
    var n := |trace| - 1;
    var before, r := Recency(trace[..n]), Recency(trace);
    var rest := Remove(before, trace[n]);
    if j < |rest| {
      var i', j' := RemoveKeepsOrder(before, trace[n], i, j);
      RecencyIsDistinct(trace[..n]);
      RecencyByLastUse(trace[..n], i', j');
    } else {
      assert r[i] in rest;
    }
  }

  lemma {:induction false} RemoveKeepsOrder(s: seq<Key>, k: Key, i: nat, j: nat) returns (i': nat, j': nat)
    requires i < j < |Remove(s, k)|
    ensures i' < j' < |s| && s[i'] == Remove(s, k)[i] && s[j'] == Remove(s, k)[j]
  {
    if s[0] == k {
      i', j' := RemoveKeepsOrder(s[1..], k, i, j);
      i', j' := i' + 1, j' + 1;
    } else if i > 0 {
      i', j' := RemoveKeepsOrder(s[1..], k, i - 1, j - 1);
      i', j' := i' + 1, j' + 1;
    } else {
      i' := 0;
      var x := Remove(s[1..], k)[j - 1];
      assert x in Remove(s[1..], k);
      var m :| 0 <= m < |s[1..]| && s[1..][m] == x;
      j' := m + 1;
    }
  }

  /** The keys used since the last use of k. */
  ghost function UsedSince(trace: seq<Key>, k: Key): set<Key>
    requires k in trace
  {
    set x | x in trace && LastUse(trace, x) > LastUse(trace, k)
  }

  /** LRU exactness: a key is held exactly when it was used and fewer than `size` other keys since. */
  lemma HoldsMostRecent(trace: seq<Key>, k: Key, size: int)
    ensures k in Held(trace, size) <==> k in trace && |UsedSince(trace, k)| < size
  {
    RecencyIsDistinct(trace);
    var r := Recency(trace);
    if k in trace {
      var p :| 0 <= p < |r| && r[p] == k;
      var later := r[p + 1..];
      forall x ensures x in later <==> x in UsedSince(trace, k) {
        if x in r {
          var q :| 0 <= q < |r| && r[q] == x;
          if q < p {
            RecencyByLastUse(trace, q, p);
          } else if p < q {
            RecencyByLastUse(trace, p, q);
            assert later[q - p - 1] == x;
          }
        }
      }
      assert (set x | x in later) == UsedSince(trace, k);
      NoDupCardinality(later);
    }
  }

  /** Inclusion: on one trace a larger cache holds everything a smaller one holds. */
  lemma LargerHoldsMore(trace: seq<Key>, size: int, larger: int)
    requires size <= larger
    ensures forall k :: k in Held(trace, size) ==> k in Held(trace, larger)
  {
    var r, a, b := Recency(trace), Held(trace, size), Held(trace, larger);
    forall k | k in a ensures k in b {
      var i :| 0 <= i < |a| && a[i] == k;
      assert b[|b| - |a| + i] == k;
    }
  }

  /** So hits never fall as the cache grows. */
  lemma {:induction false} HitsGrowWithSize(trace: seq<Key>, size: int, larger: int)
    requires size <= larger
    ensures Hits(trace, size) <= Hits(trace, larger)
  {
    if trace != [] {
      var n := |trace| - 1;
      HitsGrowWithSize(trace[..n], size, larger);
      LargerHoldsMore(trace[..n], size, larger);
    }
  }
}
