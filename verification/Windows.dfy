/** The rolling windows of the metrics registry (observability/metrics.py): what one deque keeps of
    everything recorded. */
module Windows {
  import opened Basics
  import opened Percentiles

  datatype Timed<+T> = Timed(value: T, at: int)

  datatype Op<+T> = Push(entry: Timed<T>) | Tick(now: int)

  // ---------------------------------------------------------------- one deque

  /** Eviction: the head goes while it is older than the window. */
  function Evict<T>(entries: seq<Timed<T>>, at: int, window: int): seq<Timed<T>> {
    if entries != [] && at - entries[0].at > window then Evict(entries[1..], at, window) else entries
  }

  function TimeOf<T>(op: Op<T>): int { if op.Push? then op.entry.at else op.now }

  /** A deque after a run of records and evictions. */
  function DequeAfter<T>(ops: seq<Op<T>>, window: int): seq<Timed<T>>
    decreases |ops|
  {
    if ops == [] then []
    else
      var op := ops[|ops| - 1];
      var before := DequeAfter(ops[..|ops| - 1], window);
      Evict(if op.Push? then before + [op.entry] else before, TimeOf(op), window)
  }

  /** Everything ever recorded. */
  function Pushed<T>(ops: seq<Op<T>>): seq<Timed<T>>
    decreases |ops|
  {
    if ops == [] then []
    else
      var op := ops[|ops| - 1];
      Pushed(ops[..|ops| - 1]) + if op.Push? then [op.entry] else []
  }

  /** The entries of age at most the window. */
  function InWindow<T>(entries: seq<Timed<T>>, at: int, window: int): seq<Timed<T>> {
    if entries == [] then []
    else (if at - entries[0].at <= window then [entries[0]] else []) + InWindow(entries[1..], at, window)
  }

  ghost predicate Rising<T>(entries: seq<Timed<T>>) {
    forall i, j :: 0 <= i <= j < |entries| ==> entries[i].at <= entries[j].at
  }

  /** Clock readings of the calls do not go back. */
  ghost predicate InOrder<T>(ops: seq<Op<T>>) {
    forall i, j :: 0 <= i <= j < |ops| ==> TimeOf(ops[i]) <= TimeOf(ops[j])
  }

  /** No entry that is still young enough stands before one that is too old. */
  ghost predicate OldestFirst<T>(entries: seq<Timed<T>>, at: int, window: int) {
    forall i, j :: 0 <= i < j < |entries| && at - entries[i].at <= window ==> at - entries[j].at <= window
  }

  lemma {:induction false} InWindowAll<T>(entries: seq<Timed<T>>, at: int, window: int)
    ensures |InWindow(entries, at, window)| <= |entries|
    ensures forall i :: 0 <= i < |InWindow(entries, at, window)| ==> at - InWindow(entries, at, window)[i].at <= window
    ensures (forall i :: 0 <= i < |entries| ==> at - entries[i].at <= window) ==> InWindow(entries, at, window) == entries
  {
    if entries != [] {
      InWindowAll(entries[1..], at, window);
      assert entries == [entries[0]] + entries[1..];
    }
  }

  /** Evicting from the head alone is exact exactly when nothing old hides behind something young. */
  lemma {:induction false} EvictionExactWhenOldestFirst<T>(entries: seq<Timed<T>>, at: int, window: int)
    ensures Evict(entries, at, window) == InWindow(entries, at, window) <==> OldestFirst(entries, at, window)
  {
    if entries != [] && at - entries[0].at > window {
      EvictionExactWhenOldestFirst(entries[1..], at, window);
      OldHeadHidesNothing(entries, at, window);
    } else if entries != [] {
      InWindowAll(entries, at, window);
      if InWindow(entries, at, window) == entries {
        assert forall i :: 0 <= i < |entries| ==> at - InWindow(entries, at, window)[i].at <= window;
      }
    }
  }

  lemma OldHeadHidesNothing<T>(entries: seq<Timed<T>>, at: int, window: int)
    requires entries != [] && at - entries[0].at > window
    ensures OldestFirst(entries[1..], at, window) <==> OldestFirst(entries, at, window)
  {
    if OldestFirst(entries[1..], at, window) {
      forall i, j | 0 <= i < j < |entries| && at - entries[i].at <= window ensures at - entries[j].at <= window {
        assert entries[1..][i - 1] == entries[i] && entries[1..][j - 1] == entries[j];
      }
    }
    if OldestFirst(entries, at, window) {
      forall i, j | 0 <= i < j < |entries[1..]| && at - entries[1..][i].at <= window ensures at - entries[1..][j].at <= window {
        assert entries[1..][i] == entries[i + 1] && entries[1..][j] == entries[j + 1];
      }
    }
  }

  function Kept<T>(entry: Timed<T>, at: int, window: int): seq<Timed<T>> { if at - entry.at <= window then [entry] else [] }

  lemma HeadInWindow<T>(entry: Timed<T>, rest: seq<Timed<T>>, at: int, window: int)
    ensures InWindow([entry] + rest, at, window) == Kept(entry, at, window) + InWindow(rest, at, window)
  {
    assert ([entry] + rest)[1..] == rest;
  }

  lemma {:induction false} InWindowAppend<T>(a: seq<Timed<T>>, b: seq<Timed<T>>, at: int, window: int)
    ensures InWindow(a + b, at, window) == InWindow(a, at, window) + InWindow(b, at, window)
  {
    if a == [] {
      assert a + b == b;
    } else {
      InWindowAppend(a[1..], b, at, window);
      assert a + b == [a[0]] + (a[1..] + b) && a == [a[0]] + a[1..];
      HeadInWindow(a[0], a[1..] + b, at, window);
      HeadInWindow(a[0], a[1..], at, window);
    }
  }

  /** What an earlier look already dropped a later look drops too. */
  lemma {:induction false} LaterLookSeesLess<T>(entries: seq<Timed<T>>, earlier: int, later: int, window: int)
    requires earlier <= later
    ensures InWindow(InWindow(entries, earlier, window), later, window) == InWindow(entries, later, window)
  {
    if entries != [] {
      LaterLookSeesLess(entries[1..], earlier, later, window);
      var rest := InWindow(entries[1..], earlier, window);
      if earlier - entries[0].at <= window {
        assert ([entries[0]] + rest)[1..] == rest;
      } else {
        assert InWindow(entries, earlier, window) == rest;
        assert InWindow(entries, later, window) == InWindow(entries[1..], later, window);
      }
    }
  }

  ghost predicate Between<T>(entries: seq<Timed<T>>, low: int, high: int) {
    Rising(entries) && forall i :: 0 <= i < |entries| ==> low <= entries[i].at <= high
  }

  lemma {:induction false} InWindowRises<T>(entries: seq<Timed<T>>, at: int, window: int, low: int, high: int)
    requires Between(entries, low, high)
    ensures Between(InWindow(entries, at, window), low, high)
  {
    if entries != [] {
      assert Between(entries[1..], entries[0].at, high);
      InWindowRises(entries[1..], at, window, entries[0].at, high);
    }
  }

  lemma OneMoreRises<T>(entries: seq<Timed<T>>, more: seq<Timed<T>>, low: int, high: int, later: int)
    requires Between(entries, low, high) && low <= high <= later
    requires |more| <= 1 && (more != [] ==> more[0].at == later)
    ensures Between(entries + more, low, later)
  {
  }

  lemma {:induction false} PushedRises<T>(ops: seq<Op<T>>)
    requires InOrder(ops) && ops != []
    ensures Between(Pushed(ops), TimeOf(ops[0]), TimeOf(ops[|ops| - 1]))
    decreases |ops|
  {
    var init := ops[..|ops| - 1];
    assert InOrder(init);
    if init != [] {
      PushedRises(init);
      OneMoreRises(Pushed(init), if ops[|ops| - 1].Push? then [ops[|ops| - 1].entry] else [],
                   TimeOf(ops[0]), TimeOf(init[|init| - 1]), TimeOf(ops[|ops| - 1]));
    }
  }

  /** The deque holds exactly the full history's entries of age at most the window. */
  lemma {:induction false} DequeIsExact<T>(ops: seq<Op<T>>, window: int)
    requires ops != [] && InOrder(ops)
    ensures DequeAfter(ops, window) == InWindow(Pushed(ops), TimeOf(ops[|ops| - 1]), window)
    decreases |ops|
  {
    var init, op := ops[..|ops| - 1], ops[|ops| - 1];
    var now := TimeOf(op);
    var before := DequeAfter(init, window);
    var added := if op.Push? then [op.entry] else [];
    assert InOrder(init);
    if init != [] {
      var former := TimeOf(init[|init| - 1]);
      DequeIsExact(init, window);
      PushedRises(init);
      LaterLookSeesLess(Pushed(init), former, now, window);
      InWindowRises(Pushed(init), former, window, TimeOf(init[0]), former);
    }
    assert InWindow(before, now, window) == InWindow(Pushed(init), now, window);
    InWindowAppend(before, added, now, window);
    InWindowAppend(Pushed(init), added, now, window);
    RisingIsOldestFirst(before, added, now, window);
    EvictionExactWhenOldestFirst(before + added, now, window);
    assert op.Tick? ==> before + added == before;
  }

  lemma RisingIsOldestFirst<T>(before: seq<Timed<T>>, added: seq<Timed<T>>, now: int, window: int)
    requires Rising(before) && |added| <= 1
    requires added != [] ==> added[0].at == now
    requires forall i :: 0 <= i < |before| ==> before[i].at <= now
    ensures OldestFirst(before + added, now, window)
  {
    var entries := before + added;
    forall i, j | 0 <= i < j < |entries| ensures entries[i].at <= entries[j].at {
      assert i < |before| && entries[i] == before[i];
    }
  }

  /** Out of order it can fail: an old entry stays while a younger one stands before it. */
  lemma LateRecordIsStuck()
    ensures var ops: seq<Op<bool>> := [Push(Timed(true, 100)), Push(Timed(false, 0)), Tick(105)];
            DequeAfter(ops, 10) != InWindow(Pushed(ops), 105, 10)
  {
    var a: Op<bool>, b: Op<bool>, c: Op<bool> := Push(Timed(true, 100)), Push(Timed(false, 0)), Tick(105);
    var none: seq<Op<bool>> := [];
    assert [a, b, c][..2] == [a, b] && [a, b][..1] == [a] && [a][..0] == none;
    assert DequeAfter([a], 10) == [Timed(true, 100)];
    assert DequeAfter([a, b], 10) == [Timed(true, 100), Timed(false, 0)];
    InWindowAll(Pushed([a, b, c]), 105, 10);
    assert DequeAfter([a, b, c], 10)[1].at == 0;
  }
}
