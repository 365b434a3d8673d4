/**
 Concurrent dispatches into one view. A query loads the view, updates its own copy and stores the copy back; the repository
 locks each of the two accesses but not the pair. A schedule says in which order the loads and the stores of the dispatches
 happen. A view that remembers its events agrees with them if and only if no store falls between another dispatch's load
 and store. This holds for any view; `tasks` are what the dispatches apply.
 */
module SharedViews {
  import opened EventSourcing

  datatype Access = Load(task: nat) | Store(task: nat)

  /** The shared view, and the copies loaded and not yet stored. */
  datatype Shared<V> = Shared(view: V, held: map<nat, V>)

  function Play<V, T>(update: (V, T) -> V, init: V, tasks: seq<T>, schedule: seq<Access>): Shared<V> {
    if schedule == [] then Shared(init, map[])
    else
      var before, last := Play(update, init, tasks, schedule[..|schedule| - 1]), schedule[|schedule| - 1];
      match last
      case Load(i) => before.(held := before.held[i := before.view])
      case Store(i) =>
        if i in before.held && i < |tasks| then
          before.(view := update(before.held[i], tasks[i]))
        else before
  }

  /** Every task loads once, then stores at most once. */
  ghost predicate WellFormed(n: nat, schedule: seq<Access>) {
    schedule != [] ==>
      var front, last := schedule[..|schedule| - 1], schedule[|schedule| - 1];
      && WellFormed(n, front)
      && last.task < n
      && last !in front
      && (last.Store? ==> Load(last.task) in front)
      && (last.Load? ==> Store(last.task) !in front)
  }

  /** No store since task `i` loaded. */
  ghost predicate NoStoreSinceLoad(schedule: seq<Access>, i: nat) {
    schedule != [] &&
      var front, last := schedule[..|schedule| - 1], schedule[|schedule| - 1];
      last == Load(i) || (last.Load? && NoStoreSinceLoad(front, i))
  }

  ghost predicate RaceFree(schedule: seq<Access>) {
    schedule != [] ==>
      var front, last := schedule[..|schedule| - 1], schedule[|schedule| - 1];
      RaceFree(front) && (last.Store? ==> NoStoreSinceLoad(front, last.task))
  }

  /** The tasks in the order of their stores. */
  function Stored<T>(tasks: seq<T>, schedule: seq<Access>): seq<T> {
    if schedule == [] then []
    else
      var last := schedule[|schedule| - 1];
      Stored(tasks, schedule[..|schedule| - 1]) + (if last.Store? && last.task < |tasks| then [tasks[last.task]] else [])
  }

  lemma {:induction false} FreshCopy<V, T>(update: (V, T) -> V, init: V, tasks: seq<T>, schedule: seq<Access>, i: nat)
    requires NoStoreSinceLoad(schedule, i)
    ensures var s := Play(update, init, tasks, schedule); i in s.held && s.held[i] == s.view
  {
    var front, last := schedule[..|schedule| - 1], schedule[|schedule| - 1];
    if last != Load(i) {
      FreshCopy(update, init, tasks, front, i);
    }
  }

  /** Without races the shared view is the replay of the tasks in the order they were stored, whatever the events are. */
  lemma {:induction false} RaceFreeAgrees<V, T>(update: (V, T) -> V, init: V, tasks: seq<T>, schedule: seq<Access>)
    requires WellFormed(|tasks|, schedule) && RaceFree(schedule)
    ensures Play(update, init, tasks, schedule).view == Replay(update, init, Stored(tasks, schedule))
  {
    if schedule != [] {
      var front, last := schedule[..|schedule| - 1], schedule[|schedule| - 1];
      RaceFreeAgrees(update, init, tasks, front);
      if last.Store? {
        FreshCopy(update, init, tasks, front, last.task);
        var log := Stored(tasks, schedule);
        assert log == Stored(tasks, front) + [tasks[last.task]];
        assert log[..|log| - 1] == Stored(tasks, front);
      } else {
        assert Stored(tasks, schedule) == Stored(tasks, front);
      }
    }
  }

  // ----- the other direction -----

  /** The view tells which events have been applied to it: `shows(view, i)` holds for the events that were, and for no others. */
  ghost predicate Remembers<V(!new), T>(update: (V, T) -> V, init: V, tasks: seq<T>, shows: (V, nat) -> bool) {
    && (forall i: nat :: i < |tasks| ==> !shows(init, i))
    && (forall view, i: nat, j: nat :: i < |tasks| && j < |tasks| ==>
          (shows(update(view, tasks[j]), i) <==> i == j || shows(view, i)))
  }

  /** Every stored event is in the view. */
  ghost predicate NothingLost<V>(view: V, n: nat, schedule: seq<Access>, shows: (V, nat) -> bool) {
    forall i: nat :: i < n && Store(i) in schedule ==> shows(view, i)
  }

  /** The schedule up to the load of task `i`. */
  function UntilLoad(schedule: seq<Access>, i: nat): (prefix: seq<Access>)
    requires Load(i) in schedule
    ensures prefix < schedule
  {
    var front, last := schedule[..|schedule| - 1], schedule[|schedule| - 1];
    if last == Load(i) then front
    else
      assert schedule == front + [last];
      UntilLoad(front, i)
  }

  lemma {:induction false} HeldIsOld<V, T>(update: (V, T) -> V, init: V, tasks: seq<T>, schedule: seq<Access>, i: nat)
    requires WellFormed(|tasks|, schedule) && Load(i) in schedule
    ensures var s := Play(update, init, tasks, schedule);
            i in s.held && s.held[i] == Play(update, init, tasks, UntilLoad(schedule, i)).view
  {
    var front, last := schedule[..|schedule| - 1], schedule[|schedule| - 1];
    assert schedule == front + [last];
    if last != Load(i) {
      HeldIsOld(update, init, tasks, front, i);
    }
  }

  lemma {:induction false} PrefixWellFormed(n: nat, schedule: seq<Access>, k: nat)
    requires WellFormed(n, schedule) && k <= |schedule|
    ensures WellFormed(n, schedule[..k])
  {
    if k < |schedule| {
      PrefixWellFormed(n, schedule[..|schedule| - 1], k);
      assert schedule[..|schedule| - 1][..k] == schedule[..k];
    } else {
      assert schedule[..k] == schedule;
    }
  }

  /** Only stored events are in the view. */
  lemma {:induction false} OnlyStored<V(!new), T>(update: (V, T) -> V, init: V, tasks: seq<T>, schedule: seq<Access>,
                                                 shows: (V, nat) -> bool, i: nat)
    requires WellFormed(|tasks|, schedule) && Remembers(update, init, tasks, shows)
    requires i < |tasks| && shows(Play(update, init, tasks, schedule).view, i)
    ensures Store(i) in schedule
    decreases |schedule|
  {
    var front, last := schedule[..|schedule| - 1], schedule[|schedule| - 1];
    assert schedule == front + [last];
    if last.Load? {
      OnlyStored(update, init, tasks, front, shows, i);
    } else if last.task != i {
      HeldIsOld(update, init, tasks, front, last.task);
      var early := UntilLoad(front, last.task);
      PrefixWellFormed(|tasks|, front, |early|);
      assert front[..|early|] == early;
      OnlyStored(update, init, tasks, early, shows, i);
    }
  }

  lemma {:induction false} QuietSinceLoad(n: nat, schedule: seq<Access>, i: nat)
    requires WellFormed(n, schedule) && Load(i) in schedule
    requires forall k: nat :: Store(k) in schedule ==> Store(k) in UntilLoad(schedule, i)
    requires RaceFree(UntilLoad(schedule, i))
    ensures NoStoreSinceLoad(schedule, i) && RaceFree(schedule)
  {
    var front, last := schedule[..|schedule| - 1], schedule[|schedule| - 1];
    assert schedule == front + [last];
    if last != Load(i) {
      QuietSinceLoad(n, front, i);
    }
  }

  /** When nothing is lost, there was no race. */
  lemma {:induction false} NothingLostOnlyRaceFree<V(!new), T>(update: (V, T) -> V, init: V, tasks: seq<T>,
                                                              schedule: seq<Access>, shows: (V, nat) -> bool)
    requires WellFormed(|tasks|, schedule) && Remembers(update, init, tasks, shows)
    requires NothingLost(Play(update, init, tasks, schedule).view, |tasks|, schedule, shows)
    ensures RaceFree(schedule)
    decreases |schedule|
  {
    if schedule != [] {
      var front, last := schedule[..|schedule| - 1], schedule[|schedule| - 1];
      assert schedule == front + [last];
      if last.Load? {
        assert NothingLost(Play(update, init, tasks, front).view, |tasks|, front, shows);
        NothingLostOnlyRaceFree(update, init, tasks, front, shows);
      } else {
        HeldIsOld(update, init, tasks, front, last.task);
        var early := UntilLoad(front, last.task);
        PrefixWellFormed(|tasks|, front, |early|);
        assert front[..|early|] == early;
        forall k: nat | Store(k) in front
          ensures k < |tasks| && Store(k) in early && shows(Play(update, init, tasks, early).view, k)
        {
          AllFromTasks(|tasks|, front, k);
          StoreSurvives(update, init, tasks, front, shows, last.task, k);
        }
        assert NothingLost(Play(update, init, tasks, early).view, |tasks|, early, shows);
        NothingLostOnlyRaceFree(update, init, tasks, early, shows);
        QuietSinceLoad(|tasks|, front, last.task);
      }
    }
  }

  lemma {:induction false} AllFromTasks(n: nat, schedule: seq<Access>, k: nat)
    requires WellFormed(n, schedule) && Store(k) in schedule
    ensures k < n
  {
    var front, last := schedule[..|schedule| - 1], schedule[|schedule| - 1];
    assert schedule == front + [last];
    if last != Store(k) {
      AllFromTasks(n, front, k);
    }
  }

  /** An event still in the view after task `i` has stored its copy was stored before task `i` loaded. */
  lemma StoreSurvives<V(!new), T>(update: (V, T) -> V, init: V, tasks: seq<T>, front: seq<Access>,
                                  shows: (V, nat) -> bool, i: nat, k: nat)
    requires WellFormed(|tasks|, front + [Store(i)]) && Remembers(update, init, tasks, shows)
    requires k < |tasks| && Store(k) in front && shows(Play(update, init, tasks, front + [Store(i)]).view, k)
    ensures WellFormed(|tasks|, front) && Load(i) in front
    ensures Store(k) in UntilLoad(front, i) && shows(Play(update, init, tasks, UntilLoad(front, i)).view, k)
  {
    var schedule := front + [Store(i)];
    assert schedule[..|schedule| - 1] == front;
    HeldIsOld(update, init, tasks, front, i);
    var early := UntilLoad(front, i);
    PrefixWellFormed(|tasks|, front, |early|);
    assert front[..|early|] == early;
    assert k != i;
    OnlyStored(update, init, tasks, early, shows, k);
  }

  lemma {:induction false} FoldShows<V(!new), T>(update: (V, T) -> V, init: V, tasks: seq<T>, schedule: seq<Access>,
                                                shows: (V, nat) -> bool)
    requires WellFormed(|tasks|, schedule) && Remembers(update, init, tasks, shows)
    ensures NothingLost(Replay(update, init, Stored(tasks, schedule)), |tasks|, schedule, shows)
  {
    if schedule != [] {
      var front, last := schedule[..|schedule| - 1], schedule[|schedule| - 1];
      assert schedule == front + [last];
      FoldShows(update, init, tasks, front, shows);
      var log := Stored(tasks, schedule);
      if last.Store? {
        assert log[..|log| - 1] == Stored(tasks, front);
      } else {
        assert log == Stored(tasks, front);
      }
    }
  }

  /** For a view that remembers its events: it agrees with the replay of the stored ones if and only if no store fell between
      another dispatch's load and store. */
  lemma AgreesExactlyWhenRaceFree<V(!new), T>(update: (V, T) -> V, init: V, tasks: seq<T>, schedule: seq<Access>,
                                              shows: (V, nat) -> bool)
    requires WellFormed(|tasks|, schedule) && Remembers(update, init, tasks, shows)
    ensures Play(update, init, tasks, schedule).view == Replay(update, init, Stored(tasks, schedule))
       <==> RaceFree(schedule)
  {
    if RaceFree(schedule) {
      RaceFreeAgrees(update, init, tasks, schedule);
    } else if Play(update, init, tasks, schedule).view == Replay(update, init, Stored(tasks, schedule)) {
      FoldShows(update, init, tasks, schedule, shows);
      NothingLostOnlyRaceFree(update, init, tasks, schedule, shows);
    }
  }

  // ----- what has been stored -----

  lemma {:induction false} InStored<T>(tasks: seq<T>, schedule: seq<Access>, k: nat)
    requires WellFormed(|tasks|, schedule) && Store(k) in schedule
    ensures k < |tasks| && tasks[k] in Stored(tasks, schedule)
  {
    var front, last := schedule[..|schedule| - 1], schedule[|schedule| - 1];
    assert schedule == front + [last];
    if last != Store(k) {
      InStored(tasks, front, k);
    }
  }

  /** Tasks stored under different keys are different tasks. */
  lemma {:induction false} StoredApart<T>(tasks: seq<T>, schedule: seq<Access>, key: T -> nat, i: nat, j: nat)
    requires WellFormed(|tasks|, schedule) && Store(i) in schedule && Store(j) in schedule && i != j
    requires var stored := Stored(tasks, schedule); forall a, b :: 0 <= a < b < |stored| ==> key(stored[a]) != key(stored[b])
    ensures i < |tasks| && j < |tasks| && key(tasks[i]) != key(tasks[j])
  {
    var front, last := schedule[..|schedule| - 1], schedule[|schedule| - 1];
    var stored := Stored(tasks, schedule);
    assert schedule == front + [last];
    InStored(tasks, schedule, i);
    InStored(tasks, schedule, j);
    if last == Store(i) || last == Store(j) {
      var other := if last == Store(i) then j else i;
      InStored(tasks, front, other);
      assert stored == Stored(tasks, front) + [tasks[last.task]];
      var a :| 0 <= a < |Stored(tasks, front)| && Stored(tasks, front)[a] == tasks[other];
      assert stored[a] == tasks[other] && stored[|stored| - 1] == tasks[last.task];
    } else {
      assert stored == Stored(tasks, front) + (if last.Store? then [tasks[last.task]] else []);
      assert forall a :: 0 <= a < |Stored(tasks, front)| ==> stored[a] == Stored(tasks, front)[a];
      StoredApart(tasks, front, key, i, j);
    }
  }

  // ----- any events: the view that collects sequence numbers -----

  /** The tasks by their sequence numbers. */
  function Numbers(n: nat): (r: seq<nat>)
    ensures |r| == n && forall i :: 0 <= i < n ==> r[i] == i
  {
    seq(n, i => i)
  }

  const COLLECT := (seen: set<nat>, i: nat) => seen + {i}

  /** Exactly when concurrent dispatches are safe, for all tasks. Without races every view, whatever its update, is the replay of
      the stored tasks; and with a race not every one is: the view that collects sequence numbers is not. */
  lemma RaceFreeExactly<V, T>(update: (V, T) -> V, init: V, tasks: seq<T>, schedule: seq<Access>)
    requires WellFormed(|tasks|, schedule)
    ensures RaceFree(schedule)
       <==> Play(COLLECT, {}, Numbers(|tasks|), schedule).view == Replay(COLLECT, {}, Stored(Numbers(|tasks|), schedule))
    ensures RaceFree(schedule) ==> Play(update, init, tasks, schedule).view == Replay(update, init, Stored(tasks, schedule))
  {
    AgreesExactlyWhenRaceFree(COLLECT, {}, Numbers(|tasks|), schedule, (seen: set<nat>, i) => i in seen);
    if RaceFree(schedule) {
      RaceFreeAgrees(update, init, tasks, schedule);
    }
  }
}
