/**
 A run seen from one shared view: which of its steps load the view and which store it. What is seen is a schedule in the
 sense of `SharedViews`, and the view of the run is the view of the schedule; so what is exact for schedules is exact for runs.
 */
module Traces {
  import opened EventSourcing
  import opened SharedViews

  /** The dispatches of a run in the order of their loads, what they did to the view, and which of them the processes are in
      the middle of. */
  datatype Trace<T> = Trace(tasks: seq<T>, schedule: seq<Access>, current: map<nat, nat>)

  /** What a step of the run is to the view. */
  datatype Note<T> = Nothing | Loads(pid: nat, task: T) | Stores(pid: nat)

  function Record<T>(t: Trace<T>, note: Note<T>): Trace<T> {
    match note
    case Nothing => t
    case Loads(pid, task) => Trace(t.tasks + [task], t.schedule + [Load(|t.tasks|)], t.current[pid := |t.tasks|])
    case Stores(pid) =>
      if pid in t.current then t.(schedule := t.schedule + [Store(t.current[pid])], current := t.current - {pid}) else t
  }

  /** What a process is about to apply to the view it has loaded. */
  datatype Copy<V, T> = Copy(task: T, loaded: V)

  /** A step does to the view and to the copies of it what is noted of it. */
  ghost predicate Noted<V, T>(update: (V, T) -> V, note: Note<T>, view: V, copies: map<nat, Copy<V, T>>,
                              view': V, copies': map<nat, Copy<V, T>>)
  {
    match note
    case Nothing => view' == view && copies' == copies
    case Loads(pid, task) => pid !in copies && view' == view && copies' == copies[pid := Copy(task, view)]
    case Stores(pid) => pid in copies && view' == update(copies[pid].loaded, copies[pid].task) && copies' == copies - {pid}
  }

  // ----- the schedule does what the processes do -----

  lemma {:induction false} MoreTasks<V, T>(update: (V, T) -> V, init: V, tasks: seq<T>, more: T, schedule: seq<Access>)
    requires WellFormed(|tasks|, schedule)
    ensures Play(update, init, tasks + [more], schedule) == Play(update, init, tasks, schedule)
    ensures Stored(tasks + [more], schedule) == Stored(tasks, schedule)
  {
    if schedule != [] {
      MoreTasks(update, init, tasks, more, schedule[..|schedule| - 1]);
    }
  }

  lemma {:induction false} StillWellFormed(n: nat, schedule: seq<Access>)
    requires WellFormed(n, schedule)
    ensures WellFormed(n + 1, schedule) && Load(n) !in schedule && Store(n) !in schedule
  {
    if schedule != [] {
      assert schedule == schedule[..|schedule| - 1] + [schedule[|schedule| - 1]];
      StillWellFormed(n, schedule[..|schedule| - 1]);
    }
  }

  ghost predicate CopyMatches<V, T>(update: (V, T) -> V, init: V, t: Trace<T>, k: nat, copy: Copy<V, T>) {
    var shared := Play(update, init, t.tasks, t.schedule);
    && k < |t.tasks| && t.tasks[k] == copy.task
    && Load(k) in t.schedule && Store(k) !in t.schedule && k in shared.held && shared.held[k] == copy.loaded
  }

  ghost predicate Matches<V, T>(update: (V, T) -> V, init: V, t: Trace<T>, view: V, copies: map<nat, Copy<V, T>>) {
    && WellFormed(|t.tasks|, t.schedule)
    && Play(update, init, t.tasks, t.schedule).view == view
    && t.current.Keys == copies.Keys
    && (forall p :: p in copies ==> CopyMatches(update, init, t, t.current[p], copies[p]))
    && (forall p, q :: p in t.current && q in t.current && p != q ==> t.current[p] != t.current[q])
  }

  lemma AfterLoad<V, T>(update: (V, T) -> V, init: V, tasks: seq<T>, schedule: seq<Access>, more: T)
    requires WellFormed(|tasks|, schedule)
    ensures var k, shared := |tasks|, Play(update, init, tasks, schedule);
            && WellFormed(k + 1, schedule + [Load(k)])
            && Play(update, init, tasks + [more], schedule + [Load(k)]) == shared.(held := shared.held[k := shared.view])
            && Store(k) !in schedule
  {
    MoreTasks(update, init, tasks, more, schedule);
    StillWellFormed(|tasks|, schedule);
    assert (schedule + [Load(|tasks|)])[..|schedule|] == schedule;
  }

  lemma AfterStore<V, T>(update: (V, T) -> V, init: V, tasks: seq<T>, schedule: seq<Access>, k: nat)
    requires WellFormed(|tasks|, schedule) && k < |tasks| && Load(k) in schedule && Store(k) !in schedule
    requires k in Play(update, init, tasks, schedule).held
    ensures var shared := Play(update, init, tasks, schedule);
            && WellFormed(|tasks|, schedule + [Store(k)])
            && Play(update, init, tasks, schedule + [Store(k)]) == shared.(view := update(shared.held[k], tasks[k]))
  {
    assert (schedule + [Store(k)])[..|schedule|] == schedule;
  }

  lemma LoadMatches<V, T>(update: (V, T) -> V, init: V, t: Trace<T>, view: V, copies: map<nat, Copy<V, T>>, pid: nat, task: T)
    requires Matches(update, init, t, view, copies) && pid !in copies
    ensures Matches(update, init, Record(t, Loads(pid, task)), view, copies[pid := Copy(task, view)])
  {
    var t' := Record(t, Loads(pid, task));
    AfterLoad(update, init, t.tasks, t.schedule, task);
    forall p | p in copies ensures CopyMatches(update, init, t', t.current[p], copies[p]) && t.current[p] < |t.tasks| {
      assert CopyMatches(update, init, t, t.current[p], copies[p]);
    }
  }

  lemma StoreMatches<V, T>(update: (V, T) -> V, init: V, t: Trace<T>, view: V, copies: map<nat, Copy<V, T>>, pid: nat)
    requires Matches(update, init, t, view, copies) && pid in copies
    ensures Matches(update, init, Record(t, Stores(pid)), update(copies[pid].loaded, copies[pid].task), copies - {pid})
  {
    assert CopyMatches(update, init, t, t.current[pid], copies[pid]);
    AfterStore(update, init, t.tasks, t.schedule, t.current[pid]);
    forall p | p in copies && p != pid ensures CopyMatches(update, init, Record(t, Stores(pid)), t.current[p], copies[p]) {
      assert CopyMatches(update, init, t, t.current[p], copies[p]);
    }
  }

  /** A step that is noted rightly keeps schedule and run together. */
  lemma RecordMatches<V, T>(update: (V, T) -> V, init: V, t: Trace<T>, note: Note<T>, view: V, copies: map<nat, Copy<V, T>>,
                            view': V, copies': map<nat, Copy<V, T>>)
    requires Matches(update, init, t, view, copies) && Noted(update, note, view, copies, view', copies')
    ensures Matches(update, init, Record(t, note), view', copies')
  {
    match note
    case Nothing =>
    case Loads(pid, task) => LoadMatches(update, init, t, view, copies, pid, task);
    case Stores(pid) => StoreMatches(update, init, t, view, copies, pid);
  }

  /** What a step adds to the tasks stored. */
  lemma RecordStored<V, T>(update: (V, T) -> V, init: V, t: Trace<T>, note: Note<T>, view: V, copies: map<nat, Copy<V, T>>)
    requires Matches(update, init, t, view, copies) && (note.Stores? ==> note.pid in copies)
    ensures var t' := Record(t, note);
            Stored(t'.tasks, t'.schedule)
            == Stored(t.tasks, t.schedule) + (if note.Stores? then [copies[note.pid].task] else [])
  {
    match note
    case Nothing =>
    case Loads(pid, task) =>
      MoreTasks(update, init, t.tasks, task, t.schedule);
      assert (t.schedule + [Load(|t.tasks|)])[..|t.schedule|] == t.schedule;
    case Stores(pid) =>
      assert CopyMatches(update, init, t, t.current[pid], copies[pid]);
      assert (t.schedule + [Store(t.current[pid])])[..|t.schedule|] == t.schedule;
  }

  /** Every task has been stored or is under way. */
  ghost predicate Known<T>(t: Trace<T>) {
    forall k: nat :: k < |t.tasks| ==> Store(k) in t.schedule || exists p :: p in t.current && t.current[p] == k
  }

  lemma RecordKnown<T>(t: Trace<T>, note: Note<T>)
    requires Known(t) && (note.Loads? ==> note.pid !in t.current)
    ensures Known(Record(t, note))
  {
    var t' := Record(t, note);
    forall k: nat | k < |t'.tasks| ensures Store(k) in t'.schedule || exists p :: p in t'.current && t'.current[p] == k {
      if k == |t.tasks| {
        assert t'.current[note.pid] == k;
      } else if Store(k) in t.schedule {
        assert Store(k) in t'.schedule;
      } else {
        var p :| p in t.current && t.current[p] == k;
        assert (p in t'.current && t'.current[p] == k) || t'.schedule[|t.schedule|] == Store(k);
      }
    }
  }

  // ----- traces of a list-all view -----

  /** The events of one aggregate that have been stored, or, unless `late`, those the view was loaded for. */
  function Seen<E>(t: Trace<Envelope<E>>, id: string, late: bool): seq<E> {
    EventsOf(if late then Stored(t.tasks, t.schedule) else t.tasks, id)
  }

  /** What a step adds to them. */
  function Brought<V, E>(note: Note<Envelope<E>>, copies: map<nat, Copy<V, Envelope<E>>>, id: string, late: bool): seq<E> {
    if late && note.Stores? && note.pid in copies then EventsOf([copies[note.pid].task], id)
    else if !late && note.Loads? then EventsOf([note.task], id)
    else []
  }

  lemma EventsOfSnoc<E>(log: seq<Envelope<E>>, last: Envelope<E>, id: string)
    ensures EventsOf(log + [last], id) == EventsOf(log, id) + EventsOf([last], id)
  {
    assert (log + [last])[..|log|] == log && [last][..0] == [];
  }

  lemma SeenAfter<V, E>(update: (V, Envelope<E>) -> V, init: V, t: Trace<Envelope<E>>, note: Note<Envelope<E>>, view: V,
                        copies: map<nat, Copy<V, Envelope<E>>>, id: string, late: bool)
    requires Matches(update, init, t, view, copies) && (note.Stores? ==> note.pid in copies)
    ensures Seen(Record(t, note), id, late) == Seen(t, id, late) + Brought(note, copies, id, late)
  {
    RecordStored(update, init, t, note, view, copies);
    if late {
      var stored := Stored(t.tasks, t.schedule);
      if note.Stores? {
        EventsOfSnoc(stored, copies[note.pid].task, id);
      } else {
        assert stored + [] == stored;
      }
    } else if note.Loads? {
      EventsOfSnoc(t.tasks, note.task, id);
    }
  }

  // ----- races -----

  /** Nobody but the one process is between its load and its store. */
  ghost predicate Alone<T>(t: Trace<T>, pid: nat) {
    forall p :: p in t.current ==> p == pid
  }

  /** Whoever has loaded has loaded the latest. */
  ghost predicate Current<T>(t: Trace<T>) {
    RaceFree(t.schedule) && forall p :: p in t.current ==> NoStoreSinceLoad(t.schedule, t.current[p])
  }

  lemma RecordCurrent<T>(t: Trace<T>, note: Note<T>)
    requires Current(t) && (note.Stores? ==> Alone(t, note.pid))
    ensures Current(Record(t, note))
  {
    var t' := Record(t, note);
    if t' != t {
      assert t'.schedule[..|t.schedule|] == t.schedule;
    }
  }
}
