/**
 Concurrent dispatches into one list-all view: the shared value of `SharedViews` is the whole map, and a dispatch updates one
 entry of its copy.
 */
module ListAllSchedules {
  import opened EventSourcing
  import opened SharedViews

  /** What a list-all query does to its copy. */
  function Listing<S, E>(step: (S, E) -> S, empty: S): (map<string, S>, Envelope<E>) -> map<string, S> {
    (views: map<string, S>, e: Envelope<E>) => UpdateEntry(step, empty, views, e.aggregateId, e.payload)
  }

  lemma {:induction false} FoldIsReplay<S, E>(step: (S, E) -> S, empty: S, views: map<string, S>, log: seq<Envelope<E>>)
    ensures Replay(Listing(step, empty), views, log) == FoldAll(step, empty, views, log)
  {
    if log != [] {
      FoldIsReplay(step, empty, views, log[..|log| - 1]);
    }
  }

  /** Without races the list-all view holds exactly the ids stored, each with the replay of its own events in the order of their
      stores. */
  lemma RaceFreeLists<S, E>(step: (S, E) -> S, empty: S, tasks: seq<Envelope<E>>, schedule: seq<Access>, id: string)
    requires WellFormed(|tasks|, schedule) && RaceFree(schedule)
    ensures Follows(Play(Listing(step, empty), map[], tasks, schedule).view, step, empty, id, EventsOf(Stored(tasks, schedule), id))
  {
    var stored := Stored(tasks, schedule);
    RaceFreeAgrees(Listing(step, empty), map[], tasks, schedule);
    FoldIsReplay(step, empty, map[], stored);
    ListAllAgreesWithSingleViews(step, empty, stored, id);
    MentionedHasEvents(stored, id);
  }

  lemma {:induction false} MentionedHasEvents<E>(log: seq<Envelope<E>>, id: string)
    ensures Mentions(log, id) <==> EventsOf(log, id) != []
  {
    if log != [] {
      var front, last := log[..|log| - 1], log[|log| - 1];
      MentionedHasEvents(front, id);
      if Mentions(front, id) {
        var i :| 0 <= i < |front| && front[i].aggregateId == id;
        assert log[i].aggregateId == id;
      }
      if last.aggregateId == id {
        assert log[|log| - 1].aggregateId == id;
      }
    }
  }

  // ----- events of new aggregates: any list-all view -----

  ghost predicate NewAggregates<E>(tasks: seq<Envelope<E>>) {
    forall i, j :: 0 <= i < j < |tasks| ==> tasks[i].aggregateId != tasks[j].aggregateId
  }

  /** For events that each open a new aggregate every list-all view remembers, so each one by itself is right exactly when
      there was no race. */
  lemma NewAggregatesExactly<S(!new), E>(step: (S, E) -> S, empty: S, tasks: seq<Envelope<E>>, schedule: seq<Access>)
    requires WellFormed(|tasks|, schedule) && NewAggregates(tasks)
    ensures Play(Listing(step, empty), map[], tasks, schedule).view == FoldAll(step, empty, map[], Stored(tasks, schedule))
       <==> RaceFree(schedule)
  {
    var shows := (view: map<string, S>, i: nat) => i < |tasks| && tasks[i].aggregateId in view;
    assert Remembers(Listing(step, empty), map[], tasks, shows);
    AgreesExactlyWhenRaceFree(Listing(step, empty), map[], tasks, schedule, shows);
    FoldIsReplay(step, empty, map[], Stored(tasks, schedule));
  }

  /** The shortest lost update: both dispatches load, then both store, and the first one's event is gone. */
  lemma LostUpdate<S, E>(step: (S, E) -> S, empty: S, first: Envelope<E>, second: Envelope<E>)
    requires first.aggregateId != second.aggregateId
    ensures var schedule := [Load(0), Load(1), Store(0), Store(1)];
            && WellFormed(2, schedule) && !RaceFree(schedule)
            && first.aggregateId !in Play(Listing(step, empty), map[], [first, second], schedule).view
  {
    var s4 := [Load(0), Load(1), Store(0), Store(1)];
    var s3, s2, s1 := [Load(0), Load(1), Store(0)], [Load(0), Load(1)], [Load(0)];
    assert s4[..3] == s3 && s3[..2] == s2 && s2[..1] == s1 && s1[..0] == [];
    var update, tasks := Listing(step, empty), [first, second];
    var none: map<string, S> := map[];
    assert Play(update, none, tasks, []) == Shared(none, map[]);
    assert Play(update, none, tasks, s1) == Shared(none, map[0 := none]);
    assert Play(update, none, tasks, s2) == Shared(none, map[0 := none][1 := none]);
    assert Play(update, none, tasks, s3).held == map[0 := none][1 := none];
    assert !NoStoreSinceLoad(s3, 1);
    assert WellFormed(2, s1);
    assert WellFormed(2, s2);
    assert WellFormed(2, s3);
  }
}
