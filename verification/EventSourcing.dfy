/**
 Event sourcing as the agents use it: an aggregate is the replay of its own events, and every committed event is
 shown to read-side views kept in repositories. The code is generic over the aggregate and the view through the traits
 `Aggregate` and `View`; here the trait method `apply` or `update` is passed as the function `step`.
 */
module EventSourcing {
  import opened Wrappers

  datatype Envelope<E> = Envelope(aggregateId: string, payload: E)

  /** The state after `events`, oldest first. */
  function Replay<S, E>(step: (S, E) -> S, init: S, events: seq<E>): S {
    if events == [] then init
    else step(Replay(step, init, events[..|events| - 1]), events[|events| - 1])
  }

  lemma ReplaySnoc<S, E>(step: (S, E) -> S, init: S, events: seq<E>, event: E)
    ensures Replay(step, init, events + [event]) == step(Replay(step, init, events), event)
  {
    assert (events + [event])[..|events|] == events;
  }

  /** A replay can be cut anywhere. */
  lemma {:induction false} ReplayAppend<S, E>(step: (S, E) -> S, init: S, first: seq<E>, second: seq<E>)
    ensures Replay(step, init, first + second) == Replay(step, Replay(step, init, first), second)
  {
    if second == [] {
      assert first + second == first;
    } else {
      var both := first + second;
      assert both[..|both| - 1] == first + second[..|second| - 1];
      ReplayAppend(step, init, first, second[..|second| - 1]);
    }
  }

  /** The events of one aggregate within an interleaved log, in order. */
  function EventsOf<E>(log: seq<Envelope<E>>, id: string): seq<E> {
    if log == [] then []
    else
      var last := log[|log| - 1];
      EventsOf(log[..|log| - 1], id) + (if last.aggregateId == id then [last.payload] else [])
  }

  function EntryOr<S>(views: map<string, S>, id: string, empty: S): S {
    if id in views then views[id] else empty
  }

  /** `entry(id).or_default().update(event)` on a list-all view. */
  function UpdateEntry<S, E>(step: (S, E) -> S, empty: S, views: map<string, S>, id: string, event: E): map<string, S> {
    views[id := step(EntryOr(views, id, empty), event)]
  }

  /** A list-all view after a run of envelopes. */
  function FoldAll<S, E>(step: (S, E) -> S, empty: S, views: map<string, S>, log: seq<Envelope<E>>): map<string, S> {
    if log == [] then views
    else
      var last := log[|log| - 1];
      UpdateEntry(step, empty, FoldAll(step, empty, views, log[..|log| - 1]), last.aggregateId, last.payload)
  }

  /** A committed batch, as it is shown to the queries. */
  function Enveloped<E>(id: string, events: seq<E>): (r: seq<Envelope<E>>)
    ensures |r| == |events|
    ensures forall i :: 0 <= i < |events| ==> r[i] == Envelope(id, events[i])
  {
    seq(|events|, i requires 0 <= i < |events| => Envelope(id, events[i]))
  }

  lemma {:induction false} FoldBatch<S, E>(step: (S, E) -> S, empty: S, views: map<string, S>, id: string, events: seq<E>)
    ensures FoldAll(step, empty, views, Enveloped(id, events))
         == if events == [] then views else views[id := Replay(step, EntryOr(views, id, empty), events)]
  {
    if events != [] {
      var front, all := events[..|events| - 1], Enveloped(id, events);
      assert all[..|all| - 1] == Enveloped(id, front);
      FoldBatch(step, empty, views, id, front);
    }
  }

  /** The map holds the replay of the log under `id`, and nothing there when the log is empty. */
  ghost predicate Follows<S, E>(views: map<string, S>, step: (S, E) -> S, empty: S, id: string, log: seq<E>) {
    if log == [] then id !in views else id in views && views[id] == Replay(step, empty, log)
  }

  lemma FollowsUpdate<S, E>(views: map<string, S>, step: (S, E) -> S, empty: S, id: string, log: seq<E>, event: E)
    requires Follows(views, step, empty, id, log)
    ensures Follows(UpdateEntry(step, empty, views, id, event), step, empty, id, log + [event])
  {
    ReplaySnoc(step, empty, log, event);
  }

  lemma FollowsBatch<S, E>(views: map<string, S>, step: (S, E) -> S, empty: S, id: string, log: seq<E>, events: seq<E>)
    requires Follows(views, step, empty, id, log) && events != []
    ensures Follows(views[id := Replay(step, EntryOr(views, id, empty), events)], step, empty, id, log + events)
  {
    ReplayAppend(step, empty, log, events);
  }

  ghost predicate Mentions<E>(log: seq<Envelope<E>>, id: string) {
    exists i :: 0 <= i < |log| && log[i].aggregateId == id
  }

  /** After any interleaved log the list-all view holds exactly the ids in the log, each with the replay of its own
      events: the same value the one-aggregate view of that id has. */
  lemma {:induction false} ListAllAgreesWithSingleViews<S, E>(step: (S, E) -> S, empty: S, log: seq<Envelope<E>>, id: string)
    ensures var all := FoldAll(step, empty, map[], log);
            && (id in all <==> Mentions(log, id))
            && (id in all ==> all[id] == Replay(step, empty, EventsOf(log, id)))
            && (id !in all ==> EventsOf(log, id) == [])
  {
    if log != [] {
      var front, last := log[..|log| - 1], log[|log| - 1];
      ListAllAgreesWithSingleViews(step, empty, front, id);
      if last.aggregateId == id {
        var events := EventsOf(log, id);
        assert events[..|events| - 1] == EventsOf(front, id);
        assert log[|log| - 1].aggregateId == id;
      } else {
        assert EventsOf(log, id) == EventsOf(front, id);
        if Mentions(log, id) {
          var i :| 0 <= i < |log| && log[i].aggregateId == id;
          assert front[i].aggregateId == id;
        }
        if Mentions(front, id) {
          var i :| 0 <= i < |front| && front[i].aggregateId == id;
          assert log[i].aggregateId == id;
        }
      }
    }
  }

  /** How events are cut into committed batches makes no difference. */
  lemma {:induction false} BatchesDoNotMatter<S, E>(step: (S, E) -> S, empty: S, views: map<string, S>,
                                                    first: seq<Envelope<E>>, second: seq<Envelope<E>>)
    ensures FoldAll(step, empty, views, first + second) == FoldAll(step, empty, FoldAll(step, empty, views, first), second)
  {
    if second == [] {
      assert first + second == first;
    } else {
      var both := first + second;
      assert both[..|both| - 1] == first + second[..|second| - 1];
      BatchesDoNotMatter(step, empty, views, first, second[..|second| - 1]);
    }
  }

  /** The in-memory view repository: a mutex-guarded map from view id to the serialised view. */
  class MemRepository<V> {
    var entries: map<string, V>

    constructor ()
      ensures entries == map[]
    {
      entries := map[];
    }

    method Load(viewId: string) returns (view: Option<V>)
      ensures view == if viewId in entries then Some(entries[viewId]) else None
    {
      view := if viewId in entries then Some(entries[viewId]) else None;
    }

    method UpdateView(view: V, viewId: string)
      modifies this
      ensures entries == old(entries)[viewId := view]
    {
      entries := entries[viewId := view];
    }
  }

  /** The library's query behind every single view: one load and one store for a committed batch. */
  class GenericQuery<V, E> {
    const repository: MemRepository<V>
    const step: (V, E) -> V
    const empty: V

    constructor (repository: MemRepository<V>, step: (V, E) -> V, empty: V)
      ensures this.repository == repository && this.step == step && this.empty == empty
    {
      this.repository, this.step, this.empty := repository, step, empty;
    }

    method ApplyEvents(viewId: string, events: seq<E>)
      modifies repository
      ensures repository.entries
           == old(repository.entries)[viewId := Replay(step, EntryOr(old(repository.entries), viewId, empty), events)]
    {
      var loaded := repository.Load(viewId);
      var view := match loaded case None => empty case Some(view) => view;
      for i := 0 to |events|
        invariant repository.entries == old(repository.entries)
        invariant view == Replay(step, EntryOr(old(repository.entries), viewId, empty), events[..i])
      {
        view := step(view, events[i]);
        assert events[..i + 1][..i] == events[..i];
      }
      assert events[..|events|] == events;
      repository.UpdateView(view, viewId);
    }
  }

  /** The query behind `all_offers`, `all_credentials`, `all_received_offers` and `all_holder_credentials`: one view,
      holding a map of the single views, stored under a fixed key. */
  class ListAllQuery<V, E> {
    const repository: MemRepository<map<string, V>>
    const viewId: string
    const step: (V, E) -> V
    const empty: V

    constructor (repository: MemRepository<map<string, V>>, viewId: string, step: (V, E) -> V, empty: V)
      ensures this.repository == repository && this.viewId == viewId && this.step == step && this.empty == empty
    {
      this.repository, this.viewId, this.step, this.empty := repository, viewId, step, empty;
    }

    /** The listed views; the default (empty) view when nothing has been stored yet. */
    function Listed(): map<string, V>
      reads repository
    {
      EntryOr(repository.entries, viewId, map[])
    }

    method ApplyEvents(events: seq<Envelope<E>>)
      modifies repository
      ensures Listed() == FoldAll(step, empty, old(Listed()), events)
      ensures forall id :: id != viewId ==>
                (id in repository.entries <==> id in old(repository.entries))
                && (id in repository.entries ==> repository.entries[id] == old(repository.entries)[id])
    {
      for i := 0 to |events|
        invariant Listed() == FoldAll(step, empty, old(Listed()), events[..i])
        invariant forall id :: id != viewId ==>
                    (id in repository.entries <==> id in old(repository.entries))
                    && (id in repository.entries ==> repository.entries[id] == old(repository.entries)[id])
      {
        var loaded := repository.Load(viewId);
        var view := match loaded case None => map[] case Some(view) => view;
        view := UpdateEntry(step, empty, view, events[i].aggregateId, events[i].payload);
        repository.UpdateView(view, viewId);
        assert events[..i + 1][..i] == events[..i];
      }
      assert events[..|events|] == events;
    }
  }
}
