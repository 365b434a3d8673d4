/**
 The events of one log on their way into a view: each is at one position of the log, is under way from its commit on, and is
 stored once. However dispatches interleave, the events stored and those under way are together just the log; the order of the
 stores is some order of it, and the order of the log itself when each store waits for the dispatches before it.
 */
module StoreOrders {
  import opened EventSourcing

  /** An event and its position in the log. */
  datatype Placed<E> = Placed(event: E, position: nat)

  function Events<E>(order: seq<Placed<E>>): (r: seq<E>)
    ensures |r| == |order| && forall i :: 0 <= i < |order| ==> r[i] == order[i].event
  {
    seq(|order|, i requires 0 <= i < |order| => order[i].event)
  }

  ghost predicate At<E>(log: seq<E>, p: Placed<E>) {
    p.position < |log| && log[p.position] == p.event
  }

  ghost predicate StoredAt<E>(order: seq<Placed<E>>, n: nat) {
    exists i :: 0 <= i < |order| && order[i].position == n
  }

  ghost predicate HeldAt<E>(holders: map<nat, Placed<E>>, n: nat) {
    exists p :: p in holders && holders[p].position == n
  }

  /** What is stored or under way is in the log, ... */
  ghost predicate Sound<E>(log: seq<E>, order: seq<Placed<E>>, holders: map<nat, Placed<E>>) {
    && (forall i :: 0 <= i < |order| ==> At(log, order[i]))
    && (forall p :: p in holders ==> At(log, holders[p]))
  }

  /** ... once, ... */
  ghost predicate Apart<E>(order: seq<Placed<E>>, holders: map<nat, Placed<E>>) {
    && (forall i, j :: 0 <= i < j < |order| ==> order[i].position != order[j].position)
    && (forall p, q :: p in holders && q in holders && p != q ==> holders[p].position != holders[q].position)
    && (forall i, p :: 0 <= i < |order| && p in holders ==> order[i].position != holders[p].position)
  }

  /** ... and nothing of the log is missing. */
  ghost predicate Covers<E>(log: seq<E>, order: seq<Placed<E>>, holders: map<nat, Placed<E>>) {
    forall n: nat :: n < |log| ==> StoredAt(order, n) || HeldAt(holders, n)
  }

  /** Stored or under way, never both, never twice, and nothing else. */
  ghost predicate Accounted<E>(log: seq<E>, order: seq<Placed<E>>, holders: map<nat, Placed<E>>) {
    Sound(log, order, holders) && Apart(order, holders) && Covers(log, order, holders) && |order| + |holders| == |log|
  }

  lemma CommitCovers<E>(log: seq<E>, order: seq<Placed<E>>, holders: map<nat, Placed<E>>, pid: nat, event: E)
    requires Covers(log, order, holders) && pid !in holders
    ensures Covers(log + [event], order, holders[pid := Placed(event, |log|)])
  {
    var holders' := holders[pid := Placed(event, |log|)];
    forall n: nat | n < |log + [event]| ensures StoredAt(order, n) || HeldAt(holders', n) {
      if n == |log| {
        assert holders'[pid].position == n;
      } else if HeldAt(holders, n) {
        var p :| p in holders && holders[p].position == n;
        assert holders'[p].position == n;
      }
    }
  }

  lemma SizeWith<V>(holders: map<nat, V>, pid: nat, value: V)
    requires pid !in holders
    ensures |holders[pid := value]| == |holders| + 1
  {
    assert holders[pid := value].Keys == holders.Keys + {pid};
    assert |holders[pid := value].Keys| == |holders[pid := value]| && |holders.Keys| == |holders|;
  }

  lemma CommitSound<E>(log: seq<E>, order: seq<Placed<E>>, holders: map<nat, Placed<E>>, pid: nat, event: E)
    requires Sound(log, order, holders) && Apart(order, holders)
    ensures Sound(log + [event], order, holders[pid := Placed(event, |log|)])
    ensures Apart(order, holders[pid := Placed(event, |log|)])
  {
  }

  lemma Commits<E>(log: seq<E>, order: seq<Placed<E>>, holders: map<nat, Placed<E>>, pid: nat, event: E)
    requires Accounted(log, order, holders) && pid !in holders
    ensures Accounted(log + [event], order, holders[pid := Placed(event, |log|)])
  {
    CommitSound(log, order, holders, pid, event);
    CommitCovers(log, order, holders, pid, event);
    SizeWith(holders, pid, Placed(event, |log|));
  }

  lemma DeliverCovers<E>(log: seq<E>, order: seq<Placed<E>>, holders: map<nat, Placed<E>>, pid: nat)
    requires Covers(log, order, holders) && pid in holders
    ensures Covers(log, order + [holders[pid]], holders - {pid})
  {
    var order', holders' := order + [holders[pid]], holders - {pid};
    forall n: nat | n < |log| ensures StoredAt(order', n) || HeldAt(holders', n) {
      if StoredAt(order, n) {
        var i :| 0 <= i < |order| && order[i].position == n;
        assert order'[i].position == n;
      } else {
        var p :| p in holders && holders[p].position == n;
        if p == pid {
          assert order'[|order|].position == n;
        } else {
          assert holders'[p].position == n;
        }
      }
    }
  }

  lemma DeliverSound<E>(log: seq<E>, order: seq<Placed<E>>, holders: map<nat, Placed<E>>, pid: nat)
    requires Sound(log, order, holders) && Apart(order, holders) && pid in holders
    ensures Sound(log, order + [holders[pid]], holders - {pid}) && Apart(order + [holders[pid]], holders - {pid})
  {
  }

  lemma Delivers<E>(log: seq<E>, order: seq<Placed<E>>, holders: map<nat, Placed<E>>, pid: nat)
    requires Accounted(log, order, holders) && pid in holders
    ensures Accounted(log, order + [holders[pid]], holders - {pid})
  {
    DeliverSound(log, order, holders, pid);
    DeliverCovers(log, order, holders, pid);
    SizeWith(holders - {pid}, pid, holders[pid]);
    assert (holders - {pid})[pid := holders[pid]] == holders;
  }

  /** Stored in the order of the log. */
  ghost predicate InLogOrder<E>(order: seq<Placed<E>>) {
    forall i :: 0 <= i < |order| ==> order[i].position == i
  }

  /** Whoever is the only one under way holds the next event, so its store keeps the order. */
  lemma OnlyOneIsNext<E>(log: seq<E>, order: seq<Placed<E>>, holders: map<nat, Placed<E>>, pid: nat)
    requires Accounted(log, order, holders) && InLogOrder(order) && holders.Keys == {pid}
    ensures InLogOrder(order + [holders[pid]])
  {
    assert |holders| == |holders.Keys| == 1;
    var n := holders[pid].position;
    assert !StoredAt(order, n);
    forall k: nat | k < |order| ensures StoredAt(order, k) {
      assert order[k].position == k;
    }
  }

  lemma InOrderIsLog<E>(log: seq<E>, order: seq<Placed<E>>, holders: map<nat, Placed<E>>)
    requires Accounted(log, order, holders) && holders == map[]
    ensures InLogOrder(order) ==> Events(order) == log
    ensures |order| == |log|
  {
  }

  // ----- an order of the log loses nothing and adds nothing -----

  /** Every position below `n`, each once. */
  ghost predicate Fills<E>(log: seq<E>, order: seq<Placed<E>>, n: nat) {
    && |order| == n <= |log|
    && (forall i :: 0 <= i < |order| ==> At(log, order[i]))
    && (forall i, j :: 0 <= i < j < |order| ==> order[i].position != order[j].position)
    && (forall k: nat :: StoredAt(order, k) <==> k < n)
  }

  lemma FillsWithout<E>(log: seq<E>, order: seq<Placed<E>>, n: nat, i: nat)
    requires Fills(log, order, n) && i < |order| && order[i].position == n - 1
    ensures Fills(log, order[..i] + order[i + 1..], n - 1)
  {
    var rest := order[..i] + order[i + 1..];
    assert forall j :: 0 <= j < |rest| ==> rest[j] == order[if j < i then j else j + 1];
    forall k: nat | StoredAt(rest, k) ensures k < n - 1 {
      var j :| 0 <= j < |rest| && rest[j].position == k;
      assert order[if j < i then j else j + 1].position == k;
      assert StoredAt(order, k);
    }
    forall k: nat | k < n - 1 ensures StoredAt(rest, k) {
      assert StoredAt(order, k);
      var j :| 0 <= j < |order| && order[j].position == k;
      assert rest[if j < i then j else j - 1].position == k;
    }
  }

  lemma EventsWithout<E>(order: seq<Placed<E>>, i: nat)
    requires i < |order|
    ensures multiset(Events(order)) == multiset(Events(order[..i] + order[i + 1..])) + multiset{order[i].event}
  {
    assert Events(order) == Events(order[..i]) + [order[i].event] + Events(order[i + 1..]);
    assert Events(order[..i] + order[i + 1..]) == Events(order[..i]) + Events(order[i + 1..]);
  }

  lemma {:induction false} SamePositions<E>(log: seq<E>, order: seq<Placed<E>>, n: nat)
    requires Fills(log, order, n)
    ensures multiset(Events(order)) == multiset(log[..n])
  {
    if n == 0 {
      assert Events(order) == [] == log[..0];
    } else {
      var i := HoldsLast(log, order, n);
      FillsWithout(log, order, n, i);
      SamePositions(log, order[..i] + order[i + 1..], n - 1);
      EventsWithout(order, i);
      assert log[..n] == log[..n - 1] + [order[i].event];
    }
  }

  lemma HoldsLast<E>(log: seq<E>, order: seq<Placed<E>>, n: nat) returns (i: nat)
    requires Fills(log, order, n) && n > 0
    ensures i < |order| && order[i] == Placed(log[n - 1], n - 1)
  {
    assert StoredAt(order, n - 1);
    i :| 0 <= i < |order| && order[i].position == n - 1;
    assert At(log, order[i]);
  }

  /** Conservation: once nothing is under way, exactly the events of the log have been stored, each as often as it is there. */
  lemma AllStored<E>(log: seq<E>, order: seq<Placed<E>>, holders: map<nat, Placed<E>>)
    requires Accounted(log, order, holders) && holders == map[]
    ensures multiset(Events(order)) == multiset(log)
  {
    forall k: nat ensures StoredAt(order, k) <==> k < |log| {
      assert StoredAt(order, k) || HeldAt(holders, k) || k >= |log|;
      assert !HeldAt(holders, k);
    }
    SamePositions(log, order, |log|);
    assert log[..|log|] == log;
  }
}
