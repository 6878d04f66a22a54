/**
 * InMemoryMatchQueue: the FIFO of queued match requests and the observers that
 * are told about every enqueue. An observer is known by its identity; the
 * callbacks it receives are recorded in `notified` rather than run.
 */
module MatchQueue {
  import opened Wrappers
  import opened Models
  import opened Ordering

  /** The identity of an `IMatchQueueObserver`. */
  type Observer = nat

  /** One `OnMatchEnqueued` call, and how many requests were queued when it was made. */
  datatype Notification = Notification(observer: Observer, queued: nat)

  /** The calls `NotifyObservers` makes, one per observer, in list order. */
  function Announce(observers: seq<Observer>, queued: nat): (r: seq<Notification>)
    ensures |r| == |observers|
    ensures forall i :: 0 <= i < |observers| ==> r[i] == Notification(observers[i], queued)
  {
    if observers == [] then []
    else Announce(observers[..|observers| - 1], queued) + [Notification(observers[|observers| - 1], queued)]
  }

  /** With no observer listed twice, every listed observer is called exactly once and no other is called. */
  lemma {:induction false} AnnounceCallsEachOnce(observers: seq<Observer>, queued: nat, o: Observer)
    requires Distinct(observers)
    ensures multiset(Announce(observers, queued))[Notification(o, queued)] == if o in observers then 1 else 0
    decreases |observers|
  {
    if observers != [] {
      var init := observers[..|observers| - 1];
      assert observers == init + [observers[|observers| - 1]];
      AnnounceCallsEachOnce(init, queued, o);
      assert multiset(Announce(observers, queued))
        == multiset(Announce(init, queued)) + multiset{Notification(observers[|observers| - 1], queued)};
    }
  }

  /** `List.Remove`: drop the first occurrence of `x`, if any. */
  function RemoveFirst(s: seq<Observer>, x: Observer): (r: seq<Observer>)
    ensures x !in s ==> r == s
    ensures x in s ==> |r| == |s| - 1
    ensures forall y :: y in r ==> y in s
    ensures forall y :: y in s && y != x ==> y in r
  {
    if s == [] then []
    else if s[0] == x then s[1..]
    else [s[0]] + RemoveFirst(s[1..], x)
  }

  /** On a list without repeats, removing `x` removes it altogether and keeps the list free of repeats. */
  lemma {:induction false} RemoveFirstOfDistinct(s: seq<Observer>, x: Observer)
    requires Distinct(s)
    ensures x !in RemoveFirst(s, x)
    ensures Distinct(RemoveFirst(s, x))
    decreases |s|
  {
    if s != [] {
      assert Distinct(s[1..]) by {
        forall i, j | 0 <= i < j < |s[1..]| ensures s[1..][i] != s[1..][j] {
          assert s[1..][i] == s[i + 1] && s[1..][j] == s[j + 1];
        }
      }
      if s[0] == x {
        assert forall i :: 0 <= i < |s[1..]| ==> s[1..][i] == s[i + 1] && s[i + 1] != s[0];
      } else {
        RemoveFirstOfDistinct(s[1..], x);
        var r := RemoveFirst(s, x);
        assert r == [s[0]] + RemoveFirst(s[1..], x);
        assert s[0] !in s[1..] by {
          forall i | 0 <= i < |s[1..]| ensures s[1..][i] != s[0] {
            assert s[1..][i] == s[i + 1];
          }
        }
        forall i, j | 0 <= i < j < |r| ensures r[i] != r[j] {
          if i == 0 {
            assert r[j] in RemoveFirst(s[1..], x);
          } else {
            assert r[i] == RemoveFirst(s[1..], x)[i - 1] && r[j] == RemoveFirst(s[1..], x)[j - 1];
          }
        }
      }
    }
  }

  /** Removing twice is removing once, on a list without repeats. */
  lemma RemoveFirstTwice(s: seq<Observer>, x: Observer)
    requires Distinct(s)
    ensures RemoveFirst(RemoveFirst(s, x), x) == RemoveFirst(s, x)
  {
    RemoveFirstOfDistinct(s, x);
  }

  class InMemoryMatchQueue {
    var queue: seq<Option<MakeMatch>>   // `_queue`; a null request can be queued
    var observers: seq<Observer>        // `_observers`
    var notified: seq<Notification>     // every `OnMatchEnqueued` call made so far

    ghost predicate Valid()
      reads this
    {
      Distinct(observers)
    }

    constructor ()
      ensures Valid() && queue == [] && observers == [] && notified == []
    {
      queue := [];
      observers := [];
      notified := [];
    }

    /** `Enqueue`: append at the tail, then tell every observer. */
    method Enqueue(request: Option<MakeMatch>)
      requires Valid()
      modifies this
      ensures Valid()
      ensures queue == old(queue) + [request] && observers == old(observers)
      ensures notified == old(notified) + Announce(observers, |queue|)
    {
      queue := queue + [request];
      NotifyObservers();
    }

    /** `NotifyObservers`: one call per listed observer, made with the request already queued. */
    method NotifyObservers()
      modifies this
      ensures queue == old(queue) && observers == old(observers)
      ensures notified == old(notified) + Announce(observers, |queue|)
    {
      for i := 0 to |observers|
        invariant queue == old(queue) && observers == old(observers)
        invariant notified == old(notified) + Announce(observers[..i], |queue|)
      {
        assert observers[..i + 1][..i] == observers[..i];
        notified := notified + [Notification(observers[i], |queue|)];
      }
      assert observers[..|observers|] == observers;
    }

    /** `Dequeue`: the head, removed, or null when the queue is empty; no observer is called. */
    method Dequeue() returns (r: Option<MakeMatch>)
      modifies this
      ensures old(queue) == [] ==> r == None && queue == []
      ensures old(queue) != [] ==> r == old(queue)[0] && queue == old(queue)[1..]
      ensures observers == old(observers) && notified == old(notified)
    {
      if queue == [] {
        return None;
      }
      r := queue[0];
      queue := queue[1..];
    }

    /** `Subscribe`: list the observer unless it already is, and hand back its unsubscriber. */
    method Subscribe(observer: Observer) returns (handle: ObservableUnsubscriber)
      requires Valid()
      modifies this
      ensures Valid()
      ensures observers == if observer in old(observers) then old(observers) else old(observers) + [observer]
      ensures queue == old(queue) && notified == old(notified)
      ensures fresh(handle) && handle.observed == this && handle.observer == observer
    {
      if observer !in observers {
        observers := observers + [observer];
      }
      handle := new ObservableUnsubscriber(this, observer);
    }

    /** `Unsubscribe`: `List.Remove` of the observer. */
    method Unsubscribe(observer: Observer)
      requires Valid()
      modifies this
      ensures Valid()
      ensures observers == RemoveFirst(old(observers), observer) && observer !in observers
      ensures queue == old(queue) && notified == old(notified)
    {
      RemoveFirstOfDistinct(observers, observer);
      observers := RemoveFirst(observers, observer);
    }
  }

  class ObservableUnsubscriber {
    const observed: InMemoryMatchQueue?
    const observer: Observer

    constructor (observed: InMemoryMatchQueue?, observer: Observer)
      ensures this.observed == observed && this.observer == observer
    {
      this.observed := observed;
      this.observer := observer;
    }

    /** `Dispose`: unsubscribe from the queue, when there is one. */
    method Dispose()
      requires observed != null ==> observed.Valid()
      modifies if observed != null then {observed} else {}
      ensures observed != null ==> observed.Valid()
      ensures observed != null ==>
        && observed.observers == RemoveFirst(old(observed.observers), observer)
        && observer !in observed.observers
        && observed.queue == old(observed.queue) && observed.notified == old(observed.notified)
    {
      if observed != null {
        observed.Unsubscribe(observer);
      }
    }
  }

  /** Two requests come out in the order they went in, and then the empty queue yields null. */
  method FirstInFirstOut(a: MakeMatch, b: MakeMatch) returns (first: Option<MakeMatch>, second: Option<MakeMatch>, third: Option<MakeMatch>)
    ensures first == Some(a) && second == Some(b) && third == None
  {
    var q := new InMemoryMatchQueue();
    q.Enqueue(Some(a));
    q.Enqueue(Some(b));
    first := q.Dequeue();
    second := q.Dequeue();
    third := q.Dequeue();
  }

  /** A queued null comes out as null, like an empty queue. */
  method QueuedNullLooksEmpty() returns (queued: Option<MakeMatch>, empty: Option<MakeMatch>)
    ensures queued == empty == None
  {
    var q := new InMemoryMatchQueue();
    q.Enqueue(None);
    queued := q.Dequeue();
    empty := q.Dequeue();
  }

  /**
   * Subscribing twice lists the observer once; one enqueue then calls it once;
   * disposing the handle twice unsubscribes it and disposes a second time in vain.
   */
  method SubscribeEnqueueDispose(o: Observer, request: MakeMatch) returns (calls: seq<Notification>, left: seq<Observer>)
    ensures calls == [Notification(o, 1)]
    ensures left == []
  {
    var q := new InMemoryMatchQueue();
    var h1 := q.Subscribe(o);
    var h2 := q.Subscribe(o);
    assert q.observers == [o];
    q.Enqueue(Some(request));
    calls := q.notified;
    h1.Dispose();
    h1.Dispose();
    left := q.observers;
  }
}
