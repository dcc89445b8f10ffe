/** The observer registry (`EvaluationNotifier`). Each `update` call an observer
    receives is recorded in a ghost event log; what a console or file logger then
    prints or appends is outside the model. */
module Notifier {
  import opened Wrappers

  /** A registered observer, identified by its kind and, for a file logger, its path. */
  datatype Observer = ConsoleLogger | FileLogger(filePath: string)

  /** The arguments of one `notify` call; a NaN score is `None`. */
  datatype Notification = Notification(modelName: string, metricName: string, score: Option<real>)

  /** One `update` call: which observer received which notification. */
  datatype Delivery = Delivery(observer: Observer, note: Notification)

  /** The `update` calls one `notify` makes. */
  function Fanout(obs: seq<Observer>, n: Notification): seq<Delivery> {
    if obs == [] then [] else [Delivery(obs[0], n)] + Fanout(obs[1..], n)
  }

  /** The `update` calls a sequence of `notify` calls makes, in call order. */
  function Broadcast(obs: seq<Observer>, ns: seq<Notification>): seq<Delivery> {
    if ns == [] then [] else Broadcast(obs, ns[..|ns| - 1]) + Fanout(obs, ns[|ns| - 1])
  }

  /** `notify` reaches every observer exactly once, in registration order, with the
      arguments unchanged. */
  lemma {:induction false} FanoutShape(obs: seq<Observer>, n: Notification)
    ensures |Fanout(obs, n)| == |obs|
    ensures forall i :: 0 <= i < |obs| ==> Fanout(obs, n)[i] == Delivery(obs[i], n)
  {
    if obs != [] {
      FanoutShape(obs[1..], n);
    }
  }

  lemma FanoutSnoc(obs: seq<Observer>, i: nat, n: Notification)
    requires i < |obs|
    ensures Fanout(obs[..i + 1], n) == Fanout(obs[..i], n) + [Delivery(obs[i], n)]
  {
    FanoutShape(obs[..i + 1], n);
    FanoutShape(obs[..i], n);
  }

  /** With two observers registered, one `notify` gives each of them exactly one event. */
  lemma EachObserverOnce(a: Observer, b: Observer, n: Notification)
    ensures Fanout([a, b], n) == [Delivery(a, n), Delivery(b, n)]
  {
    FanoutShape([a, b], n);
  }

  lemma {:induction false} BroadcastConcat(obs: seq<Observer>, ns1: seq<Notification>, ns2: seq<Notification>)
    ensures Broadcast(obs, ns1 + ns2) == Broadcast(obs, ns1) + Broadcast(obs, ns2)
    decreases |ns2|
  {
    if ns2 == [] {
      assert ns1 + ns2 == ns1;
    } else {
      var init := ns2[..|ns2| - 1];
      var last := ns2[|ns2| - 1];
      assert ns2 == init + [last];
      ConcatAssoc(ns1, init, [last]);
      BroadcastAppend(obs, ns1 + init, last);
      BroadcastAppend(obs, init, last);
      BroadcastConcat(obs, ns1, init);
      ConcatAssoc(Broadcast(obs, ns1), Broadcast(obs, init), Fanout(obs, last));
    }
  }

  lemma ConcatAssoc<T>(a: seq<T>, b: seq<T>, c: seq<T>)
    ensures a + (b + c) == (a + b) + c
  {
  }

  lemma BroadcastAppend(obs: seq<Observer>, ns: seq<Notification>, n: Notification)
    ensures Broadcast(obs, ns + [n]) == Broadcast(obs, ns) + Fanout(obs, n)
  {
    assert (ns + [n])[..|ns|] == ns;
  }

  lemma BroadcastSingle(obs: seq<Observer>, n: Notification)
    ensures Broadcast(obs, [n]) == Fanout(obs, n)
  {
    assert [n][..0] == [];
  }

  lemma IndexBound(k: nat, i: nat, m: nat, c: nat)
    requires k < c && i < m
    ensures k * m + i < c * m
  {
    assert (k + 1) * m <= c * m;
  }

  lemma MulSucc(c: nat, m: nat)
    ensures c * m + m == (c + 1) * m
  {
  }

  /** A run of `notify` calls makes one `update` call per (notification, observer) pair. */
  lemma {:induction false} BroadcastLength(obs: seq<Observer>, ns: seq<Notification>)
    ensures |Broadcast(obs, ns)| == |ns| * |obs|
  {
    if ns != [] {
      BroadcastLength(obs, ns[..|ns| - 1]);
      FanoutShape(obs, ns[|ns| - 1]);
      MulSucc(|ns| - 1, |obs|);
    }
  }

  /** The calls come notification by notification, each block in registration order:
      the `i`-th observer's event for the `k`-th notification sits at `k * |obs| + i`. */
  lemma {:induction false} BroadcastAt(obs: seq<Observer>, ns: seq<Notification>, k: nat, i: nat)
    requires k < |ns| && i < |obs|
    ensures k * |obs| + i < |Broadcast(obs, ns)|
    ensures Broadcast(obs, ns)[k * |obs| + i] == Delivery(obs[i], ns[k])
  {
    var m := |obs|;
    var init := ns[..|ns| - 1];
    var last := |ns| - 1;
    BroadcastLength(obs, init);
    BroadcastLength(obs, ns);
    FanoutShape(obs, ns[last]);
    MulSucc(last, m);
    IndexBound(k, i, m, |ns|);
    var j := k * m + i;
    if k < last {
      IndexBound(k, i, m, last);
      BroadcastAt(obs, init, k, i);
      assert ns[k] == init[k];
    } else {
      assert j == |init| * m + i;
    }
  }

  /** The notifier: an ordered observer list and the log of the `update` calls made. */
  class EvaluationNotifier {
    var observers: seq<Observer>
    ghost var events: seq<Delivery>

    /** A new notifier has no observers and has made no calls. */
    constructor()
      ensures observers == [] && events == []
    {
      observers := [];
      events := [];
    }

    /** Registers `observer` at the end, keeping the others and their order;
        an observer added twice is notified twice. */
    method AddObserver(observer: Observer)
      modifies this
      ensures observers == old(observers) + [observer]
      ensures events == old(events)
    {
      observers := observers + [observer];
    }

    /** Calls `update` once on each observer, in registration order. */
    method Notify(modelName: string, metricName: string, score: Option<real>)
      modifies this
      ensures observers == old(observers)
      ensures events == old(events) + Fanout(observers, Notification(modelName, metricName, score))
    {
      var note := Notification(modelName, metricName, score);
      var i := 0;
      while i < |observers|
        invariant 0 <= i <= |observers|
        invariant observers == old(observers)
        invariant events == old(events) + Fanout(observers[..i], note)
      {
        FanoutSnoc(observers, i, note);
        events := events + [Delivery(observers[i], note)];
        i := i + 1;
      }
      assert observers[..i] == observers;
    }
  }
}
