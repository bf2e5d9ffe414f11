/** The pointer queues over one heap of mutable messages refine one bounded FIFO of message values for
    each queue. */
module Mailboxes {
  import opened Messages
  import opened Calls
  import opened Ownership

  /** The values behind the pointers of a queue */
  function Mail(s: Sys, q: QueueId): (mail: seq<Msg>)
    ensures |mail| == |Items(s, q)|
    ensures forall i :: 0 <= i < |mail| ==> mail[i] == Deref(s.heap, Items(s, q)[i])
  {
    var items := Items(s, q);
    seq(|items|, i requires 0 <= i < |items| => Deref(s.heap, items[i]))
  }

  /** What an access does to the mailbox of q, as values */
  function MailAfter(s: Sys, a: Action, q: QueueId): seq<Msg> {
    Mail(s, q)[|TakenBy(s, a, q)|..] + AcceptedBy(s, a, q)
  }

  /** The message that an access appends to q, with its contents at that moment */
  function AcceptedBy(s: Sys, a: Action, q: QueueId): seq<Msg> {
    if a.Put? && a.q == q && q in s.queues then [Deref(s.heap, a.p)] else []
  }

  /** The message that an access takes from q, with its contents at that moment */
  function TakenBy(s: Sys, a: Action, q: QueueId): (r: seq<Msg>)
    ensures |r| <= |Mail(s, q)|
  {
    if a.Get? && a.q == q && Items(s, q) != [] then [Deref(s.heap, Items(s, q)[0])] else []
  }

  /** Writing, allocating and freeing never reach a queued message: an access by the rule changes a
      mailbox only by appending or taking a value. */
  lemma ActMail(w: World, t: Tid, a: Action, q: QueueId)
    requires Owns(w) && Legal(w.sys, Hand(w, t), a)
    ensures Mail(Act(w, t, a).sys, q) == MailAfter(w.sys, a, q)
    ensures TakenBy(w.sys, a, q) <= Mail(w.sys, q)
  {
    ActItems(w.sys, a, q);
    var v := Act(w, t, a);
    hide Items, Hand;
    forall i | 0 <= i < |Items(w.sys, q)|
      ensures Deref(v.sys.heap, Items(w.sys, q)[i]) == Deref(w.sys.heap, Items(w.sys, q)[i])
    {
      QueuedIsSafe(w, t, a, q, Items(w.sys, q)[i]);
    }
    if a.Put? {
      QueuedOnceMore(w, t, a);
    }
    assert Mail(v.sys, q) == MailAfter(w.sys, a, q);
  }

  lemma QueuedIsSafe(w: World, t: Tid, a: Action, q: QueueId, p: Ptr)
    requires Owns(w) && Legal(w.sys, Hand(w, t), a) && p in Items(w.sys, q)
    ensures Deref(Act(w, t, a).sys.heap, p) == Deref(w.sys.heap, p)
  {
    OwnsMeans(w, p, t, t, q, q);
    hide Hand, Items, Owns;
  }

  lemma QueuedOnceMore(w: World, t: Tid, a: Action)
    requires a.Put?
    ensures Act(w, t, a).sys.heap == w.sys.heap
  {
  }

  // ----- whole runs -----

  /** The accesses of all threads, in the order in which they happen */
  type Trace = seq<(Tid, Action)>

  function ActAll(w: World, trace: Trace): World
    decreases |trace|
  {
    if trace == [] then w
    else
      var n := |trace| - 1;
      Act(ActAll(w, trace[..n]), trace[n].0, trace[n].1)
  }

  /** Every access obeys the rule of ownership when it happens. */
  predicate AllLegal(w: World, trace: Trace)
    decreases |trace|
  {
    trace == [] ||
    var n := |trace| - 1;
    var before := ActAll(w, trace[..n]);
    AllLegal(w, trace[..n]) && Legal(before.sys, Hand(before, trace[n].0), trace[n].1)
  }

  /** All messages accepted for q during the run, as they were when they were sent */
  function Accepted(w: World, trace: Trace, q: QueueId): seq<Msg>
    decreases |trace|
  {
    if trace == [] then []
    else
      var n := |trace| - 1;
      Accepted(w, trace[..n], q) + AcceptedBy(ActAll(w, trace[..n]).sys, trace[n].1, q)
  }

  /** All messages taken from q during the run, as they were when they were taken */
  function Taken(w: World, trace: Trace, q: QueueId): seq<Msg>
    decreases |trace|
  {
    if trace == [] then []
    else
      var n := |trace| - 1;
      Taken(w, trace[..n], q) + TakenBy(ActAll(w, trace[..n]).sys, trace[n].1, q)
  }

  lemma {:induction false} AllOwn(w: World, trace: Trace)
    requires Owns(w) && AllLegal(w, trace)
    ensures Owns(ActAll(w, trace))
    decreases |trace|
  {
    hide Owns, Act, Legal, Hand;
    if trace != [] {
      var n := |trace| - 1;
      AllOwn(w, trace[..n]);
      ActOwns(ActAll(w, trace[..n]), trace[n].0, trace[n].1);
    }
  }

  /** Each queue delivers exactly what it accepted, in order, and with the contents of the time of
      sending: taken and still waiting together are what waited at first and what was accepted since. */
  lemma {:induction false} DeliveredAsSent(w: World, trace: Trace, q: QueueId)
    requires Owns(w) && AllLegal(w, trace)
    ensures Taken(w, trace, q) + Mail(ActAll(w, trace).sys, q) == Mail(w.sys, q) + Accepted(w, trace, q)
    decreases |trace|
  {
    hide Owns, Act, Legal, Hand, Mail, AcceptedBy, TakenBy;
    if trace != [] {
      var n := |trace| - 1;
      var before := ActAll(w, trace[..n]);
      DeliveredAsSent(w, trace[..n], q);
      AllOwn(w, trace[..n]);
      ActMail(before, trace[n].0, trace[n].1, q);
      var taken, accepted := TakenBy(before.sys, trace[n].1, q), AcceptedBy(before.sys, trace[n].1, q);
      var rest := Mail(before.sys, q)[|taken|..];
      assert Mail(before.sys, q) == taken + rest;
      Regroup(Taken(w, trace[..n], q), taken, rest, accepted, Mail(w.sys, q), Accepted(w, trace[..n], q));
    }
  }

  lemma Regroup<T>(a: seq<T>, b: seq<T>, c: seq<T>, d: seq<T>, e: seq<T>, f: seq<T>)
    requires a + (b + c) == e + f
    ensures (a + b) + (c + d) == e + (f + d)
  {
    assert (a + b) + (c + d) == (a + (b + c)) + d;
    assert e + (f + d) == (e + f) + d;
  }

  ghost predicate Bounded(s: Sys) {
    forall q :: q in s.queues ==> |s.queues[q].items| <= s.queues[q].depth
  }

  /** No queue ever holds more than its depth. */
  lemma {:induction false} AllBounded(w: World, trace: Trace)
    requires Bounded(w.sys) && AllLegal(w, trace)
    ensures Bounded(ActAll(w, trace).sys)
    decreases |trace|
  {
    if trace != [] {
      AllBounded(w, trace[..|trace| - 1]);
    }
  }
}
