/** Who owns which buffer, and what that buys: the pointer queues over one shared heap behave as
    mailboxes of message values. */
module Ownership {
  import opened Messages
  import opened Calls

  type Tid = nat

  /** The shared system, and the set of buffers in hand for every thread and interrupt handler */
  datatype World = World(sys: Sys, hands: map<Tid, set<Ptr>>)

  function Hand(w: World, t: Tid): set<Ptr> {
    if t in w.hands then w.hands[t] else {}
  }

  function Items(s: Sys, q: QueueId): seq<Ptr> {
    if q in s.queues then s.queues[q].items else []
  }

  ghost predicate NoDuplicates(items: seq<Ptr>) {
    forall i, j :: 0 <= i < j < |items| ==> items[i] != items[j]
  }

  datatype Owner = InHand(t: Tid) | InQueue(q: QueueId)

  ghost predicate HandIs(w: World, owner: map<Ptr, Owner>, t: Tid, p: Ptr) {
    p in Hand(w, t) <==> p in owner && owner[p] == InHand(t)
  }

  ghost predicate QueueIs(w: World, owner: map<Ptr, Owner>, q: QueueId, p: Ptr) {
    p in Items(w.sys, q) <==> p in owner && owner[p] == InQueue(q)
  }

  /** owner assigns to every live buffer, and to no other, the one hand or queue that it is in. */
  ghost predicate Assigns(w: World, owner: map<Ptr, Owner>) {
    && owner.Keys == w.sys.heap.Keys
    && (forall t, p :: HandIs(w, owner, t, p))
    && (forall q, p :: QueueIs(w, owner, q, p))
    && (forall q :: NoDuplicates(Items(w.sys, q)))
  }

  ghost predicate Owns(w: World) {
    exists owner :: Assigns(w, owner)
  }

  /** Spelled out for one buffer and two places: a buffer is live exactly when it is in some hand or
      queue, never in two of them, and never twice in one queue. */
  lemma OwnsMeans(w: World, p: Ptr, t: Tid, u: Tid, q: QueueId, r: QueueId)
    requires Owns(w)
    ensures p in w.sys.heap <==> (exists t' :: p in Hand(w, t')) || (exists q' :: p in Items(w.sys, q'))
    ensures p in Hand(w, t) && p in Hand(w, u) ==> t == u
    ensures p in Items(w.sys, q) && p in Items(w.sys, r) ==> q == r
    ensures p in Hand(w, t) ==> p !in Items(w.sys, q)
    ensures NoDuplicates(Items(w.sys, q))
  {
    hide Hand, Items, NoDuplicates;
    var owner :| Assigns(w, owner);
    assert HandIs(w, owner, t, p) && HandIs(w, owner, u, p);
    assert QueueIs(w, owner, q, p) && QueueIs(w, owner, r, p);
    forall t' ensures p in Hand(w, t') ==> p in w.sys.heap {
      assert HandIs(w, owner, t', p);
    }
    forall q' ensures p in Items(w.sys, q') ==> p in w.sys.heap {
      assert QueueIs(w, owner, q', p);
    }
    if p in w.sys.heap {
      match owner[p]
      case InHand(t') => assert HandIs(w, owner, t', p);
      case InQueue(q') => assert QueueIs(w, owner, q', p);
    }
  }

  /** Thread t performs an access. */
  function Act(w: World, t: Tid, a: Action): World {
    World(Do(w.sys, a), w.hands[t := HandAfter(w.sys, Hand(w, t), a)])
  }

  lemma ActHands(w: World, t: Tid, a: Action, u: Tid)
    ensures Hand(Act(w, t, a), u) == if u == t then HandAfter(w.sys, Hand(w, t), a) else Hand(w, u)
  {
  }

  lemma ActItems(s: Sys, a: Action, q: QueueId)
    ensures Items(Do(s, a), q)
         == if a.Put? && a.q == q && q in s.queues then Items(s, q) + [a.p]
            else if a.Get? && a.q == q && Items(s, q) != [] then Items(s, q)[1..]
            else Items(s, q)
  {
  }

  /** Who owns what after an access */
  function OwnerAfter(s: Sys, owner: map<Ptr, Owner>, t: Tid, a: Action): map<Ptr, Owner> {
    match a
    case Alloc(p, _) => owner[p := InHand(t)]
    case Free(p) => owner - {p}
    case Put(p, q) => owner[p := InQueue(q)]
    case Get(q) => if Items(s, q) == [] then owner else owner[Items(s, q)[0] := InHand(t)]
    case _ => owner
  }

  lemma HandsAssigned(w: World, owner: map<Ptr, Owner>, t: Tid, a: Action, u: Tid, p: Ptr)
    requires Assigns(w, owner) && Legal(w.sys, Hand(w, t), a)
    ensures HandIs(Act(w, t, a), OwnerAfter(w.sys, owner, t, a), u, p)
  {
    ActHands(w, t, a, u);
    hide Act, Hand, NoDuplicates;
    assert HandIs(w, owner, u, p);
    match a
    case Alloc(p', _) => assert HandIs(w, owner, t, p');
    case Free(p') => assert HandIs(w, owner, t, p');
    case Put(p', _) => assert HandIs(w, owner, t, p');
    case Get(q) => assert QueueIs(w, owner, q, Items(w.sys, q)[0]);
    case _ =>
  }

  lemma QueuesAssigned(w: World, owner: map<Ptr, Owner>, t: Tid, a: Action, q: QueueId, p: Ptr)
    requires Assigns(w, owner) && Legal(w.sys, Hand(w, t), a)
    ensures QueueIs(Act(w, t, a), OwnerAfter(w.sys, owner, t, a), q, p)
  {
    ActItems(w.sys, a, q);
    assert QueueIs(w, owner, q, p);
    match a
    case Put(p', _) =>
      assert HandIs(w, owner, t, p');
    case Free(p') =>
      assert HandIs(w, owner, t, p');
    case Alloc(p', _) =>
    case Get(q') =>
      var items := Items(w.sys, q');
      assert QueueIs(w, owner, q', items[0]);
      HeadIsElsewhere(items);
    case _ =>
  }

  lemma HeadIsElsewhere(items: seq<Ptr>)
    requires items != [] && NoDuplicates(items)
    ensures items[0] !in items[1..]
    ensures forall p :: p in items <==> p == items[0] || p in items[1..]
  {
    assert items == [items[0]] + items[1..];
  }

  lemma NoneTwice(w: World, owner: map<Ptr, Owner>, t: Tid, a: Action, q: QueueId)
    requires Assigns(w, owner) && Legal(w.sys, Hand(w, t), a)
    ensures NoDuplicates(Items(Act(w, t, a).sys, q))
  {
    ActItems(w.sys, a, q);
    hide Hand, Do, Items;
    assert NoDuplicates(Items(w.sys, q));
    if a.Put? {
      assert HandIs(w, owner, t, a.p) && QueueIs(w, owner, q, a.p);
    }
  }

  lemma KeysAssigned(w: World, owner: map<Ptr, Owner>, t: Tid, a: Action)
    requires Assigns(w, owner) && Legal(w.sys, Hand(w, t), a)
    ensures OwnerAfter(w.sys, owner, t, a).Keys == Act(w, t, a).sys.heap.Keys
  {
    hide Hand, NoDuplicates, HandAfter;
    match a
    case Put(p, q) => assert HandIs(w, owner, t, p);
    case Get(q) => assert QueueIs(w, owner, q, Items(w.sys, q)[0]);
    case Write(p, _) => assert HandIs(w, owner, t, p);
    case _ =>
  }

  /** Playing by the rule keeps the books: nothing leaks, nothing is freed twice, nothing has two owners. */
  lemma ActOwns(w: World, t: Tid, a: Action)
    requires Owns(w) && Legal(w.sys, Hand(w, t), a)
    ensures Owns(Act(w, t, a))
  {
    var owner :| Assigns(w, owner);
    var owner', v := OwnerAfter(w.sys, owner, t, a), Act(w, t, a);
    KeysAssigned(w, owner, t, a);
    hide *;
    forall u, p ensures HandIs(v, owner', u, p) {
      HandsAssigned(w, owner, t, a, u, p);
    }
    forall q, p ensures QueueIs(v, owner', q, p) {
      QueuesAssigned(w, owner, t, a, q, p);
    }
    forall q ensures NoDuplicates(Items(v.sys, q)) {
      NoneTwice(w, owner, t, a, q);
    }
    AssignsOwns(v, owner');
  }

  lemma AssignsOwns(w: World, owner: map<Ptr, Owner>)
    requires owner.Keys == w.sys.heap.Keys
    requires forall t, p :: HandIs(w, owner, t, p)
    requires forall q, p :: QueueIs(w, owner, q, p)
    requires forall q :: NoDuplicates(Items(w.sys, q))
    ensures Owns(w)
  {
    hide HandIs, QueueIs, NoDuplicates, Items;
    assert Assigns(w, owner);
  }
}
