/** To whom every message goes, and when it is held back. */
module RelayDelivery {
  import opened Common
  import opened OrderedMap
  import opened Shuffle
  import opened Relay
  import opened RelayTiming

  /**
   * Connection c is one an item is for: the joiner whose backlog it is; or a member of the group; or the one connection
   * registered under the recipient's address.
   */
  predicate For(s: State, it: Item, c: Client) {
    c in s.alive &&
    match it.directTo
    case Some(joiner) => c == joiner
    case None =>
      if it.msg.group then it.recipient in s.groups && c in s.groups[it.recipient]
      else it.recipient in s.online && s.online[it.recipient] == c
  }

  /** The delivery records what was delivered, when, and to exactly the connections it was for. */
  ghost predicate Reaches(s: State, it: Item, d: Delivery) {
    && d.recipient == it.recipient && d.msg == it.msg && d.at == s.now && d.to != {}
    && (forall c :: c in d.to <==> For(s, it, c))
  }

  /** The item is young enough, and some connection it is for is live. */
  ghost predicate Deliverable(s: State, it: Item) {
    s.now - it.ts <= s.cfg.ttl && exists c :: For(s, it, c)
  }

  /** The deliveries ds are those of the deliverable items, in their order, and of no other. */
  ghost predicate Serves(s: State, items: seq<Item>, ds: seq<Delivery>)
    decreases |items|
  {
    if items == [] then ds == []
    else if Deliverable(s, items[0]) then ds != [] && Reaches(s, items[0], ds[0]) && Serves(s, items[1..], ds[1..])
    else Serves(s, items[1..], ds)
  }

  /** The deliveries a step added. */
  function NewDeliveries(s: State, t: State): seq<Delivery>
    requires |s.delivered| <= |t.delivered|
  {
    t.delivered[|s.delivered|..]
  }

  ghost predicate Appends(s: State, t: State) {
    |s.delivered| <= |t.delivered| && t.delivered[..|s.delivered|] == s.delivered
  }

  lemma WayIs(s: State, it: Item)
    ensures forall c :: c in Way(s, it) <==> For(s, it, c)
    ensures Way(s, it) != {} <==> exists c :: For(s, it, c)
  {
    if Way(s, it) != {} {
      var c :| c in Way(s, it);
      assert For(s, it, c);
    }
  }

  lemma DeliverServes(s: State, it: Item)
    ensures var t := Deliver(s, it);
      Appends(s, t) && Serves(s, [it], NewDeliveries(s, t)) && OnlyMoved(s, t)
    ensures Deliver(s, it).pool == s.pool && Deliver(s, it).jittered == s.jittered && Deliver(s, it).timer == s.timer
  {
    WayIs(s, it);
    hide Way, For, Set, Box;
    var t := Deliver(s, it);
    assert [it][1..] == [];
    if Deliverable(s, it) {
      var d := Delivery(it.recipient, it.msg, s.now, Way(s, it));
      assert NewDeliveries(s, t) == [d] && [d][1..] == [];
    } else {
      assert NewDeliveries(s, t) == [];
    }
  }

  lemma {:induction false} ServesConcat(s: State, a: seq<Item>, b: seq<Item>, ds: seq<Delivery>, es: seq<Delivery>)
    requires Serves(s, a, ds) && Serves(s, b, es)
    ensures Serves(s, a + b, ds + es)
    decreases |a|
  {
    if a == [] {
      assert a + b == b && ds + es == es;
    } else {
      assert (a + b)[1..] == a[1..] + b;
      if Deliverable(s, a[0]) {
        assert (ds + es)[1..] == ds[1..] + es;
        ServesConcat(s, a[1..], b, ds[1..], es);
      } else {
        ServesConcat(s, a[1..], b, ds, es);
      }
    }
  }

  /** Who an item is for depends on the connections and the clock alone. */
  lemma {:induction false} ServesFrame(s: State, t: State, items: seq<Item>, ds: seq<Delivery>)
    requires OnlyMoved(s, t)
    ensures Serves(s, items, ds) == Serves(t, items, ds)
    decreases |items|, |ds|
  {
    if items != [] {
      ForFrame(s, t, items[0]);
      hide For;
      ServesFrame(s, t, items[1..], ds);
      if ds != [] {
        ServesFrame(s, t, items[1..], ds[1..]);
        assert Reaches(s, items[0], ds[0]) == Reaches(t, items[0], ds[0]);
      }
      assert Deliverable(s, items[0]) == Deliverable(t, items[0]);
    }
  }

  lemma ForFrame(s: State, t: State, it: Item)
    requires OnlyMoved(s, t)
    ensures forall c :: For(s, it, c) == For(t, it, c)
  {
  }

  lemma Chained(s: State, t: State, u: State, a: seq<Item>, b: seq<Item>)
    requires OnlyMoved(s, t) && Appends(s, t) && Appends(t, u)
    requires Serves(s, a, NewDeliveries(s, t)) && Serves(t, b, NewDeliveries(t, u))
    ensures Appends(s, u) && Serves(s, a + b, NewDeliveries(s, u))
  {
    ServesFrame(s, t, b, NewDeliveries(t, u));
    ServesConcat(s, a, b, NewDeliveries(s, t), NewDeliveries(t, u));
    hide Serves;
    assert NewDeliveries(s, u) == NewDeliveries(s, t) + NewDeliveries(t, u);
    assert u.delivered[..|s.delivered|] == u.delivered[..|t.delivered|][..|s.delivered|];
  }

  // ---- Re-entering the relay ----

  /** The pool grew by the items. */
  predicate Pooled(s: State, t: State, items: seq<Item>) {
    && |t.pool| == |s.pool| + |items| && t.pool[..|s.pool|] == s.pool
    && forall k | 0 <= k < |items| :: t.pool[|s.pool| + k] == items[k].(since := s.now)
  }

  /** With mixing off the items are served now; with mixing on they enter the pool in their order. */
  ghost predicate Entered(s: State, t: State, items: seq<Item>) {
    && OnlyMoved(s, t) && Appends(s, t) && t.jittered == s.jittered
    && (s.cfg.mixOff ==> Serves(s, items, NewDeliveries(s, t)) && t.pool == s.pool)
    && (!s.cfg.mixOff ==> NewDeliveries(s, t) == [] && Pooled(s, t, items))
  }

  lemma EnqueueEntered(s: State, it: Item)
    ensures Entered(s, EnqueueRelay(s, it), [it])
  {
    DeliverServes(s, it);
    hide Deliver, Serves;
  }

  lemma {:induction false} EnqueueAllEntered(s: State, items: seq<Item>)
    ensures Entered(s, EnqueueAll(s, items), items)
    decreases |items|
  {
    if items == [] {
      assert NewDeliveries(s, s) == [];
    } else {
      var t := EnqueueRelay(s, items[0]);
      EnqueueEntered(s, items[0]);
      EnqueueAllEntered(t, items[1..]);
      assert items == [items[0]] + items[1..];
      hide EnqueueRelay, EnqueueAll;
      JoinEntered(s, t, EnqueueAll(t, items[1..]), [items[0]], items[1..]);
    }
  }

  lemma JoinEntered(s: State, t: State, u: State, a: seq<Item>, b: seq<Item>)
    requires Entered(s, t, a) && Entered(t, u, b)
    ensures Entered(s, u, a + b)
  {
    hide Serves;
    if s.cfg.mixOff {
      Chained(s, t, u, a, b);
    } else {
      assert u.pool[..|s.pool|] == u.pool[..|t.pool|][..|s.pool|];
      forall k | 0 <= k < |a| ensures u.pool[|s.pool| + k] == a[k].(since := s.now) {
        assert u.pool[|s.pool| + k] == u.pool[..|t.pool|][|s.pool| + k];
      }
      assert u.delivered[..|t.delivered|] == t.delivered;
    }
  }

  // ---- Closing a window ----

  predicate HeldBack(cfg: Config, it: Item) {
    cfg.jitter > 0 && !it.msg.group
  }

  /** The items of a batch released at once, and those put behind a timer with the delay drawn for them. */
  function AtOnce(cfg: Config, batch: seq<Item>): seq<Item> {
    if batch == [] then []
    else (if HeldBack(cfg, batch[0]) then [] else [batch[0]]) + AtOnce(cfg, batch[1..])
  }

  function Later(cfg: Config, now: int, batch: seq<Item>, delays: seq<nat>): seq<Pending>
    requires |delays| == |batch|
  {
    if batch == [] then []
    else
      (if HeldBack(cfg, batch[0]) then [Pending(now + delays[0], batch[0])] else [])
        + Later(cfg, now, batch[1..], delays[1..])
  }

  ghost predicate Released(s: State, t: State, batch: seq<Item>, delays: seq<nat>)
    requires |delays| == |batch|
  {
    && OnlyMoved(s, t) && Appends(s, t) && t.pool == s.pool
    && Serves(s, AtOnce(s.cfg, batch), NewDeliveries(s, t))
    && t.jittered == s.jittered + Later(s.cfg, s.now, batch, delays)
  }

  /** What releasing one item did. */
  ghost predicate ReleasedOne(s: State, t: State, it: Item, delay: nat) {
    && OnlyMoved(s, t) && Appends(s, t) && t.pool == s.pool
    && Serves(s, if HeldBack(s.cfg, it) then [] else [it], NewDeliveries(s, t))
    && t.jittered == if HeldBack(s.cfg, it) then s.jittered + [Pending(s.now + delay, it)] else s.jittered
  }

  lemma OneReleased(s: State, it: Item, delay: nat)
    ensures ReleasedOne(s, ReleaseOne(s, it, delay), it, delay)
  {
    DeliverServes(s, it);
    hide Deliver, Serves;
    if HeldBack(s.cfg, it) {
      NothingServed(s);
      assert NewDeliveries(s, ReleaseOne(s, it, delay)) == [];
    }
  }

  lemma ServedOn(s: State, t: State, u: State, batch: seq<Item>)
    requires batch != [] && OnlyMoved(s, t) && Appends(s, t) && Appends(t, u)
    requires Serves(s, if HeldBack(s.cfg, batch[0]) then [] else [batch[0]], NewDeliveries(s, t))
    requires Serves(t, AtOnce(s.cfg, batch[1..]), NewDeliveries(t, u))
    ensures Appends(s, u) && Serves(s, AtOnce(s.cfg, batch), NewDeliveries(s, u))
  {
    var now := if HeldBack(s.cfg, batch[0]) then [] else [batch[0]];
    var rest := AtOnce(s.cfg, batch[1..]);
    assert AtOnce(s.cfg, batch) == now + rest;
    hide *;
    Chained(s, t, u, now, rest);
  }

  lemma ReleasedOn(s: State, t: State, u: State, batch: seq<Item>, delays: seq<nat>)
    requires |delays| == |batch| && batch != []
    requires ReleasedOne(s, t, batch[0], delays[0]) && Released(t, u, batch[1..], delays[1..])
    ensures Released(s, u, batch, delays)
  {
    hide Serves, NewDeliveries, Later, AtOnce, Appends, HeldBack;
    ServedOn(s, t, u, batch);
    LaterFirst(s.cfg, s.now, batch, delays, s.jittered);
  }

  lemma {:induction false} ReleaseReleased(s: State, batch: seq<Item>, delays: seq<nat>)
    requires |delays| == |batch|
    ensures Released(s, Release(s, batch, delays), batch, delays)
    decreases |batch|
  {
    if batch == [] {
      assert NewDeliveries(s, s) == [];
      assert s.jittered + [] == s.jittered;
    } else {
      hide ReleaseOne, ReleasedOne, Released;
      OneReleased(s, batch[0], delays[0]);
      ReleaseReleased(ReleaseOne(s, batch[0], delays[0]), batch[1..], delays[1..]);
      ReleasedOn(s, ReleaseOne(s, batch[0], delays[0]), Release(s, batch, delays), batch, delays);
    }
  }

  lemma LaterFirst(cfg: Config, now: int, batch: seq<Item>, delays: seq<nat>, before: seq<Pending>)
    requires |delays| == |batch| && batch != []
    ensures
      var rest := Later(cfg, now, batch[1..], delays[1..]);
      before + Later(cfg, now, batch, delays) ==
        if HeldBack(cfg, batch[0]) then before + [Pending(now + delays[0], batch[0])] + rest else before + rest
  {
    var rest := Later(cfg, now, batch[1..], delays[1..]);
    assert [] + rest == rest;
    var first := [Pending(now + delays[0], batch[0])];
    assert before + (first + rest) == before + first + rest;
  }

  lemma NothingServed(s: State)
    ensures Serves(s, [], [])
  {
  }

  // ---- Steps ----

  /** Backlog items carry the waiting messages in order, for the joiner alone if there is one. */
  lemma BacklogIs(list: seq<Queued>, a: Address, directTo: Option<Client>)
    ensures var r := Backlog(list, a, directTo);
      |r| == |list| && forall k | 0 <= k < |list| ::
        r[k].recipient == a && r[k].msg == list[k].msg && r[k].ts == list[k].ts && r[k].directTo == directTo
  {
  }

  /** What enters the relay in a step: the message sent, or an inbox emptied. */
  function Entering(s: State, op: Op): seq<Item> {
    match op
    case Send(toPk, kind) =>
      if kind == Cover then [] else [Item(toPk, Message(|s.accepted|, kind == Group), s.now, None, 0)]
    case Publish(c, a) => if HeldByOther(s, c, a) then [] else Backlog(Box(s.inbox, a), a, None)
    case Subscribe(c, g) => Backlog(Box(s.inbox, g), g, Some(c))
    case _ => []
  }

  /** The connections as the step leaves them, before any message moves. */
  function Registry(s: State, op: Op): State {
    match op
    case Publish(c, a) => if HeldByOther(s, c, a) then s else Register(s, c, a)
    case Subscribe(c, g) => Subscribed(s, c, g)
    case Send(toPk, kind) => if kind == Cover then s else Accept(s, toPk, kind)
    case _ => s
  }

  /**
   * In every step, what enters the relay is delivered, with mixing off, to exactly the connections it is for: a pair
   * message to the one live connection registered under its address, a group message to the live members, a joiner's
   * backlog to the joiner alone; in order, and nothing else is delivered. With mixing on it enters the pool.
   */
  lemma EntersFor(s: State, op: Op)
    requires Enabled(s, op) && (op.Send? || op.Publish? || op.Subscribe?)
    ensures Registry(s, op).delivered == s.delivered
    ensures Entered(Registry(s, op), Step(s, op), Entering(s, op))
  {
    match op
    case Send(toPk, kind) =>
      if kind == Cover {
        EnqueueAllEntered(s, []);
      } else {
        EnqueueEntered(Accept(s, toPk, kind), NewItem(s, toPk, kind));
      }
    case Publish(c, a) =>
      if HeldByOther(s, c, a) {
        EnqueueAllEntered(s, []);
      } else {
        RequeueEntered(Register(s, c, a), a, None);
      }
    case Subscribe(c, g) => RequeueEntered(Subscribed(s, c, g), g, Some(c));
  }

  lemma RequeueEntered(s: State, a: Address, directTo: Option<Client>)
    ensures Entered(s, Requeue(s, a, directTo), Backlog(Box(s.inbox, a), a, directTo))
  {
    var t := s.(inbox := Delete(s.inbox, a));
    var items := Backlog(Box(s.inbox, a), a, directTo);
    EnqueueAllEntered(t, items);
    hide EnqueueAll, Serves;
    var u := EnqueueAll(t, items);
    if s.cfg.mixOff {
      ServesFrame(t, s, items, NewDeliveries(t, u));
    }
  }

  /**
   * When the window closes, the items released at once are delivered in the drawn order, each to exactly the live
   * connections it is for, and nothing else is; with jitter on, every pair item waits behind a timer for its own delay.
   */
  lemma FlushServes(s: State, picks: seq<nat>, delays: seq<nat>)
    requires Enabled(s, FireMix(picks, delays))
    ensures
      var t := Step(s, FireMix(picks, delays));
      var batch := Shuffled(s.pool, picks);
      && Appends(s, t) && OnlyMoved(s, t) && t.pool == []
      && Serves(s, AtOnce(s.cfg, batch), NewDeliveries(s, t))
      && t.jittered == s.jittered + Later(s.cfg, s.now, batch, delays)
  {
    var batch := Shuffled(s.pool, picks);
    var emptied := s.(pool := [], timer := None);
    ReleaseReleased(emptied, batch, delays);
    hide Release, Shuffled, Serves, AtOnce, Later;
    var t := Release(emptied, batch, delays);
    ServesFrame(emptied, s, AtOnce(s.cfg, batch), NewDeliveries(emptied, t));
  }

  /** A jitter timer delivers its one item, or not, by the same rule. */
  lemma JitterServes(s: State, k: nat)
    requires Enabled(s, FireJitter(k))
    ensures
      var t := Step(s, FireJitter(k));
      Appends(s, t) && Serves(s, [s.jittered[k].item], NewDeliveries(s, t))
  {
    var t := s.(jittered := s.jittered[..k] + s.jittered[k + 1..]);
    var it := s.jittered[k].item;
    DeliverServes(t, it);
    hide Deliver, Serves;
    ServesFrame(t, s, [it], NewDeliveries(t, Deliver(t, it)));
  }

  /** No other step delivers anything. */
  lemma NothingElseDelivers(s: State, op: Op)
    requires Enabled(s, op)
    requires op.Connect? || op.Die? || op.Close? || op.Tick? || op.Sweep?
    ensures Step(s, op).delivered == s.delivered
  {
  }

  // ---- Every delivery of every run ----

  /** The items a step may deliver, with who they are for as the step leaves the connections. */
  function Handled(s: State, op: Op): seq<Item>
    requires Enabled(s, op)
  {
    match op
    case FireMix(picks, delays) => AtOnce(s.cfg, Shuffled(s.pool, picks))
    case FireJitter(k) => [s.jittered[k].item]
    case _ => if s.cfg.mixOff then Entering(s, op) else []
  }

  lemma {:induction false} ServedSomeone(s: State, items: seq<Item>, ds: seq<Delivery>, d: Delivery)
    requires Serves(s, items, ds) && d in ds
    ensures exists it | it in items :: Reaches(s, it, d)
    decreases |items|
  {
    if Deliverable(s, items[0]) && d == ds[0] {
      assert items[0] in items;
    } else {
      ServedSomeone(s, items[1..], if Deliverable(s, items[0]) then ds[1..] else ds, d);
      var it :| it in items[1..] && Reaches(s, it, d);
      assert it in items;
    }
  }

  lemma {:induction false} EveryoneServed(s: State, items: seq<Item>, ds: seq<Delivery>, it: Item)
    requires Serves(s, items, ds) && it in items && Deliverable(s, it)
    ensures exists d | d in ds :: Reaches(s, it, d)
    decreases |items|
  {
    if it == items[0] {
      assert ds[0] in ds;
    } else {
      assert it in items[1..];
      var rest := if Deliverable(s, items[0]) then ds[1..] else ds;
      EveryoneServed(s, items[1..], rest, it);
      var d :| d in rest && Reaches(s, it, d);
      assert d in ds;
    }
  }

  lemma StepServes(s: State, op: Op)
    requires Enabled(s, op)
    ensures Appends(s, Step(s, op))
    ensures Serves(Registry(s, op), Handled(s, op), NewDeliveries(s, Step(s, op)))
  {
    hide Serves, EnqueueRelay, Requeue, Release, Deliver, Shuffled, SweptInbox, SweptDrops;
    match op
    case FireMix(picks, delays) => FlushServes(s, picks, delays);
    case FireJitter(k) => JitterServes(s, k);
    case Send(_, _) => EntersServes(s, op);
    case Publish(_, _) => EntersServes(s, op);
    case Subscribe(_, _) => EntersServes(s, op);
    case _ =>
      NothingElseDelivers(s, op);
      NothingServed(s);
      assert NewDeliveries(s, Step(s, op)) == [];
  }

  lemma EntersServes(s: State, op: Op)
    requires Enabled(s, op) && (op.Send? || op.Publish? || op.Subscribe?)
    ensures Appends(s, Step(s, op))
    ensures Serves(Registry(s, op), Handled(s, op), NewDeliveries(s, Step(s, op)))
  {
    EntersFor(s, op);
    NothingServed(Registry(s, op));
    hide Serves, Step;
  }

  /**
   * On every run, in every step: a new delivery goes to exactly the live connections one of the items then handled is
   * for, and every handled item that is young enough and for some live connection is delivered.
   */
  lemma DeliveredExactlyFor(cfg: Config, now: int, ops: seq<Op>, op: Op)
    requires AllEnabled(Start(cfg, now), ops) && Enabled(Run(Start(cfg, now), ops), op)
    ensures
      var s := Run(Start(cfg, now), ops);
      var t := Step(s, op);
      && Appends(s, t)
      && (forall d | d in NewDeliveries(s, t) :: exists it | it in Handled(s, op) :: Reaches(Registry(s, op), it, d))
      && (forall it | it in Handled(s, op) && Deliverable(Registry(s, op), it) ::
            exists d | d in NewDeliveries(s, t) :: Reaches(Registry(s, op), it, d))
  {
    var s := Run(Start(cfg, now), ops);
    StepServes(s, op);
    var ds := NewDeliveries(s, Step(s, op));
    hide Run, Start, AllEnabled, Step, Registry, Handled, Serves, Reaches, Deliverable, Enabled;
    forall d | d in ds ensures exists it | it in Handled(s, op) :: Reaches(Registry(s, op), it, d) {
      ServedSomeone(Registry(s, op), Handled(s, op), ds, d);
    }
    forall it | it in Handled(s, op) && Deliverable(Registry(s, op), it)
      ensures exists d | d in ds :: Reaches(Registry(s, op), it, d)
    {
      EveryoneServed(Registry(s, op), Handled(s, op), ds, it);
    }
  }

  // ---- The same, spelled out for what enters with mixing off ----

  lemma RegisterHolds(s: State, c: Client, a: Address)
    ensures a in Register(s, c, a).online && Register(s, c, a).online[a] == c && Register(s, c, a).groups == s.groups
    ensures Register(s, c, a).alive == s.alive
  {
  }

  lemma SameSet(x: set<Client>, y: set<Client>)
    requires forall c :: c in x <==> c in y
    ensures x == y
  {
  }

  /** A pair message goes to the one live connection registered under its address and to nobody else. */
  lemma PairGoesToHolder(s: State, op: Op, d: Delivery)
    requires Enabled(s, op) && s.cfg.mixOff && (op.Send? || op.Publish?) && !d.msg.group
    requires Appends(s, Step(s, op)) && d in NewDeliveries(s, Step(s, op))
    ensures
      var online := Step(s, op).online;
      d.recipient in online && online[d.recipient] in s.alive && d.to == {online[d.recipient]}
  {
    EntersFor(s, op);
    var r, t := Registry(s, op), Step(s, op);
    hide Step, Serves, Register;
    if op.Publish? { RegisterHolds(s, op.client, op.address); }
    ServedSomeone(r, Entering(s, op), NewDeliveries(s, t), d);
    var it :| it in Entering(s, op) && Reaches(r, it, d);
    SameSet(d.to, {r.online[it.recipient]});
  }

  /** A group message goes to the group's live members and to nobody else. */
  lemma GroupGoesToMembers(s: State, op: Op, d: Delivery)
    requires Enabled(s, op) && s.cfg.mixOff && (op.Send? || op.Publish?) && d.msg.group
    requires Appends(s, Step(s, op)) && d in NewDeliveries(s, Step(s, op))
    ensures d.recipient in s.groups && d.to == s.groups[d.recipient] * s.alive
  {
    EntersFor(s, op);
    var r, t := Registry(s, op), Step(s, op);
    hide Step, Serves, Register;
    if op.Publish? { RegisterHolds(s, op.client, op.address); }
    ServedSomeone(r, Entering(s, op), NewDeliveries(s, t), d);
    var it :| it in Entering(s, op) && Reaches(r, it, d);
    SameSet(d.to, s.groups[d.recipient] * s.alive);
  }

  lemma ForJoiner(s: State, items: seq<Item>, ds: seq<Delivery>, g: Address, c: Client)
    requires Serves(s, items, ds)
    requires forall it | it in items :: it.recipient == g && it.directTo == Some(c)
    ensures forall d | d in ds :: c in s.alive && d.recipient == g && d.to == {c}
  {
    forall d | d in ds ensures c in s.alive && d.recipient == g && d.to == {c} {
      ServedSomeone(s, items, ds, d);
      var it :| it in items && Reaches(s, it, d);
      SameSet(d.to, {c});
    }
  }

  lemma PooledAs(s: State, t: State, items: seq<Item>, it: Item)
    requires Pooled(s, t, items) && it in t.pool[|s.pool|..]
    ensures exists k | 0 <= k < |items| :: it == items[k].(since := s.now)
  {
    var k :| 0 <= k < |t.pool[|s.pool|..]| && t.pool[|s.pool|..][k] == it;
    assert t.pool[|s.pool| + k] == items[k].(since := s.now);
  }

  /** A backlog goes to the joiner alone: at once, or out of the pool. */
  lemma BacklogGoesToJoiner(s: State, c: Client, g: Address)
    requires Enabled(s, Subscribe(c, g))
    ensures
      var t := Step(s, Subscribe(c, g));
      && Appends(s, t) && |s.pool| <= |t.pool| && t.pool[..|s.pool|] == s.pool
      && (forall d | d in NewDeliveries(s, t) :: c in s.alive && d.recipient == g && d.to == {c})
      && (forall it | it in t.pool[|s.pool|..] :: it.recipient == g && it.directTo == Some(c))
  {
    var op := Subscribe(c, g);
    EntersFor(s, op);
    BacklogIs(Box(s.inbox, g), g, Some(c));
    var r, t, items := Registry(s, op), Step(s, op), Entering(s, op);
    hide Step, Serves, Backlog, Reaches, For;
    if s.cfg.mixOff {
      ForJoiner(r, items, NewDeliveries(s, t), g, c);
    } else {
      forall it | it in t.pool[|s.pool|..] ensures it.recipient == g && it.directTo == Some(c) {
        PooledAs(r, t, items, it);
      }
    }
  }
}
