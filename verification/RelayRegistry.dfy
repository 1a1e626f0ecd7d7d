/** Who holds which address, and how much the relay keeps, on every run. */
module RelayRegistry {
  import opened Common
  import opened OrderedMap
  import opened Shuffle
  import opened Relay
  import opened RelayTiming
  import RelayDelivery

  /** The holder of an address carries it as its own. */
  predicate Owns(s: State, a: Address) {
    a in s.online && s.online[a] in s.pk && s.pk[s.online[a]] == a
  }

  ghost predicate Registered(s: State) {
    forall a | a in s.online :: Owns(s, a)
  }

  predicate Sized(list: seq<Queued>) {
    1 <= |list| <= MAX_QUEUE_PER_RECIPIENT
  }

  ghost predicate Capped(s: State) {
    && Distinct(s.inbox) && |s.inbox| <= MAX_QUEUED_RECIPIENTS
    && (forall e | e in s.inbox :: Sized(e.1))
    && (s.cfg.ephemeral ==> s.inbox == [])
  }

  // ---- Moving messages leaves the registry alone and the inboxes capped ----

  lemma QueueCapped(s: State, a: Address, msg: Message, ts: int)
    requires Capped(s)
    ensures Capped(QueueMessage(s, a, msg, ts)) && OnlyMoved(s, QueueMessage(s, a, msg, ts))
  {
    if QueueFault(s, a).None? {
      var list := Box(s.inbox, a) + [Queued(msg, ts)];
      var t := QueueMessage(s, a, msg, ts);
      assert Sized(list);
      hide Box;
      SetLength(s.inbox, a, list);
      forall e | e in t.inbox ensures Sized(e.1) {
        assert e in s.inbox || e == (a, list);
      }
    }
  }

  lemma SetLength(m: Inbox, a: Address, list: seq<Queued>)
    ensures |Set(m, a, list)| == if Has(m, a) then |m| else |m| + 1
  {
  }

  lemma EnqueueCapped(s: State, it: Item)
    requires Capped(s)
    ensures Capped(EnqueueRelay(s, it)) && OnlyMoved(s, EnqueueRelay(s, it))
  {
    QueueCapped(s, it.recipient, it.msg, it.ts);
    hide QueueMessage;
  }

  lemma {:induction false} EnqueueAllCapped(s: State, items: seq<Item>)
    requires Capped(s)
    ensures Capped(EnqueueAll(s, items)) && OnlyMoved(s, EnqueueAll(s, items))
    decreases |items|
  {
    if items != [] {
      EnqueueCapped(s, items[0]);
      hide EnqueueRelay, Capped;
      EnqueueAllCapped(EnqueueRelay(s, items[0]), items[1..]);
    }
  }

  lemma RequeueCapped(s: State, a: Address, directTo: Option<Client>)
    requires Capped(s)
    ensures Capped(Requeue(s, a, directTo)) && OnlyMoved(s, Requeue(s, a, directTo))
  {
    var t := s.(inbox := Delete(s.inbox, a));
    assert Capped(t);
    hide Capped;
    EnqueueAllCapped(t, Backlog(Box(s.inbox, a), a, directTo));
  }

  lemma ReleaseOneCapped(s: State, it: Item, delay: nat)
    requires Capped(s)
    ensures Capped(ReleaseOne(s, it, delay)) && OnlyMoved(s, ReleaseOne(s, it, delay))
  {
    QueueCapped(s, it.recipient, it.msg, it.ts);
    hide QueueMessage;
  }

  lemma {:induction false} ReleaseCapped(s: State, batch: seq<Item>, delays: seq<nat>)
    requires Capped(s) && |delays| == |batch|
    ensures Capped(Release(s, batch, delays)) && OnlyMoved(s, Release(s, batch, delays))
    decreases |batch|
  {
    if batch != [] {
      ReleaseOneCapped(s, batch[0], delays[0]);
      hide ReleaseOne, Capped;
      ReleaseCapped(ReleaseOne(s, batch[0], delays[0]), batch[1..], delays[1..]);
    }
  }

  lemma FlushCapped(s: State, picks: seq<nat>, delays: seq<nat>)
    requires Capped(s) && Enabled(s, FireMix(picks, delays))
    ensures var t := Step(s, FireMix(picks, delays)); Capped(t) && OnlyMoved(s, t)
  {
    var emptied := s.(pool := [], timer := None);
    assert Capped(emptied);
    ReleaseCapped(emptied, Shuffled(s.pool, picks), delays);
    hide Release;
  }

  lemma {:induction false} FreshSized(list: seq<Queued>, cutoff: int)
    ensures |Fresh(list, cutoff)| <= |list|
  {
    if list != [] {
      FreshSized(list[1..], cutoff);
    }
  }

  lemma {:induction false} SweepCapped(m: Inbox, cutoff: int)
    requires Distinct(m) && forall e | e in m :: Sized(e.1)
    ensures var r := SweptInbox(m, cutoff);
      && Distinct(r) && |r| <= |m|
      && (forall e | e in r :: Sized(e.1) && exists i | 0 <= i < |m| :: m[i].0 == e.0)
  {
    if m != [] {
      assert forall e | e in m[1..] :: e in m;
      SweepCapped(m[1..], cutoff);
      FreshSized(m[0].1, cutoff);
      assert m[0] in m;
      var kept, rest := Fresh(m[0].1, cutoff), SweptInbox(m[1..], cutoff);
      hide SweptInbox, Fresh;
      forall e | e in rest ensures e.0 != m[0].0 && exists i | 0 <= i < |m| :: m[i].0 == e.0 {
        var i :| 0 <= i < |m[1..]| && m[1..][i].0 == e.0;
        assert m[i + 1].0 == e.0;
      }
      DistinctFirst(m[0].0, kept, rest);
    }
  }

  lemma DistinctFirst(a: Address, kept: seq<Queued>, rest: Inbox)
    requires Distinct(rest) && forall e | e in rest :: e.0 != a
    ensures Distinct([(a, kept)] + rest) && Distinct([] + rest)
  {
    assert [] + rest == rest;
    var r: Inbox := [(a, kept)] + rest;
    forall i, j | 0 <= i < j < |r| ensures r[i].0 != r[j].0 {
      assert r[j] == rest[j - 1];
    }
  }

  lemma StepCapped(s: State, op: Op)
    requires Capped(s) && Enabled(s, op)
    ensures Capped(Step(s, op))
  {
    hide Requeue, EnqueueRelay, QueueMessage, Release, SweptInbox, SweptDrops, Register, Subscribed, Closed;
    match op
    case Publish(c, a) =>
      assert Capped(Register(s, c, a)) by { RegisterKeeps(s, c, a); }
      RequeueCapped(Register(s, c, a), a, None);
    case Subscribe(c, g) =>
      assert Capped(Subscribed(s, c, g)) by { SubscribedKeeps(s, c, g); }
      RequeueCapped(Subscribed(s, c, g), g, Some(c));
    case Send(toPk, kind) => EnqueueCapped(Accept(s, toPk, kind), NewItem(s, toPk, kind));
    case FireMix(picks, delays) => FlushCapped(s, picks, delays);
    case FireJitter(k) =>
      var it := s.jittered[k].item;
      QueueCapped(s.(jittered := s.jittered[..k] + s.jittered[k + 1..]), it.recipient, it.msg, it.ts);
    case Close(c) => ClosedKeeps(s, c);
    case Sweep => SweepCapped(s.inbox, s.now - s.cfg.ttl); SweepNothing(s.now - s.cfg.ttl);
    case _ =>
  }

  lemma SweepNothing(cutoff: int)
    ensures SweptInbox([], cutoff) == []
  {
  }

  lemma RegisterKeeps(s: State, c: Client, a: Address)
    ensures Register(s, c, a).inbox == s.inbox && Register(s, c, a).cfg == s.cfg
  {
  }

  lemma SubscribedKeeps(s: State, c: Client, g: Address)
    ensures Subscribed(s, c, g).inbox == s.inbox && Subscribed(s, c, g).cfg == s.cfg
    ensures Subscribed(s, c, g).online == s.online && Subscribed(s, c, g).pk == s.pk
  {
  }

  lemma ClosedKeeps(s: State, c: Client)
    ensures Closed(s, c).inbox == s.inbox && Closed(s, c).cfg == s.cfg
  {
  }

  // ---- The registry ----

  lemma StepRegistry(s: State, op: Op)
    requires Capped(s) && Enabled(s, op)
    ensures var t := Step(s, op);
      match op
      case Publish(c, a) =>
        var r := if HeldByOther(s, c, a) then s else Register(s, c, a);
        t.online == r.online && t.pk == r.pk
      case Close(c) => t.online == Closed(s, c).online && t.pk == s.pk
      case _ => t.online == s.online && t.pk == s.pk
  {
    hide QueueMessage, Requeue, EnqueueRelay, Release, Capped, Distinct, Register, Subscribed, Closed;
    match op
    case Publish(c, a) =>
      if !HeldByOther(s, c, a) {
        assert Capped(Register(s, c, a)) by { RegisterCapped(s, c, a); }
        RequeueCapped(Register(s, c, a), a, None);
      }
    case Subscribe(c, g) =>
      SubscribedKeeps(s, c, g);
      assert Capped(Subscribed(s, c, g)) by { SubscribedCapped(s, c, g); }
      RequeueCapped(Subscribed(s, c, g), g, Some(c));
    case Send(toPk, kind) =>
      assert Capped(Accept(s, toPk, kind)) by { AcceptCapped(s, toPk, kind); }
      EnqueueCapped(Accept(s, toPk, kind), NewItem(s, toPk, kind));
    case FireMix(picks, delays) => FlushCapped(s, picks, delays);
    case FireJitter(k) =>
      var t := s.(jittered := s.jittered[..k] + s.jittered[k + 1..]);
      var it := s.jittered[k].item;
      assert Capped(t) by { JitteredCapped(s, t); }
      QueueCapped(t, it.recipient, it.msg, it.ts);
    case Close(c) => ClosedPk(s, c);
    case _ =>
  }

  lemma RegisterCapped(s: State, c: Client, a: Address)
    requires Capped(s)
    ensures Capped(Register(s, c, a))
  {
  }

  lemma SubscribedCapped(s: State, c: Client, g: Address)
    requires Capped(s)
    ensures Capped(Subscribed(s, c, g))
  {
  }

  lemma AcceptCapped(s: State, toPk: Address, kind: Kind)
    requires Capped(s)
    ensures Capped(Accept(s, toPk, kind))
  {
  }

  lemma JitteredCapped(s: State, t: State)
    requires Capped(s) && t == s.(jittered := t.jittered)
    ensures Capped(t)
  {
  }

  lemma ClosedPk(s: State, c: Client)
    ensures Closed(s, c).pk == s.pk
  {
  }

  lemma RegisterRegistered(s: State, c: Client, a: Address)
    requires Registered(s)
    ensures Registered(Register(s, c, a))
  {
  }

  lemma StepRegistered(s: State, op: Op)
    requires Registered(s) && Capped(s) && Enabled(s, op)
    ensures Registered(Step(s, op))
  {
    StepRegistry(s, op);
    hide Step, Capped;
    match op
    case Publish(c, a) => RegisterRegistered(s, c, a);
    case _ =>
  }

  lemma {:induction false} RunRegistered(s: State, ops: seq<Op>)
    requires Registered(s) && Capped(s) && AllEnabled(s, ops)
    ensures Registered(Run(s, ops)) && Capped(Run(s, ops))
    decreases |ops|
  {
    if ops != [] {
      StepRegistered(s, ops[0]);
      StepCapped(s, ops[0]);
      hide Registered, Capped, Step, Enabled;
      RunRegistered(Step(s, ops[0]), ops[1..]);
    }
  }

  lemma StartRegistered(cfg: Config, now: int)
    ensures Registered(Start(cfg, now)) && Capped(Start(cfg, now))
  {
  }

  /** On every run a connection is registered under at most one address, the one it published last. */
  lemma OneAddressEach(cfg: Config, now: int, ops: seq<Op>, a: Address, b: Address)
    requires AllEnabled(Start(cfg, now), ops)
    requires var s := Run(Start(cfg, now), ops); a in s.online && b in s.online && s.online[a] == s.online[b]
    ensures a == b && Owns(Run(Start(cfg, now), ops), a)
  {
    StartRegistered(cfg, now);
    RunRegistered(Start(cfg, now), ops);
    hide Run, Start, AllEnabled;
  }

  /** On every run at most 10,000 recipients have a list, each of 1 to 100 messages; an ephemeral relay has none. */
  lemma CapacityKept(cfg: Config, now: int, ops: seq<Op>)
    requires AllEnabled(Start(cfg, now), ops)
    ensures var s := Run(Start(cfg, now), ops);
      && |s.inbox| <= 10000 && Distinct(s.inbox)
      && (forall e | e in s.inbox :: 1 <= |e.1| <= 100)
      && (cfg.ephemeral ==> s.inbox == [])
  {
    StartRegistered(cfg, now);
    RunRegistered(Start(cfg, now), ops);
    RunConfig(Start(cfg, now), ops);
    hide Run, Start, AllEnabled;
  }

  /** An address held by a live connection moves only when that connection itself publishes another. */
  lemma LiveAddressStays(s: State, op: Op, a: Address)
    requires Registered(s) && Capped(s) && Enabled(s, op)
    requires a in s.online && s.online[a] in s.alive
    ensures a in Step(s, op).online && Step(s, op).online[a] == s.online[a]
         <==> !(op.Publish? && op.client == s.online[a] && op.address != a && !HeldByOther(s, op.client, op.address))
  {
    StepRegistry(s, op);
    hide Step, Capped;
  }

  /** A closed connection holds no address and listens to no group. */
  lemma ClosedHoldsNothing(s: State, c: Client)
    requires Registered(s) && Enabled(s, Close(c))
    ensures var t := Step(s, Close(c));
      && (forall a | a in t.online :: t.online[a] != c)
      && (forall a | a in s.online && s.online[a] != c :: a in t.online && t.online[a] == s.online[a])
      && (forall g | g in t.groups :: c !in t.groups[g] && t.groups[g] + {c} == s.groups[g] + {c})
  {
    forall a | a in s.online ensures Owns(s, a) {}
  }

  /** Who holds an address after a step: whoever published it, if let, and otherwise who held it and kept it. */
  lemma HolderAfter(s: State, op: Op, a: Address)
    requires Registered(s) && Capped(s) && Enabled(s, op)
    ensures
      var t := Step(s, op);
      var published := op.Publish? && !(op.address in s.online && s.online[op.address] != op.client
                                        && s.online[op.address] in s.alive);
      if published && op.address == a then a in t.online && t.online[a] == op.client
      else if published || op.Close? then
        && (a in t.online <==> a in s.online && s.online[a] != op.client)
        && (a in t.online ==> t.online[a] == s.online[a])
      else (a in t.online <==> a in s.online) && (a in t.online ==> t.online[a] == s.online[a])
    ensures
      var t := Step(s, op);
      op.Publish? && a == op.address && a in t.online && t.online[a] == op.client ==>
        op.client in t.pk && t.pk[op.client] == a
  {
    StepRegistry(s, op);
    assert a in s.online ==> Owns(s, a);
    hide Step, Capped;
  }

  predicate Listens(s: State, g: Address, c: Client) {
    g in s.groups && c in s.groups[g]
  }

  /** Who listens to a group after a step: who joined it, and who was listening and did not close. */
  lemma ListenersAfter(s: State, op: Op, g: Address, c: Client)
    requires Enabled(s, op)
    ensures Listens(Step(s, op), g, c) <==>
      op == Subscribe(c, g) || (Listens(s, g, c) && op != Close(c))
  {
    StepKeepsGroups(s, op);
    hide Step;
  }

  lemma StepKeepsGroups(s: State, op: Op)
    requires Enabled(s, op)
    ensures Step(s, op).groups ==
      match op
      case Subscribe(c, g) => s.groups[g := (if g in s.groups then s.groups[g] else {}) + {c}]
      case Close(c) => map g | g in s.groups :: s.groups[g] - {c}
      case _ => s.groups
  {
    hide Deliver, Requeue, EnqueueRelay, Release, SweptInbox, SweptDrops;
    match op
    case Send(_, _) => RelayDelivery.EntersFor(s, op);
    case Publish(c, a) =>
      RelayDelivery.EntersFor(s, op);
      RelayDelivery.RegisterHolds(s, c, a);
    case Subscribe(_, _) => RelayDelivery.EntersFor(s, op);
    case FireMix(picks, delays) => RelayDelivery.FlushServes(s, picks, delays);
    case FireJitter(k) =>
      RelayDelivery.DeliverServes(s.(jittered := s.jittered[..k] + s.jittered[k + 1..]), s.jittered[k].item);
    case _ =>
  }
}
