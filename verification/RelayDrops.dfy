/** Nothing is dropped without cause. */
module RelayDrops {
  import opened Common
  import opened OrderedMap
  import opened Shuffle
  import opened Relay
  import opened RelayTiming
  import opened RelayFifo

  /** The cause is visible in the state a drop leaves behind. */
  predicate Justified(s: State, d: Drop) {
    d.id < |s.accepted| &&
    match d.reason
    case Expired => s.now - s.accepted[d.id].ts > s.cfg.ttl
    case Swept => s.now - s.accepted[d.id].ts > s.cfg.ttl
    case Ephemeral => s.cfg.ephemeral
    case QueueFull => |Box(s.inbox, s.accepted[d.id].recipient)| >= MAX_QUEUE_PER_RECIPIENT
    case RelayFull => |s.inbox| >= MAX_QUEUED_RECIPIENTS
  }

  /** Every drop from the n-th on has its cause. */
  ghost predicate DropsFrom(s: State, n: nat) {
    n <= |s.dropped| && forall k | n <= k < |s.dropped| :: Justified(s, s.dropped[k])
  }

  /** Lists only grow and earlier drops stay. */
  ghost predicate Grows(s: State, t: State) {
    && OnlyMoved(s, t) && |s.inbox| <= |t.inbox|
    && (forall a :: |Box(s.inbox, a)| <= |Box(t.inbox, a)|)
  }

  lemma GrowsKeeps(s: State, t: State, d: Drop)
    requires Grows(s, t) && Justified(s, d)
    ensures Justified(t, d)
  {
  }

  lemma QueueGrows(s: State, a: Address, msg: Message, ts: int)
    ensures Grows(s, QueueMessage(s, a, msg, ts))
  {
    if QueueFault(s, a).None? {
      var list := Box(s.inbox, a) + [Queued(msg, ts)];
      var t := QueueMessage(s, a, msg, ts);
      forall b ensures |Box(s.inbox, b)| <= |Box(t.inbox, b)| {
        BoxSet(s.inbox, a, list, b);
      }
    }
  }

  lemma DeliverGrows(s: State, it: Item)
    ensures Grows(s, Deliver(s, it))
  {
    QueueGrows(s, it.recipient, it.msg, it.ts);
    hide Box, QueueMessage, Way;
  }

  lemma NewDrop(s: State, it: Item)
    requires GenuineItem(s, it)
    ensures var t := Deliver(s, it);
      t.dropped == s.dropped
      || (&& |t.dropped| == |s.dropped| + 1 && t.dropped[..|s.dropped|] == s.dropped
          && Justified(t, t.dropped[|s.dropped|]))
  {
    hide Box, Set, Way;
  }

  lemma DeliverDrops(s: State, it: Item, n: nat)
    requires GenuineItem(s, it) && DropsFrom(s, n)
    ensures Grows(s, Deliver(s, it)) && DropsFrom(Deliver(s, it), n)
  {
    DeliverGrows(s, it);
    NewDrop(s, it);
    hide Deliver, Grows, Justified;
    var t := Deliver(s, it);
    forall k | n <= k < |t.dropped| ensures Justified(t, t.dropped[k]) {
      if k < |s.dropped| {
        assert t.dropped[k] == s.dropped[k];
        GrowsKeeps(s, t, s.dropped[k]);
      }
    }
  }

  lemma PoolDrops(s: State, it: Item, n: nat)
    requires !s.cfg.mixOff && DropsFrom(s, n)
    ensures Grows(s, EnqueueRelay(s, it)) && DropsFrom(EnqueueRelay(s, it), n)
  {
    var t := EnqueueRelay(s, it);
    hide Box;
    forall k | n <= k < |t.dropped| ensures Justified(t, t.dropped[k]) {
      GrowsKeeps(s, t, s.dropped[k]);
    }
  }

  lemma EnqueueDrops(s: State, it: Item, n: nat)
    requires GenuineItem(s, it) && DropsFrom(s, n)
    ensures Grows(s, EnqueueRelay(s, it)) && DropsFrom(EnqueueRelay(s, it), n)
  {
    hide Grows, DropsFrom, Deliver;
    if s.cfg.mixOff {
      DeliverDrops(s, it, n);
    } else {
      PoolDrops(s, it, n);
    }
  }

  lemma {:induction false} EnqueueAllDrops(s: State, items: seq<Item>, n: nat)
    requires DropsFrom(s, n) && forall it | it in items :: GenuineItem(s, it)
    ensures DropsFrom(EnqueueAll(s, items), n)
    decreases |items|
  {
    if items != [] {
      EnqueueDrops(s, items[0], n);
      assert OnlyMoved(s, EnqueueRelay(s, items[0]));
      assert forall it | it in items[1..] :: it in items;
      hide EnqueueRelay, DropsFrom;
      EnqueueAllDrops(EnqueueRelay(s, items[0]), items[1..], n);
    }
  }

  lemma RequeueDrops(s: State, a: Address, directTo: Option<Client>)
    requires Faithful(s)
    ensures DropsFrom(Requeue(s, a, directTo), |s.dropped|)
  {
    BoxGenuine(s, a);
    var list := Box(s.inbox, a);
    var t := s.(inbox := Delete(s.inbox, a));
    var items := Backlog(list, a, directTo);
    forall it | it in items ensures GenuineItem(t, it) {
      var i :| 0 <= i < |items| && items[i] == it;
      assert list[i] in list;
    }
    EnqueueAllDrops(t, items, |s.dropped|);
  }

  lemma ReleaseOneDrops(s: State, it: Item, delay: nat, n: nat)
    requires GenuineItem(s, it) && DropsFrom(s, n)
    ensures Grows(s, ReleaseOne(s, it, delay)) && DropsFrom(ReleaseOne(s, it, delay), n)
  {
    DeliverDrops(s, it, n);
    var t := ReleaseOne(s, it, delay);
    hide Deliver, Box;
    forall k | n <= k < |t.dropped| ensures Justified(t, t.dropped[k]) {
      if s.cfg.jitter > 0 && !it.msg.group {
        GrowsKeeps(s, t, s.dropped[k]);
      }
    }
  }

  lemma {:induction false} ReleaseDrops(s: State, batch: seq<Item>, delays: seq<nat>, n: nat)
    requires |delays| == |batch| && DropsFrom(s, n) && forall it | it in batch :: GenuineItem(s, it)
    ensures DropsFrom(Release(s, batch, delays), n)
    decreases |batch|
  {
    if batch != [] {
      ReleaseOneDrops(s, batch[0], delays[0], n);
      assert OnlyMoved(s, ReleaseOne(s, batch[0], delays[0]));
      assert forall it | it in batch[1..] :: it in batch;
      hide ReleaseOne, DropsFrom;
      ReleaseDrops(ReleaseOne(s, batch[0], delays[0]), batch[1..], delays[1..], n);
    }
  }

  lemma FlushDrops(s: State, picks: seq<nat>, delays: seq<nat>)
    requires Faithful(s) && Enabled(s, FireMix(picks, delays))
    ensures DropsFrom(Step(s, FireMix(picks, delays)), |s.dropped|)
  {
    var batch := Shuffled(s.pool, picks);
    ShuffleKeeps(s.pool, picks);
    var emptied := s.(pool := [], timer := None);
    forall it | it in batch ensures GenuineItem(emptied, it) {
      assert it in multiset(batch);
      assert it in s.pool;
    }
    hide Release, Shuffled, Box;
    ReleaseDrops(emptied, batch, delays, |s.dropped|);
  }

  lemma {:induction false} StaleOld(s: State, a: Address, list: seq<Queued>, cutoff: int)
    requires GenuineList(s, a, list)
    ensures forall d | d in Stale(list, cutoff) ::
      d.reason == Swept && d.id < |s.accepted| && s.accepted[d.id].ts < cutoff
  {
    if list != [] {
      assert list[0] in list && forall q | q in list[1..] :: q in list;
      StaleOld(s, a, list[1..], cutoff);
    }
  }

  lemma {:induction false} SweptOld(s: State, m: Inbox, cutoff: int)
    requires forall e | e in m :: GenuineList(s, e.0, e.1)
    ensures forall d | d in SweptDrops(m, cutoff) ::
      d.reason == Swept && d.id < |s.accepted| && s.accepted[d.id].ts < cutoff
  {
    if m != [] {
      assert m[0] in m && forall e | e in m[1..] :: e in m;
      StaleOld(s, m[0].0, m[0].1, cutoff);
      SweptOld(s, m[1..], cutoff);
    }
  }

  lemma SweepDrops(s: State)
    requires Faithful(s)
    ensures DropsFrom(Step(s, Sweep), |s.dropped|)
  {
    var cutoff := s.now - s.cfg.ttl;
    SweptOld(s, s.inbox, cutoff);
    hide SweptDrops, SweptInbox, Box;
    var t := Step(s, Sweep);
    forall k | |s.dropped| <= k < |t.dropped| ensures Justified(t, t.dropped[k]) {
      assert t.dropped[k] in SweptDrops(s.inbox, cutoff);
    }
  }

  lemma JitterDrops(s: State, k: nat)
    requires Faithful(s) && k < |s.jittered|
    ensures DropsFrom(Deliver(s.(jittered := s.jittered[..k] + s.jittered[k + 1..]), s.jittered[k].item), |s.dropped|)
  {
    assert s.jittered[k] in s.jittered;
    DeliverDrops(s.(jittered := s.jittered[..k] + s.jittered[k + 1..]), s.jittered[k].item, |s.dropped|);
  }

  lemma SendDrops(s: State, toPk: Address, kind: Kind)
    requires Faithful(s) && Timely(s)
    ensures DropsFrom(EnqueueRelay(Accept(s, toPk, kind), NewItem(s, toPk, kind)), |s.dropped|)
  {
    AcceptFaithful(s, toPk, kind);
    hide Faithful, Timely;
    EnqueueDrops(Accept(s, toPk, kind), NewItem(s, toPk, kind), |s.dropped|);
  }

  lemma PublishDrops(s: State, c: Client, a: Address)
    requires Faithful(s) && Timely(s)
    ensures DropsFrom(Requeue(Register(s, c, a), a, None), |s.dropped|)
  {
    NotOverdue(s);
    QuietFaithful(s, Register(s, c, a));
    hide Faithful, Timely, Requeue;
    RequeueDrops(Register(s, c, a), a, None);
  }

  lemma SubscribeDrops(s: State, c: Client, g: Address)
    requires Faithful(s) && Timely(s)
    ensures DropsFrom(Requeue(Subscribed(s, c, g), g, Some(c)), |s.dropped|)
  {
    NotOverdue(s);
    QuietFaithful(s, Subscribed(s, c, g));
    hide Faithful, Timely, Requeue;
    RequeueDrops(Subscribed(s, c, g), g, Some(c));
  }

  /**
   * In every state of every run, a step drops a message only if it is older than the retention time, its recipient's
   * list is full, the relay's table of recipients is full, or the relay stores nothing at all.
   */
  lemma DropsJustified(cfg: Config, now: int, ops: seq<Op>, op: Op)
    requires AllEnabled(Start(cfg, now), ops)
    requires Enabled(Run(Start(cfg, now), ops), op)
    ensures var s := Run(Start(cfg, now), ops); DropsFrom(Step(s, op), |s.dropped|)
  {
    StartFaithful(cfg, now);
    RunFaithful(Start(cfg, now), ops);
    hide *;
    StepDrops(Run(Start(cfg, now), ops), op);
  }

  lemma QuietDrops(s: State, t: State)
    requires t.dropped == s.dropped
    ensures DropsFrom(t, |s.dropped|)
  {
  }

  lemma StepDrops(s: State, op: Op)
    requires Faithful(s) && Timely(s) && Enabled(s, op)
    ensures DropsFrom(Step(s, op), |s.dropped|)
  {
    hide Faithful, Timely, DropsFrom, Requeue, EnqueueRelay, Deliver, Release, ScheduleMixFlush, SweptInbox, SweptDrops,
         Register, Subscribed, HeldByOther, Accept, NewItem;
    match op
    case Publish(c, a) =>
      QuietDrops(s, s);
      PublishDrops(s, c, a);
    case Subscribe(c, g) => SubscribeDrops(s, c, g);
    case Send(toPk, kind) =>
      QuietDrops(s, s);
      SendDrops(s, toPk, kind);
    case FireMix(picks, delays) => FlushDrops(s, picks, delays);
    case FireJitter(k) => JitterDrops(s, k);
    case Sweep => SweepDrops(s);
    case _ => QuietDrops(s, Step(s, op));
  }

  lemma {:induction false} FreshIff(list: seq<Queued>, cutoff: int, q: Queued)
    ensures q in Fresh(list, cutoff) <==> q in list && q.ts >= cutoff
  {
    if list != [] {
      FreshIff(list[1..], cutoff, q);
      assert list == [list[0]] + list[1..];
    }
  }

  /** A sweep leaves exactly the waiting messages that are young enough. */
  lemma SweepLeavesYoung(s: State, a: Address, q: Queued)
    requires Distinct(s.inbox)
    ensures q in Box(Step(s, Sweep).inbox, a) <==> q in Box(s.inbox, a) && s.now - q.ts <= s.cfg.ttl
  {
    var cutoff := s.now - s.cfg.ttl;
    SweptBox(s.inbox, a, cutoff);
    FreshIff(Box(s.inbox, a), cutoff, q);
    hide SweptInbox, Box, Fresh;
  }

  /** An item is reported as refused exactly when it is dropped, for the reason recorded. */
  lemma RefusalIsDrop(s: State, it: Item)
    ensures Refusal(s, it).None? <==> Deliver(s, it).dropped == s.dropped
    ensures forall r :: Refusal(s, it) == Some(r) <==> Deliver(s, it).dropped == s.dropped + [Drop(it.msg.id, r)]
  {
    hide Box, Set, Way;
    assert forall d: Drop, e: Drop | s.dropped + [d] == s.dropped + [e] :: d == e by {
      forall d: Drop, e: Drop | s.dropped + [d] == s.dropped + [e] ensures d == e {
        assert (s.dropped + [d])[|s.dropped|] == (s.dropped + [e])[|s.dropped|];
      }
    }
  }
}
