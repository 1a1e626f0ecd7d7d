/** Original receipt times, the retention limit and the mix window, on every run. */
module RelayTiming {
  import opened Common
  import opened OrderedMap
  import opened Shuffle
  import opened Relay

  /** Still what was accepted under its number: same recipient, same mode, same receipt time. */
  predicate Genuine(s: State, a: Address, msg: Message, ts: int) {
    msg.id < |s.accepted| && s.accepted[msg.id] == Accepted(a, msg.group, ts)
  }

  predicate GenuineItem(s: State, it: Item) {
    Genuine(s, it.recipient, it.msg, it.ts)
  }

  predicate GenuineList(s: State, a: Address, list: seq<Queued>) {
    forall q | q in list :: Genuine(s, a, q.msg, q.ts)
  }

  predicate InTime(s: State, d: Delivery) {
    && d.msg.id < |s.accepted| && d.to != {}
    && s.accepted[d.msg.id].recipient == d.recipient && s.accepted[d.msg.id].group == d.msg.group
    && s.accepted[d.msg.id].ts <= d.at <= s.accepted[d.msg.id].ts + s.cfg.ttl
  }

  ghost predicate Faithful(s: State) {
    && (forall it | it in s.pool :: GenuineItem(s, it))
    && (forall p | p in s.jittered :: GenuineItem(s, p.item))
    && (forall e | e in s.inbox :: GenuineList(s, e.0, e.1))
    && (forall d | d in s.delivered :: InTime(s, d))
    && (forall x | x in s.accepted :: x.ts <= s.now)
  }

  /** An item leaves the pool at the timer, at most a window after it entered. */
  predicate Waits(s: State, it: Item) {
    s.timer.Some? && it.since <= s.now <= s.timer.value <= it.since + s.cfg.window
  }

  predicate HeldInTime(s: State, p: Pending) {
    !p.item.msg.group && s.now <= p.due <= p.item.since + s.cfg.window + s.cfg.jitter
  }

  ghost predicate Timely(s: State) {
    && (s.timer.Some? <==> s.pool != [])
    && (s.cfg.mixOff ==> s.pool == [])
    && (s.timer.Some? ==> s.now <= s.timer.value <= s.now + s.cfg.window)
    && (forall it | it in s.pool :: Waits(s, it))
    && (forall p | p in s.jittered :: HeldInTime(s, p))
  }

  /** Same clock, configuration, connections and acceptance log: only messages moved. */
  predicate OnlyMoved(s: State, t: State) {
    && t.cfg == s.cfg && t.now == s.now && t.known == s.known && t.alive == s.alive && t.pk == s.pk
    && t.online == s.online && t.groups == s.groups && t.accepted == s.accepted
  }

  lemma BoxGenuine(s: State, a: Address)
    requires Faithful(s)
    ensures GenuineList(s, a, Box(s.inbox, a))
  {
    if Has(s.inbox, a) {
      assert s.inbox[Find(s.inbox, a)] in s.inbox;
    }
  }

  lemma QueueFaithful(s: State, a: Address, msg: Message, ts: int)
    requires Faithful(s) && Genuine(s, a, msg, ts)
    ensures Faithful(QueueMessage(s, a, msg, ts)) && OnlyMoved(s, QueueMessage(s, a, msg, ts))
  {
    BoxGenuine(s, a);
    var list := Box(s.inbox, a) + [Queued(msg, ts)];
    assert GenuineList(s, a, list);
    hide Genuine, Box;
    var t := QueueMessage(s, a, msg, ts);
    forall e | e in t.inbox ensures GenuineList(t, e.0, e.1) {
      assert e in s.inbox || e == (a, list);
    }
    forall d | d in t.delivered ensures InTime(t, d) {}
  }

  lemma DeliverFaithful(s: State, it: Item)
    requires Faithful(s) && GenuineItem(s, it)
    ensures Faithful(Deliver(s, it)) && OnlyMoved(s, Deliver(s, it))
    ensures Deliver(s, it).pool == s.pool && Deliver(s, it).timer == s.timer && Deliver(s, it).jittered == s.jittered
  {
    var t := Deliver(s, it);
    if s.now - it.ts <= s.cfg.ttl && Way(s, it) == {} {
      QueueFaithful(s, it.recipient, it.msg, it.ts);
    } else {
      assert s.accepted[it.msg.id] in s.accepted;
      forall d | d in t.delivered ensures InTime(t, d) {
        assert d in s.delivered || d == Delivery(it.recipient, it.msg, s.now, Way(s, it));
      }
      forall e | e in t.inbox ensures GenuineList(t, e.0, e.1) {
        assert GenuineList(s, e.0, e.1);
      }
    }
  }

  lemma PoolFaithful(s: State, it: Item)
    requires Faithful(s) && Timely(s) && GenuineItem(s, it) && !s.cfg.mixOff
    ensures var t := EnqueueRelay(s, it); Faithful(t) && Timely(t) && OnlyMoved(s, t)
  {
    var t := EnqueueRelay(s, it);
    var pooled := it.(since := s.now);
    assert forall x | x in t.pool :: x in s.pool || x == pooled;
    forall e | e in t.inbox ensures GenuineList(t, e.0, e.1) {
      assert GenuineList(s, e.0, e.1);
    }
    forall d | d in t.delivered ensures InTime(t, d) {
      assert InTime(s, d);
    }
    forall p | p in t.jittered ensures HeldInTime(t, p) {
      assert HeldInTime(s, p);
    }
    forall x | x in t.pool ensures Waits(t, x) {
      if x != pooled { assert Waits(s, x); }
    }
  }

  lemma EnqueueFaithful(s: State, it: Item)
    requires Faithful(s) && Timely(s) && GenuineItem(s, it)
    ensures var t := EnqueueRelay(s, it); Faithful(t) && Timely(t) && OnlyMoved(s, t)
  {
    if s.cfg.mixOff {
      DeliverFaithful(s, it);
      hide Deliver, Faithful;
    } else {
      PoolFaithful(s, it);
    }
  }

  lemma {:induction false} EnqueueAllFaithful(s: State, items: seq<Item>)
    requires Faithful(s) && Timely(s) && forall it | it in items :: GenuineItem(s, it)
    ensures var t := EnqueueAll(s, items); Faithful(t) && Timely(t) && OnlyMoved(s, t)
    decreases |items|
  {
    if items != [] {
      EnqueueFaithful(s, items[0]);
      assert forall it | it in items[1..] :: it in items;
      hide EnqueueRelay, Faithful, Timely;
      EnqueueAllFaithful(EnqueueRelay(s, items[0]), items[1..]);
    }
  }

  lemma RequeueFaithful(s: State, a: Address, directTo: Option<Client>)
    requires Faithful(s) && Timely(s)
    ensures var t := Requeue(s, a, directTo); Faithful(t) && Timely(t) && OnlyMoved(s, t)
  {
    BoxGenuine(s, a);
    var t := s.(inbox := Delete(s.inbox, a));
    var items := Backlog(Box(s.inbox, a), a, directTo);
    forall it | it in items ensures GenuineItem(t, it) {
      var i :| 0 <= i < |items| && items[i] == it;
      assert Box(s.inbox, a)[i] in Box(s.inbox, a);
    }
    forall e | e in t.inbox ensures GenuineList(t, e.0, e.1) {
      assert GenuineList(s, e.0, e.1);
    }
    forall d | d in t.delivered ensures InTime(t, d) {
      assert InTime(s, d);
    }
    assert Timely(t) by {
      forall it | it in t.pool ensures Waits(t, it) { assert Waits(s, it); }
      forall p | p in t.jittered ensures HeldInTime(t, p) { assert HeldInTime(s, p); }
    }
    EnqueueAllFaithful(t, items);
  }

  // ---- Closing a window ----

  /** Mid-flush: the pool is spliced out and its timer cleared. */
  ghost predicate Flushing(s: State, batch: seq<Item>) {
    && Faithful(s) && s.pool == [] && s.timer.None?
    && (forall p | p in s.jittered :: HeldInTime(s, p))
    && (forall it | it in batch :: GenuineItem(s, it) && s.now <= it.since + s.cfg.window)
  }

  lemma ReleaseOneFaithful(s: State, batch: seq<Item>, delay: nat)
    requires Flushing(s, batch) && batch != [] && (s.cfg.jitter > 0 ==> delay < s.cfg.jitter)
    ensures var t := ReleaseOne(s, batch[0], delay); Flushing(t, batch[1..]) && OnlyMoved(s, t)
  {
    var it := batch[0];
    var t := ReleaseOne(s, it, delay);
    assert it in batch && forall x | x in batch[1..] :: x in batch;
    if s.cfg.jitter > 0 && !it.msg.group {
      var p := Pending(s.now + delay, it);
      assert forall x | x in t.jittered :: x in s.jittered || x == p;
      forall e | e in t.inbox ensures GenuineList(t, e.0, e.1) {
        assert GenuineList(s, e.0, e.1);
      }
      forall d | d in t.delivered ensures InTime(t, d) {
        assert InTime(s, d);
      }
    } else {
      DeliverFaithful(s, it);
      hide Deliver, Faithful;
    }
  }

  lemma {:induction false} ReleaseFaithful(s: State, batch: seq<Item>, delays: seq<nat>)
    requires Flushing(s, batch) && |delays| == |batch|
    requires s.cfg.jitter > 0 ==> forall k | 0 <= k < |delays| :: delays[k] < s.cfg.jitter
    ensures var t := Release(s, batch, delays); Flushing(t, []) && OnlyMoved(s, t)
    decreases |batch|
  {
    if batch == [] {
    } else {
      ReleaseOneFaithful(s, batch, delays[0]);
      hide ReleaseOne, Flushing;
      assert forall k | 0 <= k < |delays[1..]| :: delays[1..][k] == delays[k + 1];
      ReleaseFaithful(ReleaseOne(s, batch[0], delays[0]), batch[1..], delays[1..]);
    }
  }

  lemma EmptiedFlushing(s: State, batch: seq<Item>)
    requires Faithful(s) && Timely(s) && s.timer.Some? && s.timer.value <= s.now && multiset(batch) == multiset(s.pool)
    ensures Flushing(s.(pool := [], timer := None), batch)
  {
    var t := s.(pool := [], timer := None);
    forall it | it in batch ensures GenuineItem(t, it) && t.now <= it.since + t.cfg.window {
      assert it in multiset(batch);
      assert it in s.pool;
      assert Waits(s, it);
    }
    forall e | e in t.inbox ensures GenuineList(t, e.0, e.1) {
      assert GenuineList(s, e.0, e.1);
    }
    forall d | d in t.delivered ensures InTime(t, d) {
      assert InTime(s, d);
    }
    forall p | p in t.jittered ensures HeldInTime(t, p) {
      assert HeldInTime(s, p);
    }
  }

  lemma FlushedTimely(s: State)
    requires Flushing(s, [])
    ensures ScheduleMixFlush(s) == s && Faithful(s) && Timely(s)
  {
  }

  lemma FlushFaithful(s: State, picks: seq<nat>, delays: seq<nat>)
    requires Faithful(s) && Timely(s) && Enabled(s, FireMix(picks, delays))
    ensures var t := Step(s, FireMix(picks, delays)); Faithful(t) && Timely(t) && OnlyMoved(s, t) && t.pool == []
  {
    var batch := Shuffled(s.pool, picks);
    ShuffleKeeps(s.pool, picks);
    EmptiedFlushing(s, batch);
    hide Shuffled, Flushing, Faithful, Timely, Release;
    var emptied := s.(pool := [], timer := None);
    ReleaseFaithful(emptied, batch, delays);
    FlushedTimely(Release(emptied, batch, delays));
    ReleasePool(emptied, batch, delays);
  }

  lemma {:induction false} ReleasePool(s: State, batch: seq<Item>, delays: seq<nat>)
    requires |delays| == |batch|
    ensures Release(s, batch, delays).pool == s.pool
    decreases |batch|
  {
    if batch != [] {
      ReleasePool(ReleaseOne(s, batch[0], delays[0]), batch[1..], delays[1..]);
    }
  }

  // ---- Steps ----

  lemma AcceptFaithful(s: State, toPk: Address, kind: Kind)
    requires Faithful(s) && Timely(s)
    ensures var t := Accept(s, toPk, kind); Faithful(t) && Timely(t) && GenuineItem(t, NewItem(s, toPk, kind))
  {
    var t := Accept(s, toPk, kind);
    forall e | e in t.inbox ensures GenuineList(t, e.0, e.1) {
      assert GenuineList(s, e.0, e.1);
    }
    forall d | d in t.delivered ensures InTime(t, d) {
      assert InTime(s, d);
    }
    forall it | it in t.pool ensures GenuineItem(t, it) && Waits(t, it) {
      assert GenuineItem(s, it) && Waits(s, it);
    }
    forall p | p in t.jittered ensures GenuineItem(t, p.item) && HeldInTime(t, p) {
      assert GenuineItem(s, p.item) && HeldInTime(s, p);
    }
  }

  lemma JitterFaithful(s: State, k: nat)
    requires Faithful(s) && Timely(s) && k < |s.jittered|
    ensures var t := Deliver(s.(jittered := s.jittered[..k] + s.jittered[k + 1..]), s.jittered[k].item);
      Faithful(t) && Timely(t)
  {
    var t := s.(jittered := s.jittered[..k] + s.jittered[k + 1..]);
    assert s.jittered[k] in s.jittered;
    assert forall p | p in t.jittered :: p in s.jittered;
    forall e | e in t.inbox ensures GenuineList(t, e.0, e.1) {
      assert GenuineList(s, e.0, e.1);
    }
    forall d | d in t.delivered ensures InTime(t, d) {
      assert InTime(s, d);
    }
    assert Timely(t) by {
      forall it | it in t.pool ensures Waits(t, it) { assert Waits(s, it); }
      forall p | p in t.jittered ensures HeldInTime(t, p) { assert HeldInTime(s, p); }
    }
    var it := s.jittered[k].item;
    DeliverFaithful(t, it);
    hide Deliver, Faithful;
    var u := Deliver(t, it);
    forall x | x in u.pool ensures Waits(u, x) { assert Waits(t, x); }
    forall p | p in u.jittered ensures HeldInTime(u, p) { assert HeldInTime(t, p); }
  }

  lemma {:induction false} FreshKeeps(list: seq<Queued>, cutoff: int)
    ensures forall q | q in Fresh(list, cutoff) :: q in list
  {
    if list != [] {
      FreshKeeps(list[1..], cutoff);
      assert forall q | q in list[1..] :: q in list;
    }
  }

  lemma {:induction false} SweepGenuine(s: State, m: Inbox, cutoff: int)
    requires forall e | e in m :: GenuineList(s, e.0, e.1)
    ensures forall e | e in SweptInbox(m, cutoff) :: GenuineList(s, e.0, e.1)
  {
    if m != [] {
      assert forall e | e in m[1..] :: e in m;
      SweepGenuine(s, m[1..], cutoff);
      FreshKeeps(m[0].1, cutoff);
      assert m[0] in m;
      assert GenuineList(s, m[0].0, Fresh(m[0].1, cutoff));
    }
  }

  lemma SweepFaithful(s: State)
    requires Faithful(s) && Timely(s)
    ensures Faithful(Step(s, Sweep)) && Timely(Step(s, Sweep))
  {
    SweepGenuine(s, s.inbox, s.now - s.cfg.ttl);
    hide SweptInbox, SweptDrops;
    var t := Step(s, Sweep);
    forall e | e in t.inbox ensures GenuineList(t, e.0, e.1) {
      assert GenuineList(s, e.0, e.1);
    }
    forall d | d in t.delivered ensures InTime(t, d) {
      assert InTime(s, d);
    }
    forall it | it in t.pool ensures Waits(t, it) { assert Waits(s, it); }
    forall p | p in t.jittered ensures HeldInTime(t, p) { assert HeldInTime(s, p); }
  }

  /** Steps that touch no message and may let time pass up to the next timer. */
  lemma QuietFaithful(s: State, t: State)
    requires Faithful(s) && Timely(s)
    requires t == s.(now := t.now, known := t.known, alive := t.alive,
                     pk := t.pk, online := t.online, groups := t.groups)
    requires s.now <= t.now && (s.timer.Some? ==> t.now <= s.timer.value)
    requires forall k | 0 <= k < |s.jittered| :: t.now <= s.jittered[k].due
    ensures Faithful(t) && Timely(t)
  {
    forall e | e in t.inbox ensures GenuineList(t, e.0, e.1) {
      assert GenuineList(s, e.0, e.1);
    }
    forall d | d in t.delivered ensures InTime(t, d) {
      assert InTime(s, d);
    }
    forall it | it in t.pool ensures GenuineItem(t, it) && Waits(t, it) {
      assert GenuineItem(s, it) && Waits(s, it);
    }
    forall p | p in t.jittered ensures GenuineItem(t, p.item) && HeldInTime(t, p) {
      assert GenuineItem(s, p.item) && HeldInTime(s, p);
    }
  }

  lemma NotOverdue(s: State)
    requires Timely(s)
    ensures s.timer.Some? ==> s.now <= s.timer.value
    ensures forall k | 0 <= k < |s.jittered| :: s.now <= s.jittered[k].due
  {
    forall k | 0 <= k < |s.jittered| ensures s.now <= s.jittered[k].due {
      assert s.jittered[k] in s.jittered;
      assert HeldInTime(s, s.jittered[k]);
    }
  }

  lemma PublishFaithful(s: State, c: Client, a: Address)
    requires Faithful(s) && Timely(s)
    ensures var t := Requeue(Register(s, c, a), a, None); Faithful(t) && Timely(t)
  {
    NotOverdue(s);
    QuietFaithful(s, Register(s, c, a));
    hide Faithful, Timely, Requeue;
    RequeueFaithful(Register(s, c, a), a, None);
  }

  lemma SubscribeFaithful(s: State, c: Client, g: Address)
    requires Faithful(s) && Timely(s)
    ensures var t := Requeue(Subscribed(s, c, g), g, Some(c)); Faithful(t) && Timely(t)
  {
    NotOverdue(s);
    QuietFaithful(s, Subscribed(s, c, g));
    hide Faithful, Timely, Requeue;
    RequeueFaithful(Subscribed(s, c, g), g, Some(c));
  }

  lemma ConnectionFaithful(s: State, op: Op)
    requires Faithful(s) && Timely(s) && Enabled(s, op) && (op.Connect? || op.Die? || op.Close? || op.Tick?)
    ensures Faithful(Step(s, op)) && Timely(Step(s, op))
  {
    NotOverdue(s);
    hide Faithful, Timely;
    QuietFaithful(s, Step(s, op));
  }

  lemma StepFaithful(s: State, op: Op)
    requires Faithful(s) && Timely(s) && Enabled(s, op)
    ensures Faithful(Step(s, op)) && Timely(Step(s, op))
  {
    hide Faithful, Timely, Requeue, EnqueueRelay, Deliver, Release, ScheduleMixFlush, SweptInbox, SweptDrops,
         Register, Subscribed, Closed, HeldByOther, Accept, NewItem;
    match op
    case Publish(c, a) => PublishFaithful(s, c, a);
    case Subscribe(c, g) => SubscribeFaithful(s, c, g);
    case Send(toPk, kind) =>
      AcceptFaithful(s, toPk, kind);
      if kind != Cover {
        EnqueueFaithful(Accept(s, toPk, kind), NewItem(s, toPk, kind));
      }
    case FireMix(picks, delays) => FlushFaithful(s, picks, delays);
    case FireJitter(k) => JitterFaithful(s, k);
    case Sweep => SweepFaithful(s);
    case _ => ConnectionFaithful(s, op);
  }

  lemma {:induction false} RunFaithful(s: State, ops: seq<Op>)
    requires Faithful(s) && Timely(s) && AllEnabled(s, ops)
    ensures Faithful(Run(s, ops)) && Timely(Run(s, ops))
    decreases |ops|
  {
    if ops != [] {
      StepFaithful(s, ops[0]);
      hide Faithful, Timely, Step, Enabled;
      RunFaithful(Step(s, ops[0]), ops[1..]);
    }
  }

  lemma StartFaithful(cfg: Config, now: int)
    ensures Faithful(Start(cfg, now)) && Timely(Start(cfg, now))
  {
  }

  /**
   * On every run whatever was delivered reached a live connection and was accepted for that recipient in that mode, no
   * more than the retention time before, however often it was queued and pooled in between.
   */
  lemma DeliveredInTime(cfg: Config, now: int, ops: seq<Op>)
    requires AllEnabled(Start(cfg, now), ops)
    ensures var s := Run(Start(cfg, now), ops);
      forall d | d in s.delivered ::
        && d.msg.id < |s.accepted| && d.to != {}
        && s.accepted[d.msg.id].recipient == d.recipient && s.accepted[d.msg.id].group == d.msg.group
        && 0 <= d.at - s.accepted[d.msg.id].ts <= cfg.ttl
  {
    StartFaithful(cfg, now);
    RunFaithful(Start(cfg, now), ops);
    RunConfig(Start(cfg, now), ops);
    hide Run, Start, AllEnabled;
  }

  lemma StepConfig(s: State, op: Op)
    requires Enabled(s, op)
    ensures Step(s, op).cfg == s.cfg
  {
    match op
    case Publish(c, a) =>
      var r := Register(s, c, a);
      EnqueueAllConfig(r.(inbox := Delete(r.inbox, a)), Backlog(Box(r.inbox, a), a, None));
    case Subscribe(c, g) =>
      var r := Subscribed(s, c, g);
      EnqueueAllConfig(r.(inbox := Delete(r.inbox, g)), Backlog(Box(r.inbox, g), g, Some(c)));
    case FireMix(picks, delays) => ReleaseConfig(s.(pool := [], timer := None), Shuffled(s.pool, picks), delays);
    case _ =>
  }

  lemma {:induction false} EnqueueAllConfig(s: State, items: seq<Item>)
    ensures EnqueueAll(s, items).cfg == s.cfg
    decreases |items|
  {
    if items != [] {
      EnqueueAllConfig(EnqueueRelay(s, items[0]), items[1..]);
    }
  }

  lemma {:induction false} ReleaseConfig(s: State, batch: seq<Item>, delays: seq<nat>)
    requires |delays| == |batch|
    ensures Release(s, batch, delays).cfg == s.cfg
    decreases |batch|
  {
    if batch != [] {
      ReleaseConfig(ReleaseOne(s, batch[0], delays[0]), batch[1..], delays[1..]);
    }
  }

  lemma {:induction false} RunConfig(s: State, ops: seq<Op>)
    requires AllEnabled(s, ops)
    ensures Run(s, ops).cfg == s.cfg
    decreases |ops|
  {
    if ops != [] {
      StepConfig(s, ops[0]);
      hide Step, Enabled;
      RunConfig(Step(s, ops[0]), ops[1..]);
    }
  }

  /**
   * On every run the mix timer is armed exactly when the pool is not empty; no item stays in the pool longer than a
   * window, nor behind its jitter timer longer than a window and the jitter after it entered the pool, and group
   * traffic is never held back.
   */
  lemma WindowKept(cfg: Config, now: int, ops: seq<Op>)
    requires AllEnabled(Start(cfg, now), ops)
    ensures var s := Run(Start(cfg, now), ops);
      && (s.timer.Some? <==> s.pool != [])
      && (forall it | it in s.pool :: it.since <= s.now <= s.timer.value <= it.since + cfg.window)
      && (forall p | p in s.jittered :: !p.item.msg.group && s.now <= p.due <= p.item.since + cfg.window + cfg.jitter)
  {
    StartFaithful(cfg, now);
    RunFaithful(Start(cfg, now), ops);
    RunConfig(Start(cfg, now), ops);
    hide Run, Start, AllEnabled;
  }

  // ---- The window is measured from its first message ----

  ghost predicate Opened(s: State) {
    && (s.timer.Some? <==> s.pool != [])
    && (s.pool != [] ==> s.timer == Some(s.pool[0].since + s.cfg.window))
    && (s.cfg.mixOff ==> s.pool == [])
  }

  lemma DeliverPool(s: State, it: Item)
    ensures var t := Deliver(s, it); t.pool == s.pool && t.timer == s.timer && t.cfg == s.cfg
  {
    hide Box, Set, Way;
  }

  lemma EnqueueOpened(s: State, it: Item)
    requires Opened(s)
    ensures Opened(EnqueueRelay(s, it))
  {
    DeliverPool(s, it);
    hide Deliver;
  }

  lemma {:induction false} EnqueueAllOpened(s: State, items: seq<Item>)
    requires Opened(s)
    ensures Opened(EnqueueAll(s, items))
    decreases |items|
  {
    if items != [] {
      EnqueueOpened(s, items[0]);
      hide EnqueueRelay, Opened;
      EnqueueAllOpened(EnqueueRelay(s, items[0]), items[1..]);
    }
  }

  lemma {:induction false} ReleaseLeavesPool(s: State, batch: seq<Item>, delays: seq<nat>)
    requires |delays| == |batch|
    ensures var t := Release(s, batch, delays); t.pool == s.pool && t.timer == s.timer && t.cfg == s.cfg
    decreases |batch|
  {
    if batch != [] {
      DeliverPool(s, batch[0]);
      hide Deliver;
      ReleaseLeavesPool(ReleaseOne(s, batch[0], delays[0]), batch[1..], delays[1..]);
    }
  }

  lemma RequeueOpened(s: State, a: Address, directTo: Option<Client>)
    requires Opened(s)
    ensures Opened(Requeue(s, a, directTo))
  {
    hide Box, Delete;
    EnqueueAllOpened(s.(inbox := Delete(s.inbox, a)), Backlog(Box(s.inbox, a), a, directTo));
  }

  lemma StepOpened(s: State, op: Op)
    requires Opened(s) && Enabled(s, op)
    ensures Opened(Step(s, op))
  {
    hide Requeue, EnqueueRelay, Deliver, Release, Shuffled;
    match op
    case Publish(c, a) => if !HeldByOther(s, c, a) { RequeueOpened(Register(s, c, a), a, None); }
    case Subscribe(c, g) => RequeueOpened(Subscribed(s, c, g), g, Some(c));
    case Send(toPk, kind) => if kind != Cover { EnqueueOpened(Accept(s, toPk, kind), NewItem(s, toPk, kind)); }
    case FireMix(picks, delays) =>
      ReleaseLeavesPool(s.(pool := [], timer := None), Shuffled(s.pool, picks), delays);
    case FireJitter(k) =>
      DeliverPool(s.(jittered := s.jittered[..k] + s.jittered[k + 1..]), s.jittered[k].item);
    case _ =>
  }

  lemma {:induction false} RunOpened(s: State, ops: seq<Op>)
    requires Opened(s) && AllEnabled(s, ops)
    ensures Opened(Run(s, ops))
    decreases |ops|
  {
    if ops != [] {
      StepOpened(s, ops[0]);
      hide Step, Enabled, Opened;
      RunOpened(Step(s, ops[0]), ops[1..]);
    }
  }

  /** On every run a window closes exactly its length after the first message in it came, which waits all of it. */
  lemma WindowFromFirst(cfg: Config, now: int, ops: seq<Op>)
    requires AllEnabled(Start(cfg, now), ops)
    ensures var s := Run(Start(cfg, now), ops);
      s.pool != [] ==> s.timer == Some(s.pool[0].since + cfg.window)
  {
    RunOpened(Start(cfg, now), ops);
    RunConfig(Start(cfg, now), ops);
    hide Run, AllEnabled;
  }
}
