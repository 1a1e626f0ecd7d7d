/** Every accepted message is in exactly one place, on every run. */
module RelayConservation {
  import opened Common
  import opened OrderedMap
  import opened Shuffle
  import opened Relay

  function ItemIds(items: seq<Item>): (r: seq<nat>)
    ensures |r| == |items|
  {
    seq(|items|, i requires 0 <= i < |items| => items[i].msg.id)
  }

  function PendingIds(pending: seq<Pending>): (r: seq<nat>)
    ensures |r| == |pending|
  {
    seq(|pending|, i requires 0 <= i < |pending| => pending[i].item.msg.id)
  }

  function QueuedIds(list: seq<Queued>): (r: seq<nat>)
    ensures |r| == |list|
  {
    seq(|list|, i requires 0 <= i < |list| => list[i].msg.id)
  }

  function DeliveryIds(log: seq<Delivery>): (r: seq<nat>)
    ensures |r| == |log|
  {
    seq(|log|, i requires 0 <= i < |log| => log[i].msg.id)
  }

  function DropIds(log: seq<Drop>): (r: seq<nat>)
    ensures |r| == |log|
  {
    seq(|log|, i requires 0 <= i < |log| => log[i].id)
  }

  function Occurs(ids: seq<nat>, id: nat): nat {
    multiset(ids)[id]
  }

  function InInbox(inbox: Inbox, id: nat): nat {
    if inbox == [] then 0 else Occurs(QueuedIds(inbox[0].1), id) + InInbox(inbox[1..], id)
  }

  /** How often a message is found, over every place it can be. */
  function Copies(s: State, id: nat): nat {
    Occurs(ItemIds(s.pool), id) + Occurs(PendingIds(s.jittered), id) + InInbox(s.inbox, id)
      + Occurs(DeliveryIds(s.delivered), id) + Occurs(DropIds(s.dropped), id)
  }

  function One(id: nat, other: nat): nat {
    if id == other then 1 else 0
  }

  lemma OccursConcat(a: seq<nat>, b: seq<nat>, id: nat)
    ensures Occurs(a + b, id) == Occurs(a, id) + Occurs(b, id)
  {
  }

  lemma OccursOne(x: nat, id: nat)
    ensures Occurs([x], id) == One(id, x)
  {
  }

  lemma OccursAround(a: seq<nat>, x: nat, b: seq<nat>, id: nat)
    ensures Occurs(a + [x] + b, id) == Occurs(a + b, id) + One(id, x)
  {
    OccursConcat(a + [x], b, id);
    OccursConcat(a, [x], id);
    OccursConcat(a, b, id);
    OccursOne(x, id);
  }

  // ---- Inboxes ----

  lemma {:induction false} InboxConcat(m: Inbox, n: Inbox, id: nat)
    ensures InInbox(m + n, id) == InInbox(m, id) + InInbox(n, id)
  {
    if m == [] {
      assert m + n == n;
    } else {
      assert (m + n)[1..] == m[1..] + n;
      InboxConcat(m[1..], n, id);
    }
  }

  lemma InboxOne(e: (Address, seq<Queued>), id: nat)
    ensures InInbox([e], id) == Occurs(QueuedIds(e.1), id)
  {
    assert [e][1..] == [];
  }

  lemma InboxSplit(m: Inbox, i: nat, id: nat)
    requires i < |m|
    ensures InInbox(m, id) == InInbox(m[..i], id) + Occurs(QueuedIds(m[i].1), id) + InInbox(m[i + 1..], id)
  {
    hide InInbox, Occurs, QueuedIds;
    assert m == m[..i] + ([m[i]] + m[i + 1..]);
    InboxConcat(m[..i], [m[i]] + m[i + 1..], id);
    InboxConcat([m[i]], m[i + 1..], id);
    InboxOne(m[i], id);
  }

  lemma SetCopies(m: Inbox, a: Address, list: seq<Queued>, id: nat)
    ensures InInbox(Set(m, a, list), id) + Occurs(QueuedIds(Box(m, a)), id)
         == InInbox(m, id) + Occurs(QueuedIds(list), id)
  {
    var i := Find(m, a);
    var r := Set(m, a, list);
    assert Occurs(QueuedIds([]), id) == 0;
    hide InInbox, Occurs, QueuedIds;
    if i >= 0 {
      InboxSplit(m, i, id);
      InboxSplit(r, i, id);
      assert r[..i] == m[..i] && r[i + 1..] == m[i + 1..];
    } else {
      InboxConcat(m, [(a, list)], id);
      InboxOne((a, list), id);
    }
  }

  lemma DeleteCopies(m: Inbox, a: Address, id: nat)
    ensures InInbox(Delete(m, a), id) + Occurs(QueuedIds(Box(m, a)), id) == InInbox(m, id)
  {
    var i := Find(m, a);
    assert Occurs(QueuedIds([]), id) == 0;
    hide InInbox, Occurs, QueuedIds;
    if i >= 0 {
      InboxSplit(m, i, id);
      InboxConcat(m[..i], m[i + 1..], id);
    }
  }

  lemma QueuedFirst(q: Queued, rest: seq<Queued>, id: nat)
    ensures Occurs(QueuedIds([q] + rest), id) == One(id, q.msg.id) + Occurs(QueuedIds(rest), id)
  {
    assert QueuedIds([q] + rest) == [q.msg.id] + QueuedIds(rest);
    OccursConcat([q.msg.id], QueuedIds(rest), id);
    OccursOne(q.msg.id, id);
  }

  lemma DropFirst(d: Drop, rest: seq<Drop>, id: nat)
    ensures Occurs(DropIds([d] + rest), id) == One(id, d.id) + Occurs(DropIds(rest), id)
  {
    assert DropIds([d] + rest) == [d.id] + DropIds(rest);
    OccursConcat([d.id], DropIds(rest), id);
    OccursOne(d.id, id);
  }

  lemma {:induction false} FreshStale(list: seq<Queued>, cutoff: int, id: nat)
    ensures Occurs(QueuedIds(Fresh(list, cutoff)), id) + Occurs(DropIds(Stale(list, cutoff)), id)
         == Occurs(QueuedIds(list), id)
  {
    if list == [] {
      assert Occurs(QueuedIds([]), id) == 0 && Occurs(DropIds([]), id) == 0;
    } else {
      hide Occurs, QueuedIds, DropIds;
      var q, rest := list[0], list[1..];
      FreshStale(rest, cutoff, id);
      assert list == [q] + rest;
      QueuedFirst(q, rest, id);
      QueuedFirst(q, Fresh(rest, cutoff), id);
      DropFirst(Drop(q.msg.id, Swept), Stale(rest, cutoff), id);
      assert [] + Fresh(rest, cutoff) == Fresh(rest, cutoff) && [] + Stale(rest, cutoff) == Stale(rest, cutoff);
    }
  }

  lemma DropsConcat(a: seq<Drop>, b: seq<Drop>, id: nat)
    ensures Occurs(DropIds(a + b), id) == Occurs(DropIds(a), id) + Occurs(DropIds(b), id)
  {
    assert DropIds(a + b) == DropIds(a) + DropIds(b);
    OccursConcat(DropIds(a), DropIds(b), id);
  }

  lemma {:induction false} SweepCopies(m: Inbox, cutoff: int, id: nat)
    ensures InInbox(SweptInbox(m, cutoff), id) + Occurs(DropIds(SweptDrops(m, cutoff)), id) == InInbox(m, id)
  {
    if m != [] {
      SweepCopies(m[1..], cutoff, id);
      FreshStale(m[0].1, cutoff, id);
      DropsConcat(Stale(m[0].1, cutoff), SweptDrops(m[1..], cutoff), id);
      var kept := Fresh(m[0].1, cutoff);
      InboxOne((m[0].0, kept), id);
      InboxConcat([(m[0].0, kept)], SweptInbox(m[1..], cutoff), id);
      assert [] + SweptInbox(m[1..], cutoff) == SweptInbox(m[1..], cutoff);
      assert Occurs(QueuedIds([]), id) == 0;
      hide Occurs, QueuedIds, DropIds, Fresh, Stale;
    }
  }

  // ---- Moving one item ----

  lemma Dropped(s: State, more: seq<Drop>, id: nat)
    ensures Copies(s.(dropped := s.dropped + more), id) == Copies(s, id) + Occurs(DropIds(more), id)
  {
    DropsConcat(s.dropped, more, id);
    hide Occurs, InInbox;
  }

  lemma DroppedOne(s: State, d: Drop, id: nat)
    ensures Copies(s.(dropped := s.dropped + [d]), id) == Copies(s, id) + One(id, d.id)
  {
    Dropped(s, [d], id);
    assert DropIds([d]) == [d.id];
    OccursOne(d.id, id);
  }

  lemma Delivered(s: State, d: Delivery, id: nat)
    ensures Copies(s.(delivered := s.delivered + [d]), id) == Copies(s, id) + One(id, d.msg.id)
  {
    assert DeliveryIds(s.delivered + [d]) == DeliveryIds(s.delivered) + [d.msg.id];
    OccursConcat(DeliveryIds(s.delivered), [d.msg.id], id);
    OccursOne(d.msg.id, id);
    hide Occurs, InInbox;
  }

  lemma Pooled(s: State, it: Item, id: nat)
    ensures Copies(s.(pool := s.pool + [it]), id) == Copies(s, id) + One(id, it.msg.id)
  {
    assert ItemIds(s.pool + [it]) == ItemIds(s.pool) + [it.msg.id];
    OccursConcat(ItemIds(s.pool), [it.msg.id], id);
    OccursOne(it.msg.id, id);
    hide Occurs, InInbox;
  }

  lemma HeldBack(s: State, p: Pending, id: nat)
    ensures Copies(s.(jittered := s.jittered + [p]), id) == Copies(s, id) + One(id, p.item.msg.id)
  {
    assert PendingIds(s.jittered + [p]) == PendingIds(s.jittered) + [p.item.msg.id];
    OccursConcat(PendingIds(s.jittered), [p.item.msg.id], id);
    OccursOne(p.item.msg.id, id);
    hide Occurs, InInbox;
  }

  lemma QueueCopies(s: State, a: Address, msg: Message, ts: int, id: nat)
    ensures Copies(QueueMessage(s, a, msg, ts), id) == Copies(s, id) + One(id, msg.id)
  {
    match QueueFault(s, a)
    case Some(reason) =>
      DroppedOne(s, Drop(msg.id, reason), id);
    case None =>
      var list := Box(s.inbox, a);
      var more := list + [Queued(msg, ts)];
      SetCopies(s.inbox, a, more, id);
      assert QueuedIds(more) == QueuedIds(list) + [msg.id];
      OccursConcat(QueuedIds(list), [msg.id], id);
      OccursOne(msg.id, id);
      hide Occurs, InInbox, Set, Box, QueuedIds;
  }

  lemma DeliverCopies(s: State, it: Item, id: nat)
    ensures Copies(Deliver(s, it), id) == Copies(s, id) + One(id, it.msg.id)
  {
    hide Copies, QueueMessage;
    DroppedOne(s, Drop(it.msg.id, Expired), id);
    Delivered(s, Delivery(it.recipient, it.msg, s.now, Way(s, it)), id);
    QueueCopies(s, it.recipient, it.msg, it.ts, id);
  }

  lemma SameCopies(s: State, t: State, id: nat)
    requires s.pool == t.pool && s.jittered == t.jittered && s.inbox == t.inbox
    requires s.delivered == t.delivered && s.dropped == t.dropped
    ensures Copies(s, id) == Copies(t, id)
  {
  }

  lemma EnqueueCopies(s: State, it: Item, id: nat)
    ensures Copies(EnqueueRelay(s, it), id) == Copies(s, id) + One(id, it.msg.id)
  {
    hide Copies, Deliver;
    DeliverCopies(s, it, id);
    Pooled(s, it.(since := s.now), id);
    var t := s.(pool := s.pool + [it.(since := s.now)]);
    SameCopies(ScheduleMixFlush(t), t, id);
  }

  lemma {:induction false} EnqueueAllCopies(s: State, items: seq<Item>, id: nat)
    ensures Copies(EnqueueAll(s, items), id) == Copies(s, id) + Occurs(ItemIds(items), id)
    decreases |items|
  {
    if items == [] {
      assert ItemIds(items) == [];
    } else {
      EnqueueCopies(s, items[0], id);
      EnqueueAllCopies(EnqueueRelay(s, items[0]), items[1..], id);
      assert ItemIds(items) == [items[0].msg.id] + ItemIds(items[1..]);
      OccursConcat([items[0].msg.id], ItemIds(items[1..]), id);
      OccursOne(items[0].msg.id, id);
      hide Copies, EnqueueRelay, Occurs;
    }
  }

  lemma ReleaseOneCopies(s: State, it: Item, delay: nat, id: nat)
    ensures Copies(ReleaseOne(s, it, delay), id) == Copies(s, id) + One(id, it.msg.id)
  {
    hide Copies, Deliver;
    HeldBack(s, Pending(s.now + delay, it), id);
    DeliverCopies(s, it, id);
  }

  lemma {:induction false} ReleaseCopies(s: State, batch: seq<Item>, delays: seq<nat>, id: nat)
    requires |delays| == |batch|
    ensures Copies(Release(s, batch, delays), id) == Copies(s, id) + Occurs(ItemIds(batch), id)
    decreases |batch|
  {
    if batch == [] {
      assert ItemIds(batch) == [];
    } else {
      ReleaseOneCopies(s, batch[0], delays[0], id);
      ReleaseCopies(ReleaseOne(s, batch[0], delays[0]), batch[1..], delays[1..], id);
      assert ItemIds(batch) == [batch[0].msg.id] + ItemIds(batch[1..]);
      OccursConcat([batch[0].msg.id], ItemIds(batch[1..]), id);
      OccursOne(batch[0].msg.id, id);
      hide Copies, ReleaseOne, Occurs;
    }
  }

  // ---- Steps ----

  lemma RequeueCopies(s: State, a: Address, directTo: Option<Client>, id: nat)
    ensures Copies(Requeue(s, a, directTo), id) == Copies(s, id)
  {
    var list := Box(s.inbox, a);
    var items := Backlog(list, a, directTo);
    var t := s.(inbox := Delete(s.inbox, a));
    DeleteCopies(s.inbox, a, id);
    assert Copies(t, id) + Occurs(QueuedIds(list), id) == Copies(s, id);
    EnqueueAllCopies(t, items, id);
    assert ItemIds(items) == QueuedIds(list);
  }

  lemma SwapIds(b: seq<Item>, i: nat, j: nat)
    requires i < |b| && j < |b|
    ensures ItemIds(Swap(b, i, j)) == Swap(ItemIds(b), i, j)
  {
  }

  lemma {:induction false} ShuffleDownIds(b: seq<Item>, picks: seq<nat>, i: nat)
    requires Draws(picks, |b|) && i < |b|
    ensures ItemIds(ShuffleDown(b, picks, i)) == ShuffleDown(ItemIds(b), picks, i)
    decreases i
  {
    if i > 0 {
      SwapIds(b, i, picks[i]);
      hide Swap;
      ShuffleDownIds(Swap(b, i, picks[i]), picks, i - 1);
    }
  }

  lemma ShuffleIds(b: seq<Item>, picks: seq<nat>)
    requires Draws(picks, |b|)
    ensures multiset(ItemIds(Shuffled(b, picks))) == multiset(ItemIds(b))
  {
    if b != [] {
      ShuffleDownIds(b, picks, |b| - 1);
      ShuffleKeeps(ItemIds(b), picks);
    }
  }

  lemma FlushCopies(s: State, picks: seq<nat>, delays: seq<nat>, id: nat)
    requires Enabled(s, FireMix(picks, delays))
    ensures Copies(Step(s, FireMix(picks, delays)), id) == Copies(s, id)
  {
    var batch := Shuffled(s.pool, picks);
    var emptied := s.(pool := [], timer := None);
    ShuffleIds(s.pool, picks);
    assert Occurs(ItemIds([]), id) == 0;
    assert Copies(emptied, id) + Occurs(ItemIds(s.pool), id) == Copies(s, id);
    assert Occurs(ItemIds(batch), id) == Occurs(ItemIds(s.pool), id);
    hide Copies, Occurs, Release, Shuffled;
    ReleaseCopies(emptied, batch, delays, id);
    var released := Release(emptied, batch, delays);
    SameCopies(ScheduleMixFlush(released), released, id);
  }

  lemma JitterCopies(s: State, k: nat, id: nat)
    requires k < |s.jittered|
    ensures Copies(Deliver(s.(jittered := s.jittered[..k] + s.jittered[k + 1..]), s.jittered[k].item), id)
         == Copies(s, id)
  {
    var p := s.jittered;
    var t := s.(jittered := p[..k] + p[k + 1..]);
    assert PendingIds(p) == PendingIds(p[..k]) + [p[k].item.msg.id] + PendingIds(p[k + 1..]);
    assert PendingIds(t.jittered) == PendingIds(p[..k]) + PendingIds(p[k + 1..]);
    OccursAround(PendingIds(p[..k]), p[k].item.msg.id, PendingIds(p[k + 1..]), id);
    hide Occurs, InInbox, Deliver;
    DeliverCopies(t, p[k].item, id);
  }

  lemma ExpireCopies(s: State, id: nat)
    ensures Copies(Step(s, Sweep), id) == Copies(s, id)
  {
    var cutoff := s.now - s.cfg.ttl;
    var more := SweptDrops(s.inbox, cutoff);
    SweepCopies(s.inbox, cutoff, id);
    hide SweptInbox, SweptDrops, InInbox, Occurs, DropIds;
    var t := s.(inbox := SweptInbox(s.inbox, cutoff));
    Dropped(t, more, id);
    assert Step(s, Sweep) == t.(dropped := t.dropped + more);
  }

  /** Whether a step accepts the message of this number. */
  predicate Enters(s: State, op: Op, id: nat) {
    op.Send? && op.kind != Cover && id == |s.accepted|
  }

  lemma StepCopies(s: State, op: Op, id: nat)
    requires Enabled(s, op)
    ensures Copies(Step(s, op), id) == Copies(s, id) + if Enters(s, op, id) then 1 else 0
  {
    hide Copies, Requeue, EnqueueRelay, Deliver, Release, ScheduleMixFlush, SweptInbox, SweptDrops;
    match op
    case Publish(c, a) =>
      SameCopies(Register(s, c, a), s, id);
      RequeueCopies(Register(s, c, a), a, None, id);
    case Subscribe(c, g) =>
      SameCopies(Subscribed(s, c, g), s, id);
      RequeueCopies(Subscribed(s, c, g), g, Some(c), id);
    case Send(toPk, kind) =>
      SameCopies(Accept(s, toPk, kind), s, id);
      EnqueueCopies(Accept(s, toPk, kind), NewItem(s, toPk, kind), id);
    case FireMix(picks, delays) => FlushCopies(s, picks, delays, id);
    case FireJitter(k) => JitterCopies(s, k, id);
    case Sweep => ExpireCopies(s, id);
    case _ => SameCopies(Step(s, op), s, id);
  }

  lemma {:induction false} EnqueueAllAccepts(s: State, items: seq<Item>)
    ensures EnqueueAll(s, items).accepted == s.accepted
    decreases |items|
  {
    if items != [] {
      EnqueueAllAccepts(EnqueueRelay(s, items[0]), items[1..]);
    }
  }

  lemma {:induction false} ReleaseAccepts(s: State, batch: seq<Item>, delays: seq<nat>)
    requires |delays| == |batch|
    ensures Release(s, batch, delays).accepted == s.accepted
    decreases |batch|
  {
    if batch != [] {
      ReleaseAccepts(ReleaseOne(s, batch[0], delays[0]), batch[1..], delays[1..]);
    }
  }

  lemma StepAccepts(s: State, op: Op)
    requires Enabled(s, op)
    ensures Step(s, op).accepted == if op.Send? && op.kind != Cover
      then s.accepted + [Accepted(op.toPk, op.kind == Group, s.now)] else s.accepted
  {
    match op
    case Publish(c, a) =>
      var r := Register(s, c, a);
      EnqueueAllAccepts(r.(inbox := Delete(r.inbox, a)), Backlog(Box(r.inbox, a), a, None));
    case Subscribe(c, g) =>
      var r := Subscribed(s, c, g);
      EnqueueAllAccepts(r.(inbox := Delete(r.inbox, g)), Backlog(Box(r.inbox, g), g, Some(c)));
    case FireMix(picks, delays) =>
      ReleaseAccepts(s.(pool := [], timer := None), Shuffled(s.pool, picks), delays);
    case _ =>
  }

  ghost predicate Conserved(s: State) {
    forall id: nat :: Copies(s, id) == if id < |s.accepted| then 1 else 0
  }

  lemma StepConserved(s: State, op: Op)
    requires Conserved(s) && Enabled(s, op)
    ensures Conserved(Step(s, op))
  {
    StepAccepts(s, op);
    hide Copies, Step, Enabled;
    forall id: nat ensures Copies(Step(s, op), id) == if id < |Step(s, op).accepted| then 1 else 0 {
      StepCopies(s, op, id);
    }
  }

  lemma {:induction false} RunConserved(s: State, ops: seq<Op>)
    requires Conserved(s) && AllEnabled(s, ops)
    ensures Conserved(Run(s, ops))
    decreases |ops|
  {
    if ops != [] {
      StepConserved(s, ops[0]);
      hide Conserved, Step, Enabled;
      RunConserved(Step(s, ops[0]), ops[1..]);
    }
  }

  lemma StartConserved(cfg: Config, now: int)
    ensures Conserved(Start(cfg, now))
  {
  }

  /**
   * On every run each accepted message is in the mix pool, behind a jitter timer, in an inbox, delivered or dropped:
   * in exactly one of these, and once.
   */
  lemma Conservation(cfg: Config, now: int, ops: seq<Op>, id: nat)
    requires AllEnabled(Start(cfg, now), ops)
    requires id < |Run(Start(cfg, now), ops).accepted|
    ensures var s := Run(Start(cfg, now), ops);
      Occurs(ItemIds(s.pool), id) + Occurs(PendingIds(s.jittered), id) + InInbox(s.inbox, id)
        + Occurs(DeliveryIds(s.delivered), id) + Occurs(DropIds(s.dropped), id) == 1
  {
    StartConserved(cfg, now);
    RunConserved(Start(cfg, now), ops);
    hide Run, Start, AllEnabled;
    var s := Run(Start(cfg, now), ops);
    assert Copies(s, id) == 1;
  }
}
