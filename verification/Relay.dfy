/**
 * The relay as a state and its steps. Every send accepted for relay has a number, its place in the acceptance log,
 * which stands for its envelope; the logs of deliveries and drops record what left the relay.
 */
module Relay {
  import opened Common
  import opened OrderedMap
  import opened Shuffle

  type Address = string

  /** A connection; its number is never reused. */
  type Client = nat

  const MAX_QUEUE_PER_RECIPIENT: nat := 100
  const MAX_QUEUED_RECIPIENTS: nat := 10000

  datatype Config = Config(mixOff: bool, ephemeral: bool, window: nat, jitter: nat, ttl: nat)

  datatype Message = Message(id: nat, group: bool)

  /** What an inbox list holds. */
  datatype Queued = Queued(msg: Message, ts: int)

  /** An item on its way; `since` records when it entered the mix pool. */
  datatype Item = Item(recipient: Address, msg: Message, ts: int, directTo: Option<Client>, since: int)

  datatype Pending = Pending(due: int, item: Item)

  datatype Reason = Expired | Ephemeral | QueueFull | RelayFull | Swept

  datatype Accepted = Accepted(recipient: Address, group: bool, ts: int)

  datatype Delivery = Delivery(recipient: Address, msg: Message, at: int, to: set<Client>)

  datatype Drop = Drop(id: nat, reason: Reason)

  type Inbox = seq<(Address, seq<Queued>)>

  datatype State = State(
    cfg: Config, now: int, known: set<Client>, alive: set<Client>,
    pk: map<Client, Address>, online: map<Address, Client>, groups: map<Address, set<Client>>,
    inbox: Inbox, pool: seq<Item>, timer: Option<int>, jittered: seq<Pending>,
    accepted: seq<Accepted>, delivered: seq<Delivery>, dropped: seq<Drop>)

  datatype Kind = Pair | Group | Cover

  datatype Op =
    | Connect(client: Client)
    | Die(client: Client)
    | Close(client: Client)
    | Publish(client: Client, address: Address)
    | Subscribe(client: Client, group: Address)
    | Send(toPk: Address, kind: Kind)
    | Tick(time: int)
    | FireMix(picks: seq<nat>, delays: seq<nat>)
    | FireJitter(k: nat)
    | Sweep

  // ---- Queueing ----

  function Box(inbox: Inbox, a: Address): seq<Queued> {
    if Has(inbox, a) then Get(inbox, a) else []
  }

  function QueueFault(s: State, toPk: Address): Option<Reason> {
    if s.cfg.ephemeral then Some(Ephemeral)
    else if |Box(s.inbox, toPk)| >= MAX_QUEUE_PER_RECIPIENT then Some(QueueFull)
    else if !Has(s.inbox, toPk) && |s.inbox| >= MAX_QUEUED_RECIPIENTS then Some(RelayFull)
    else None
  }

  function QueueMessage(s: State, toPk: Address, msg: Message, ts: int): State {
    match QueueFault(s, toPk)
    case Some(reason) => s.(dropped := s.dropped + [Drop(msg.id, reason)])
    case None => s.(inbox := Set(s.inbox, toPk, Box(s.inbox, toPk) + [Queued(msg, ts)]))
  }

  // ---- Delivering ----

  function Listed(groups: map<Address, set<Client>>, g: Address): set<Client> {
    if g in groups then groups[g] else {}
  }

  function Holder(online: map<Address, Client>, a: Address): set<Client> {
    if a in online then {online[a]} else {}
  }

  /** The live connections an item goes to now. */
  function Way(s: State, it: Item): set<Client> {
    match it.directTo
    case Some(c) => {c} * s.alive
    case None => (if it.msg.group then Listed(s.groups, it.recipient) else Holder(s.online, it.recipient)) * s.alive
  }

  function Deliver(s: State, it: Item): State {
    if s.now - it.ts > s.cfg.ttl then s.(dropped := s.dropped + [Drop(it.msg.id, Expired)])
    else if Way(s, it) != {} then s.(delivered := s.delivered + [Delivery(it.recipient, it.msg, s.now, Way(s, it))])
    else QueueMessage(s, it.recipient, it.msg, it.ts)
  }

  /** Why an item is not taken, if it is not. */
  function Refusal(s: State, it: Item): Option<Reason> {
    if s.now - it.ts > s.cfg.ttl then Some(Expired)
    else if Way(s, it) != {} then None
    else QueueFault(s, it.recipient)
  }

  // ---- The mix pool ----

  function ScheduleMixFlush(s: State): State {
    if s.timer.Some? || s.pool == [] || s.cfg.mixOff then s else s.(timer := Some(s.now + s.cfg.window))
  }

  function EnqueueRelay(s: State, it: Item): State {
    if s.cfg.mixOff then Deliver(s, it)
    else ScheduleMixFlush(s.(pool := s.pool + [it.(since := s.now)]))
  }

  function EnqueueAll(s: State, items: seq<Item>): State
    decreases |items|
  {
    if items == [] then s else EnqueueAll(EnqueueRelay(s, items[0]), items[1..])
  }

  /** One item of a closed window: a pair item may be held back, a group item never is. */
  function ReleaseOne(s: State, it: Item, delay: nat): State {
    if s.cfg.jitter > 0 && !it.msg.group then s.(jittered := s.jittered + [Pending(s.now + delay, it)])
    else Deliver(s, it)
  }

  function Release(s: State, batch: seq<Item>, delays: seq<nat>): State
    requires |delays| == |batch|
    decreases |batch|
  {
    if batch == [] then s else Release(ReleaseOne(s, batch[0], delays[0]), batch[1..], delays[1..])
  }

  // ---- Requests ----

  function Backlog(list: seq<Queued>, a: Address, directTo: Option<Client>): (r: seq<Item>)
    ensures |r| == |list|
  {
    seq(|list|, i requires 0 <= i < |list| => Item(a, list[i].msg, list[i].ts, directTo, 0))
  }

  /** Emptying an inbox into the relay again, with the original receipt times. */
  function Requeue(s: State, a: Address, directTo: Option<Client>): State {
    EnqueueAll(s.(inbox := Delete(s.inbox, a)), Backlog(Box(s.inbox, a), a, directTo))
  }

  predicate HeldByOther(s: State, c: Client, a: Address) {
    a in s.online && s.online[a] != c && s.online[a] in s.alive
  }

  function Register(s: State, c: Client, a: Address): State {
    var online := if c in s.pk && s.pk[c] != a && s.pk[c] in s.online && s.online[s.pk[c]] == c
                  then s.online - {s.pk[c]} else s.online;
    s.(pk := s.pk[c := a], online := online[a := c])
  }

  function NewItem(s: State, toPk: Address, kind: Kind): Item {
    Item(toPk, Message(|s.accepted|, kind == Group), s.now, None, 0)
  }

  function Accept(s: State, toPk: Address, kind: Kind): State {
    s.(accepted := s.accepted + [Accepted(toPk, kind == Group, s.now)])
  }

  // ---- Expiry ----

  function Fresh(list: seq<Queued>, cutoff: int): seq<Queued> {
    if list == [] then []
    else (if list[0].ts >= cutoff then [list[0]] else []) + Fresh(list[1..], cutoff)
  }

  function Stale(list: seq<Queued>, cutoff: int): seq<Drop> {
    if list == [] then []
    else (if list[0].ts >= cutoff then [] else [Drop(list[0].msg.id, Swept)]) + Stale(list[1..], cutoff)
  }

  function SweptInbox(inbox: Inbox, cutoff: int): Inbox {
    if inbox == [] then []
    else
      var kept := Fresh(inbox[0].1, cutoff);
      (if kept == [] then [] else [(inbox[0].0, kept)]) + SweptInbox(inbox[1..], cutoff)
  }

  function SweptDrops(inbox: Inbox, cutoff: int): seq<Drop> {
    if inbox == [] then [] else Stale(inbox[0].1, cutoff) + SweptDrops(inbox[1..], cutoff)
  }

  // ---- Steps ----

  predicate Enabled(s: State, op: Op) {
    match op
    case Connect(c) => c !in s.known
    case Die(c) => c in s.alive
    case Close(c) => c in s.known && c !in s.alive
    case Publish(c, a) => c in s.known
    case Subscribe(c, g) => c in s.known
    case Send(_, _) => true
    case Tick(t) =>
      && s.now <= t && (s.timer.Some? ==> t <= s.timer.value)
      && forall k | 0 <= k < |s.jittered| :: t <= s.jittered[k].due
    case FireMix(picks, delays) =>
      && s.timer.Some? && s.timer.value <= s.now
      && Draws(picks, |s.pool|) && |delays| == |s.pool|
      && (s.cfg.jitter > 0 ==> forall k | 0 <= k < |delays| :: delays[k] < s.cfg.jitter)
    case FireJitter(k) => k < |s.jittered| && s.jittered[k].due <= s.now
    case Sweep => true
  }

  function Closed(s: State, c: Client): State {
    s.(online := if c in s.pk && s.pk[c] in s.online && s.online[s.pk[c]] == c then s.online - {s.pk[c]} else s.online,
       groups := map g | g in s.groups :: s.groups[g] - {c})
  }

  function Subscribed(s: State, c: Client, g: Address): State {
    s.(groups := s.groups[g := Listed(s.groups, g) + {c}])
  }

  function Step(s: State, op: Op): State
    requires Enabled(s, op)
  {
    match op
    case Connect(c) => s.(known := s.known + {c}, alive := s.alive + {c})
    case Die(c) => s.(alive := s.alive - {c})
    case Close(c) => Closed(s, c)
    case Publish(c, a) => if HeldByOther(s, c, a) then s else Requeue(Register(s, c, a), a, None)
    case Subscribe(c, g) => Requeue(Subscribed(s, c, g), g, Some(c))
    case Send(toPk, kind) => if kind == Cover then s else EnqueueRelay(Accept(s, toPk, kind), NewItem(s, toPk, kind))
    case Tick(t) => s.(now := t)
    case FireMix(picks, delays) =>
      ScheduleMixFlush(Release(s.(pool := [], timer := None), Shuffled(s.pool, picks), delays))
    case FireJitter(k) =>
      Deliver(s.(jittered := s.jittered[..k] + s.jittered[k + 1..]), s.jittered[k].item)
    case Sweep =>
      var cutoff := s.now - s.cfg.ttl;
      s.(inbox := SweptInbox(s.inbox, cutoff), dropped := s.dropped + SweptDrops(s.inbox, cutoff))
  }

  function Start(cfg: Config, now: int): State {
    State(cfg, now, {}, {}, map[], map[], map[], [], [], None, [], [], [], [])
  }

  ghost predicate AllEnabled(s: State, ops: seq<Op>)
    decreases |ops|
  {
    ops == [] || (Enabled(s, ops[0]) && AllEnabled(Step(s, ops[0]), ops[1..]))
  }

  function Run(s: State, ops: seq<Op>): State
    requires AllEnabled(s, ops)
    decreases |ops|
  {
    if ops == [] then s else Run(Step(s, ops[0]), ops[1..])
  }
}
