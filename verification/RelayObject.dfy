/** The relay's mutable tables, each operation tied to its step of module Relay. */
module RelayObject {
  import opened Common
  import opened OrderedMap
  import opened Shuffle
  import opened Relay

  class RelayServer {
    const cfg: Config
    var now: int
    var known: set<Client>
    var alive: set<Client>
    var pk: map<Client, Address>
    var online: map<Address, Client>
    var groups: map<Address, set<Client>>
    var inbox: Inbox
    var mixPool: seq<Item>
    var mixTimer: Option<int>
    var jittered: seq<Pending>
    var relayedCount: nat
    ghost var accepted: seq<Accepted>
    ghost var delivered: seq<Delivery>
    ghost var dropped: seq<Drop>

    ghost function View(): State
      reads this
    {
      State(cfg, now, known, alive, pk, online, groups, inbox, mixPool, mixTimer, jittered,
            accepted, delivered, dropped)
    }

    ghost predicate Valid()
      reads this
    {
      relayedCount == |accepted|
    }

    constructor (cfg: Config, time: int)
      ensures Valid() && View() == Start(cfg, time)
    {
      this.cfg, now := cfg, time;
      known, alive, pk, online, groups := {}, {}, map[], map[], map[];
      inbox, mixPool, mixTimer, jittered, relayedCount := [], [], None, [], 0;
      accepted, delivered, dropped := [], [], [];
    }

    method QueueMessage(toPk: Address, msg: Message, ts: int) returns (error: Option<Reason>)
      modifies this`inbox, this`dropped
      ensures View() == Relay.QueueMessage(old(View()), toPk, msg, ts) && error == QueueFault(old(View()), toPk)
    {
      error := None;
      var list := Box(inbox, toPk);
      if cfg.ephemeral {
        error := Some(Ephemeral);
      } else if |list| >= MAX_QUEUE_PER_RECIPIENT {
        error := Some(QueueFull);
      } else if !Has(inbox, toPk) && |inbox| >= MAX_QUEUED_RECIPIENTS {
        error := Some(RelayFull);
      }
      if error.Some? {
        dropped := dropped + [Drop(msg.id, error.value)];
        return;
      }
      list := list + [Queued(msg, ts)];
      inbox := Set(inbox, toPk, list);
    }

    method DeliverMixed(it: Item) returns (error: Option<Reason>)
      modifies this`inbox, this`dropped, this`delivered
      ensures View() == Deliver(old(View()), it) && error == Refusal(old(View()), it)
    {
      if now - it.ts > cfg.ttl {
        dropped := dropped + [Drop(it.msg.id, Expired)];
        return Some(Expired);
      }
      var targets: set<Client>;
      if it.directTo.Some? {
        targets := {it.directTo.value};
      } else if it.msg.group {
        targets := if it.recipient in groups then groups[it.recipient] else {};
      } else {
        targets := if it.recipient in online then {online[it.recipient]} else {};
      }
      targets := targets * alive;
      if targets == {} {
        error := QueueMessage(it.recipient, it.msg, it.ts);
        return;
      }
      delivered := delivered + [Delivery(it.recipient, it.msg, now, targets)];
      error := None;
    }

    method ScheduleMixFlush()
      modifies this`mixTimer
      ensures View() == Relay.ScheduleMixFlush(old(View()))
    {
      if mixTimer.Some? || |mixPool| == 0 || cfg.mixOff {
        return;
      }
      mixTimer := Some(now + cfg.window);
    }

    method EnqueueRelay(it: Item) returns (error: Option<Reason>)
      modifies this`inbox, this`dropped, this`delivered, this`mixPool, this`mixTimer
      ensures View() == Relay.EnqueueRelay(old(View()), it)
      ensures error == if cfg.mixOff then Refusal(old(View()), it) else None
    {
      if cfg.mixOff {
        error := DeliverMixed(it);
        return;
      }
      mixPool := mixPool + [it.(since := now)];
      ScheduleMixFlush();
      error := None;
    }

    /** Everything queued for an address goes back into the relay. */
    method FlushBacklog(a: Address, directTo: Option<Client>)
      modifies this`inbox, this`dropped, this`delivered, this`mixPool, this`mixTimer
      ensures View() == Requeue(old(View()), a, directTo)
    {
      var queued := Box(inbox, a);
      inbox := Delete(inbox, a);
      ghost var items := Backlog(queued, a, directTo);
      ghost var goal := EnqueueAll(View(), items);
      var k := 0;
      while k < |queued|
        invariant 0 <= k <= |queued|
        invariant EnqueueAll(View(), items[k..]) == goal
      {
        assert items[k..][1..] == items[k + 1..];
        var _ := EnqueueRelay(Item(a, queued[k].msg, queued[k].ts, directTo, 0));
        k := k + 1;
      }
    }

    method Release(batch: array<Item>, delays: seq<nat>)
      requires |delays| == batch.Length
      modifies this`inbox, this`dropped, this`delivered, this`jittered
      ensures View() == Relay.Release(old(View()), batch[..], delays)
    {
      ghost var all := batch[..];
      ghost var goal := Relay.Release(View(), all, delays);
      var k := 0;
      while k < batch.Length
        invariant 0 <= k <= batch.Length
        invariant Relay.Release(View(), all[k..], delays[k..]) == goal
      {
        assert all[k..][1..] == all[k + 1..] && delays[k..][1..] == delays[k + 1..];
        if cfg.jitter > 0 && !batch[k].msg.group {
          jittered := jittered + [Pending(now + delays[k], batch[k])];
        } else {
          var _ := DeliverMixed(batch[k]);
        }
        k := k + 1;
      }
    }

    method FlushMixBatch(picks: seq<nat>, delays: seq<nat>)
      requires Draws(picks, |mixPool|) && |delays| == |mixPool|
      modifies this`inbox, this`dropped, this`delivered, this`jittered, this`mixPool
      ensures View() == Relay.Release(old(View()).(pool := []), Shuffled(old(mixPool), picks), delays)
    {
      var pool := mixPool;
      var batch := new Item[|pool|](i requires 0 <= i < |pool| => pool[i]);
      assert batch[..] == pool;
      mixPool := [];
      ShuffleInPlace(batch, picks);
      Release(batch, delays);
    }

    method OnMixTimer(picks: seq<nat>, delays: seq<nat>)
      requires Enabled(View(), FireMix(picks, delays))
      modifies this
      ensures View() == Step(old(View()), FireMix(picks, delays)) && relayedCount == old(relayedCount)
    {
      hide Relay.Release, Shuffled;
      mixTimer := None;
      FlushMixBatch(picks, delays);
      ScheduleMixFlush();
    }

    method OnJitterTimer(k: nat)
      requires Enabled(View(), FireJitter(k))
      modifies this`inbox, this`dropped, this`delivered, this`jittered
      ensures View() == Step(old(View()), FireJitter(k))
    {
      hide Deliver;
      var it := jittered[k].item;
      jittered := jittered[..k] + jittered[k + 1..];
      var _ := DeliverMixed(it);
    }

    method Register(c: Client, address: Address)
      modifies this`pk, this`online
      ensures View() == Relay.Register(old(View()), c, address)
    {
      if c in pk && pk[c] != address && pk[c] in online && online[pk[c]] == c {
        online := online - {pk[c]};
      }
      pk := pk[c := address];
      online := online[address := c];
    }

    /** The part of a publish after the key graph has loaded and the bundle has been verified. */
    method Publish(c: Client, address: Address) returns (ok: bool)
      requires c in known
      modifies this
      ensures View() == Step(old(View()), Op.Publish(c, address)) && relayedCount == old(relayedCount)
      ensures ok <==> !HeldByOther(old(View()), c, address)
    {
      hide Requeue, Relay.Register;
      if address in online && online[address] != c && online[address] in alive {
        return false;
      }
      Register(c, address);
      FlushBacklog(address, None);
      ok := true;
    }

    method Subscribe(c: Client, group: Address)
      requires c in known
      modifies this
      ensures View() == Step(old(View()), Op.Subscribe(c, group)) && relayedCount == old(relayedCount)
    {
      hide Requeue;
      var subs := if group in groups then groups[group] else {};
      groups := groups[group := subs + {c}];
      FlushBacklog(group, Some(c));
    }

    method Send(toPk: Address, kind: Kind) returns (error: Option<Reason>)
      requires Valid()
      modifies this
      ensures Valid() && View() == Step(old(View()), Op.Send(toPk, kind))
      ensures error == if kind == Cover || !cfg.mixOff then None
        else Refusal(Accept(old(View()), toPk, kind), NewItem(old(View()), toPk, kind))
    {
      hide Relay.EnqueueRelay, Refusal;
      if kind == Cover {
        return None;
      }
      var msg := Message(relayedCount, kind == Group);
      relayedCount := relayedCount + 1;
      accepted := accepted + [Accepted(toPk, kind == Group, now)];
      error := EnqueueRelay(Item(toPk, msg, now, None, 0));
    }

    method DropClient(c: Client)
      requires Enabled(View(), Close(c))
      modifies this`online, this`groups
      ensures View() == Step(old(View()), Close(c))
      ensures (forall a | a in online && c in pk && a == pk[c] :: online[a] != c)
      ensures forall g | g in groups :: c !in groups[g]
    {
      if c in pk && pk[c] in online && online[pk[c]] == c {
        online := online - {pk[c]};
      }
      groups := map g | g in groups :: groups[g] - {c};
    }

    method SweepExpired()
      modifies this`inbox, this`dropped
      ensures View() == Step(old(View()), Op.Sweep)
    {
      hide Fresh, Stale;
      var cutoff := now - cfg.ttl;
      ghost var was := inbox;
      ghost var lost := dropped;
      var swept: Inbox := [];
      var k := 0;
      while k < |inbox|
        invariant 0 <= k <= |inbox| && inbox == was
        invariant swept + SweptInbox(inbox[k..], cutoff) == SweptInbox(was, cutoff)
        invariant dropped + SweptDrops(inbox[k..], cutoff) == lost + SweptDrops(was, cutoff)
      {
        var (a, list) := inbox[k];
        assert inbox[k..][1..] == inbox[k + 1..];
        var kept := Fresh(list, cutoff);
        dropped := dropped + Stale(list, cutoff);
        if kept != [] {
          swept := swept + [(a, kept)];
        }
        k := k + 1;
      }
      inbox := swept;
    }
  }
}
