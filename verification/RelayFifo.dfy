/** With mixing off each recipient's traffic is a queue: delivered first what was accepted first, on every run. */
module RelayFifo {
  import opened Common
  import opened OrderedMap
  import opened Relay
  import opened RelayTiming
  import opened RelayRegistry

  /** The numbers of the waiting messages of one mode, in list order. */
  function QueuedOf(list: seq<Queued>, g: bool): seq<nat> {
    if list == [] then []
    else (if list[0].msg.group == g then [list[0].msg.id] else []) + QueuedOf(list[1..], g)
  }

  /** The numbers delivered for a recipient in one mode, in order of delivery. */
  function DeliveredOf(log: seq<Delivery>, a: Address, g: bool): seq<nat> {
    if log == [] then []
    else
      var d := log[|log| - 1];
      DeliveredOf(log[..|log| - 1], a, g) + if d.recipient == a && d.msg.group == g then [d.msg.id] else []
  }

  /** A recipient's line: what it was given, then what it still waits for. */
  function Line(s: State, a: Address, g: bool): seq<nat> {
    DeliveredOf(s.delivered, a, g) + QueuedOf(Box(s.inbox, a), g)
  }

  predicate Increasing(l: seq<nat>) {
    forall i, j | 0 <= i < j < |l| :: l[i] < l[j]
  }

  predicate Below(l: seq<nat>, n: nat) {
    forall i | 0 <= i < |l| :: l[i] < n
  }

  /** The live connections that stand for a recipient. */
  function Direct(s: State, a: Address, g: bool): set<Client> {
    (if g then Listed(s.groups, a) else Holder(s.online, a)) * s.alive
  }

  /** A line in acceptance order, and nobody in it waiting who could be served. */
  predicate Good(s: State, a: Address, g: bool) {
    && Increasing(Line(s, a, g)) && Below(Line(s, a, g), |s.accepted|)
    && (QueuedOf(Box(s.inbox, a), g) != [] ==> Direct(s, a, g) == {})
  }

  /** Connections are known before they hold or join anything, and nothing is held back. */
  ghost predicate Immediate(s: State) {
    && s.cfg.mixOff && s.pool == [] && s.timer.None? && s.jittered == []
    && Distinct(s.inbox) && s.alive <= s.known
    && (forall a :: Holder(s.online, a) <= s.known && Listed(s.groups, a) <= s.known)
  }

  ghost predicate Ordered(s: State) {
    Immediate(s) && forall a, g :: Good(s, a, g)
  }

  // ---- Lines ----

  lemma {:induction false} QueuedOfLast(list: seq<Queued>, q: Queued, g: bool)
    ensures QueuedOf(list + [q], g) == QueuedOf(list, g) + if q.msg.group == g then [q.msg.id] else []
  {
    if list == [] {
      assert [q][1..] == [];
    } else {
      assert (list + [q])[1..] == list[1..] + [q];
      QueuedOfLast(list[1..], q, g);
    }
  }

  lemma DeliveredOfLast(log: seq<Delivery>, d: Delivery, a: Address, g: bool)
    ensures DeliveredOf(log + [d], a, g)
         == DeliveredOf(log, a, g) + if d.recipient == a && d.msg.group == g then [d.msg.id] else []
  {
    assert (log + [d])[..|log|] == log;
  }

  lemma BoxSet(m: Inbox, a: Address, list: seq<Queued>, b: Address)
    ensures Box(Set(m, a, list), b) == if b == a then list else Box(m, b)
  {
    var r := Set(m, a, list);
    var i := Find(m, a);
    if i < 0 {
      assert r[..|m|] == m;
    } else {
      FindSet(m, i, (a, list), b);
    }
  }

  lemma {:induction false} FindSet(m: Inbox, i: nat, e: (Address, seq<Queued>), b: Address)
    requires i < |m| && m[i].0 == e.0
    ensures Find(m[i := e], b) == Find(m, b)
  {
    var n := |m| - 1;
    if i < n {
      assert m[i := e][..n] == m[..n][i := e];
      FindSet(m[..n], i, e, b);
    } else {
      assert m[i := e][..n] == m[..n];
    }
  }

  lemma FindUnique(m: Inbox, a: Address, i: nat)
    requires Distinct(m) && i < |m| && m[i].0 == a
    ensures Find(m, a) == i
  {
    var k := Find(m, a);
    assert k >= 0 && m[k].0 == m[i].0;
  }

  lemma BoxDelete(m: Inbox, a: Address, b: Address)
    requires Distinct(m)
    ensures Box(Delete(m, a), b) == if b == a then [] else Box(m, b)
  {
    var i := Find(m, a);
    var r := Delete(m, a);
    if i >= 0 {
      assert forall k | 0 <= k < |r| :: r[k] == m[if k < i then k else k + 1];
      if b == a {
        assert forall k | 0 <= k < |r| :: r[k].0 != a;
      } else if Has(m, b) {
        var j := Find(m, b);
        var k := if j < i then j else j - 1;
        assert r[k] == m[j];
        FindUnique(r, b, k);
      } else {
        assert forall k | 0 <= k < |r| :: r[k].0 != b;
      }
    }
  }

  lemma SkipMiddle(p: seq<nat>, x: nat, q: seq<nat>)
    requires Increasing(p + [x] + q)
    ensures Increasing(p + q)
  {
    var l, r := p + [x] + q, p + q;
    forall i, j | 0 <= i < j < |r| ensures r[i] < r[j] {
      assert r[i] == l[if i < |p| then i else i + 1] && r[j] == l[if j < |p| then j else j + 1];
    }
  }

  // ---- One item ----

  /** How one item's fate changes a line: not at all, or by its number at the end. */
  predicate Extends(l: seq<nat>, r: seq<nat>, x: nat) {
    r == l || r == l + [x]
  }

  lemma QueueLine(s: State, a: Address, msg: Message, ts: int, b: Address, g: bool)
    ensures var t := QueueMessage(s, a, msg, ts);
      && t.delivered == s.delivered
      && if (b, g) == (a, msg.group)
         then Extends(QueuedOf(Box(s.inbox, b), g), QueuedOf(Box(t.inbox, b), g), msg.id)
         else QueuedOf(Box(t.inbox, b), g) == QueuedOf(Box(s.inbox, b), g)
  {
    if QueueFault(s, a).None? {
      var list := Box(s.inbox, a);
      BoxSet(s.inbox, a, list + [Queued(msg, ts)], b);
      QueuedOfLast(list, Queued(msg, ts), g);
    }
  }

  lemma DeliverLine(s: State, it: Item, b: Address, g: bool)
    requires Way(s, it) != {} ==> QueuedOf(Box(s.inbox, it.recipient), it.msg.group) == []
    ensures if (b, g) == (it.recipient, it.msg.group)
            then Extends(Line(s, b, g), Line(Deliver(s, it), b, g), it.msg.id)
            else Line(Deliver(s, it), b, g) == Line(s, b, g)
    ensures QueuedOf(Box(Deliver(s, it).inbox, b), g) == QueuedOf(Box(s.inbox, b), g)
         || (Way(s, it) == {} && (b, g) == (it.recipient, it.msg.group))
  {
    hide QueueMessage, Box, QueuedOf, DeliveredOf;
    var d := Delivery(it.recipient, it.msg, s.now, Way(s, it));
    DeliveredOfLast(s.delivered, d, b, g);
    QueueLine(s, it.recipient, it.msg, it.ts, b, g);
    var q := QueuedOf(Box(s.inbox, b), g);
    assert DeliveredOf(s.delivered, b, g) + q + [it.msg.id] == DeliveredOf(s.delivered, b, g) + (q + [it.msg.id]);
  }

  lemma DeliverImmediate(s: State, it: Item)
    requires Immediate(s)
    ensures Immediate(Deliver(s, it)) && OnlyMoved(s, Deliver(s, it))
  {
  }

  // ---- Emptying an inbox ----

  /** Where items taken from a's inbox cannot go now. */
  predicate Blocked(s: State, a: Address, directTo: Option<Client>, g: bool) {
    (directTo.Some? ==> directTo.value !in s.alive) && Direct(s, a, g) == {}
  }

  /** Mid-way, for one line: some of a's list still in hand, every other line as good as ever. */
  predicate Fine(s: State, a: Address, directTo: Option<Client>, list: seq<Queued>, b: Address, g: bool) {
    Below(Line(s, b, g), |s.accepted|) &&
    if b != a then
      Increasing(Line(s, b, g)) && (QueuedOf(Box(s.inbox, b), g) != [] ==> Direct(s, b, g) == {})
    else
      && Increasing(Line(s, a, g) + QueuedOf(list, g)) && Below(QueuedOf(list, g), |s.accepted|)
      && (QueuedOf(Box(s.inbox, a), g) != [] ==> Blocked(s, a, directTo, g))
      && (directTo.Some? && directTo.value !in s.alive && QueuedOf(list, g) != [] ==> Direct(s, a, g) == {})
  }

  ghost predicate Emptying(s: State, a: Address, directTo: Option<Client>, list: seq<Queued>) {
    Immediate(s) && forall b, g :: Fine(s, a, directTo, list, b, g)
  }

  lemma QueuedOfFirst(list: seq<Queued>, g: bool)
    requires list != []
    ensures QueuedOf(list, g) == (if list[0].msg.group == g then [list[0].msg.id] else []) + QueuedOf(list[1..], g)
  {
  }

  lemma ExtendsKeeps(l: seq<nat>, r: seq<nat>, x: nat, rest: seq<nat>, n: nat)
    requires Extends(l, r, x) && Increasing(l + ([x] + rest)) && Below(l, n) && Below([x] + rest, n)
    ensures Increasing(r + rest) && Below(r, n) && Below(rest, n)
  {
    assert l + ([x] + rest) == l + [x] + rest;
    SkipMiddle(l, x, rest);
    assert ([x] + rest)[0] == x;
    forall i | 0 <= i < |rest| ensures rest[i] < n {
      assert ([x] + rest)[i + 1] == rest[i];
    }
  }

  lemma WayUnblocked(s: State, a: Address, directTo: Option<Client>, list: seq<Queued>)
    requires list != [] && Fine(s, a, directTo, list, a, list[0].msg.group)
    ensures var it := Item(a, list[0].msg, list[0].ts, directTo, 0);
      && (Way(s, it) != {} ==> QueuedOf(Box(s.inbox, a), it.msg.group) == [])
      && (Way(s, it) == {} ==> Blocked(s, a, directTo, it.msg.group))
  {
    var it := Item(a, list[0].msg, list[0].ts, directTo, 0);
    QueuedOfFirst(list, it.msg.group);
    hide QueuedOf, Box, Line, Listed, Holder;
    if directTo.Some? && directTo.value in s.alive {
      assert directTo.value in Way(s, it);
    }
  }

  /** What taking one more item off the list leaves of one line. */
  lemma EmptyOneLine(s: State, a: Address, directTo: Option<Client>, list: seq<Queued>, b: Address, g: bool)
    requires Immediate(s) && list != []
    requires Fine(s, a, directTo, list, a, list[0].msg.group) && Fine(s, a, directTo, list, b, g)
    ensures Fine(Deliver(s, Item(a, list[0].msg, list[0].ts, directTo, 0)), a, directTo, list[1..], b, g)
  {
    hide Deliver, Line, QueuedOf, Way, Immediate, Box, Listed, Holder, Increasing, Below;
    var it := Item(a, list[0].msg, list[0].ts, directTo, 0);
    WayUnblocked(s, a, directTo, list);
    DeliverLine(s, it, b, g);
    QueuedOfFirst(list, g);
    DeliverImmediate(s, it);
    var t := Deliver(s, it);
    assert Direct(t, b, g) == Direct(s, b, g);
    hide Direct;
    var rest := QueuedOf(list[1..], g);
    if b == a && g == it.msg.group {
      ExtendsKeeps(Line(s, b, g), Line(t, b, g), it.msg.id, rest, |s.accepted|);
    } else {
      assert [] + rest == rest;
    }
  }

  lemma EmptyOne(s: State, a: Address, directTo: Option<Client>, list: seq<Queued>)
    requires Emptying(s, a, directTo, list) && list != []
    ensures var t := Deliver(s, Item(a, list[0].msg, list[0].ts, directTo, 0));
      Emptying(t, a, directTo, list[1..]) && OnlyMoved(s, t)
  {
    var it := Item(a, list[0].msg, list[0].ts, directTo, 0);
    DeliverImmediate(s, it);
    hide Fine, Deliver, Immediate;
    forall b, g ensures Fine(Deliver(s, it), a, directTo, list[1..], b, g) {
      EmptyOneLine(s, a, directTo, list, b, g);
    }
  }

  lemma {:induction false} EmptyAll(s: State, a: Address, directTo: Option<Client>, list: seq<Queued>)
    requires Emptying(s, a, directTo, list)
    ensures var t := EnqueueAll(s, Backlog(list, a, directTo));
      Emptying(t, a, directTo, []) && OnlyMoved(s, t)
    decreases |list|
  {
    var items := Backlog(list, a, directTo);
    assert s.cfg.mixOff;
    if list != [] {
      assert items[1..] == Backlog(list[1..], a, directTo);
      EmptyOne(s, a, directTo, list);
      hide Deliver, Emptying;
      EmptyAll(Deliver(s, items[0]), a, directTo, list[1..]);
    }
  }

  lemma EmptiedGood(s: State, a: Address, directTo: Option<Client>, b: Address, g: bool)
    requires Fine(s, a, directTo, [], b, g)
    ensures Good(s, b, g)
  {
    assert Line(s, a, g) + QueuedOf([], g) == Line(s, a, g);
  }

  lemma EmptiedOrdered(s: State, a: Address, directTo: Option<Client>)
    requires Emptying(s, a, directTo, [])
    ensures Ordered(s)
  {
    hide Fine, Good, Immediate;
    forall b, g ensures Good(s, b, g) {
      EmptiedGood(s, a, directTo, b, g);
    }
  }

  lemma SplitBelow(p: seq<nat>, q: seq<nat>, n: nat)
    requires Below(p + q, n)
    ensures Below(p, n) && Below(q, n)
  {
    forall i | 0 <= i < |p| ensures p[i] < n { assert (p + q)[i] == p[i]; }
    forall i | 0 <= i < |q| ensures q[i] < n { assert (p + q)[|p| + i] == q[i]; }
  }

  /** A registry change for a: nobody else becomes reachable, nor a through a connection already gone. */
  predicate Reaches(s: State, r: State, a: Address, directTo: Option<Client>, b: Address, g: bool) {
    b != a || (directTo.Some? && directTo.value !in s.alive) ==> Direct(r, b, g) <= Direct(s, b, g)
  }

  lemma TakenLine(s: State, a: Address, b: Address, g: bool)
    requires Distinct(s.inbox)
    ensures var t := s.(inbox := Delete(s.inbox, a));
      && QueuedOf(Box(t.inbox, b), g) == (if b == a then [] else QueuedOf(Box(s.inbox, b), g))
      && Line(t, b, g) == (if b == a then DeliveredOf(s.delivered, a, g) else Line(s, b, g))
      && Line(s, a, g) == DeliveredOf(s.delivered, a, g) + QueuedOf(Box(s.inbox, a), g)
  {
    BoxDelete(s.inbox, a, b);
    hide Box, Delete, DeliveredOf;
    assert DeliveredOf(s.delivered, a, g) + [] == DeliveredOf(s.delivered, a, g);
  }

  lemma TakenFine(s: State, r: State, a: Address, directTo: Option<Client>, b: Address, g: bool)
    requires Distinct(s.inbox) && Good(s, b, g) && Good(s, a, g) && Reaches(s, r, a, directTo, b, g)
    requires r == s.(pk := r.pk, online := r.online, groups := r.groups)
    ensures Fine(r.(inbox := Delete(r.inbox, a)), a, directTo, Box(r.inbox, a), b, g)
  {
    var t := r.(inbox := Delete(r.inbox, a));
    TakenLine(s, a, b, g);
    TakenLine(r, a, b, g);
    assert Line(r, b, g) == Line(s, b, g) && Line(r, a, g) == Line(s, a, g) && Direct(t, b, g) == Direct(r, b, g);
    hide Line, Box, Delete, Direct, QueuedOf, DeliveredOf;
    SplitBelow(DeliveredOf(s.delivered, a, g), QueuedOf(Box(s.inbox, a), g), |s.accepted|);
  }

  lemma RequeueOrdered(s: State, r: State, a: Address, directTo: Option<Client>)
    requires Ordered(s) && Immediate(r) && forall b, g :: Reaches(s, r, a, directTo, b, g)
    requires r == s.(pk := r.pk, online := r.online, groups := r.groups)
    ensures Ordered(Requeue(r, a, directTo))
  {
    var t := r.(inbox := Delete(r.inbox, a));
    assert Immediate(t);
    hide Good, Fine, Reaches, EnqueueAll, Box, Delete, Direct;
    forall b, g ensures Fine(t, a, directTo, Box(r.inbox, a), b, g) {
      assert Reaches(s, r, a, directTo, b, g) && Good(s, b, g) && Good(s, a, g);
      TakenFine(s, r, a, directTo, b, g);
    }
    assert Emptying(t, a, directTo, Box(r.inbox, a));
    hide Emptying, Ordered, Immediate;
    EmptyAll(t, a, directTo, Box(r.inbox, a));
    EmptiedOrdered(EnqueueAll(t, Backlog(Box(r.inbox, a), a, directTo)), a, directTo);
  }

  // ---- Steps ----

  lemma PublishOrdered(s: State, c: Client, a: Address)
    requires Ordered(s) && c in s.known
    ensures Ordered(Requeue(Register(s, c, a), a, None))
  {
    var r := Register(s, c, a);
    assert Immediate(r) by {
      forall b ensures Holder(r.online, b) <= r.known && Listed(r.groups, b) <= r.known {
        assert Holder(s.online, b) <= s.known && Listed(s.groups, b) <= s.known;
      }
    }
    hide Good, Immediate, Ordered, Requeue;
    forall b, g ensures Reaches(s, r, a, None, b, g) {}
    RequeueOrdered(s, r, a, None);
  }

  lemma SubscribeOrdered(s: State, c: Client, g: Address)
    requires Ordered(s) && c in s.known
    ensures Ordered(Requeue(Subscribed(s, c, g), g, Some(c)))
  {
    var r := Subscribed(s, c, g);
    assert Immediate(r) by {
      forall b ensures Holder(r.online, b) <= r.known && Listed(r.groups, b) <= r.known {
        assert Holder(s.online, b) <= s.known && Listed(s.groups, b) <= s.known;
      }
    }
    hide Good, Immediate, Ordered, Requeue;
    forall b, m ensures Reaches(s, r, g, Some(c), b, m) {}
    RequeueOrdered(s, r, g, Some(c));
  }

  lemma SentGood(s: State, toPk: Address, kind: Kind, b: Address, g: bool)
    requires Immediate(s) && Good(s, toPk, kind == Group) && Good(s, b, g)
    ensures Good(EnqueueRelay(Accept(s, toPk, kind), NewItem(s, toPk, kind)), b, g)
  {
    var r, it := Accept(s, toPk, kind), NewItem(s, toPk, kind);
    assert Way(r, it) == Direct(s, toPk, kind == Group);
    assert Immediate(r);
    DeliverLine(r, it, b, g);
    DeliverImmediate(r, it);
    var t := Deliver(r, it);
    assert Line(r, b, g) == Line(s, b, g) && Direct(t, b, g) == Direct(s, b, g);
    hide Deliver, Line, Box, QueuedOf, Direct, Way, Immediate, Extends;
    assert EnqueueRelay(r, it) == t;
    LineAfter(Line(s, b, g), Line(t, b, g), |s.accepted|);
  }

  lemma LineAfter(l: seq<nat>, r: seq<nat>, n: nat)
    requires Increasing(l) && Below(l, n) && Extends(l, r, n)
    ensures Increasing(r) && Below(r, n + 1)
  {
  }

  lemma SendOrdered(s: State, toPk: Address, kind: Kind)
    requires Ordered(s)
    ensures Ordered(EnqueueRelay(Accept(s, toPk, kind), NewItem(s, toPk, kind)))
  {
    assert Immediate(Accept(s, toPk, kind));
    DeliverImmediate(Accept(s, toPk, kind), NewItem(s, toPk, kind));
    hide Good, Deliver, Accept, NewItem;
    forall b, g ensures Good(EnqueueRelay(Accept(s, toPk, kind), NewItem(s, toPk, kind)), b, g) {
      SentGood(s, toPk, kind, b, g);
    }
    hide Immediate;
  }

  lemma ConnectionOrdered(s: State, op: Op)
    requires Ordered(s) && Enabled(s, op) && (op.Connect? || op.Die? || op.Close? || op.Tick?)
    ensures Ordered(Step(s, op))
  {
    var t := Step(s, op);
    forall b ensures Holder(t.online, b) <= Holder(s.online, b) && Listed(t.groups, b) <= Listed(s.groups, b) {}
    assert Immediate(t) by {
      forall b ensures Holder(t.online, b) <= t.known && Listed(t.groups, b) <= t.known {
        assert Holder(s.online, b) <= s.known && Listed(s.groups, b) <= s.known;
      }
    }
    forall b, g ensures Good(t, b, g) {
      assert Holder(s.online, b) <= s.known && Listed(s.groups, b) <= s.known;
      assert Good(s, b, g);
      assert Direct(t, b, g) <= Direct(s, b, g);
      hide Box, QueuedOf, Direct;
      assert Line(t, b, g) == Line(s, b, g);
    }
  }

  // ---- Expiry ----

  lemma {:induction false} FreshIncreasing(p: seq<nat>, list: seq<Queued>, cutoff: int, g: bool, n: nat)
    requires Increasing(p + QueuedOf(list, g)) && Below(p + QueuedOf(list, g), n)
    ensures Increasing(p + QueuedOf(Fresh(list, cutoff), g)) && Below(p + QueuedOf(Fresh(list, cutoff), g), n)
    ensures QueuedOf(Fresh(list, cutoff), g) != [] ==> QueuedOf(list, g) != []
    decreases |list|
  {
    hide QueuedOf, Increasing, Below;
    if list != [] {
      var q, rest := list[0], list[1..];
      var own := if q.msg.group == g then [q.msg.id] else [];
      QueuedOfFirst(list, g);
      assert p + QueuedOf(list, g) == (p + own) + QueuedOf(rest, g);
      if q.ts >= cutoff {
        FreshIncreasing(p + own, rest, cutoff, g, n);
        var kept := [q] + Fresh(rest, cutoff);
        assert kept[1..] == Fresh(rest, cutoff);
        QueuedOfFirst(kept, g);
        assert p + QueuedOf(kept, g) == (p + own) + QueuedOf(Fresh(rest, cutoff), g);
      } else {
        assert [] + Fresh(rest, cutoff) == Fresh(rest, cutoff);
        if own == [] {
          assert p + own == p;
        } else {
          assert (p + own) + QueuedOf(rest, g) == p + own + QueuedOf(rest, g);
          SkipMiddle(p, q.msg.id, QueuedOf(rest, g));
          SkipBelow(p, q.msg.id, QueuedOf(rest, g), n);
        }
        FreshIncreasing(p, rest, cutoff, g, n);
      }
    }
  }

  lemma SkipBelow(p: seq<nat>, x: nat, q: seq<nat>, n: nat)
    requires Below(p + [x] + q, n)
    ensures Below(p + q, n)
  {
    var l, r := p + [x] + q, p + q;
    forall i | 0 <= i < |r| ensures r[i] < n {
      assert r[i] == l[if i < |p| then i else i + 1];
    }
  }

  lemma {:induction false} SweptHas(m: Inbox, a: Address, cutoff: int)
    requires forall i | 0 <= i < |m| :: m[i].0 != a
    ensures forall i | 0 <= i < |SweptInbox(m, cutoff)| :: SweptInbox(m, cutoff)[i].0 != a
  {
    if m != [] {
      SweptHas(m[1..], a, cutoff);
    }
  }

  lemma BoxFirst(e: (Address, seq<Queued>), rest: Inbox, a: Address)
    requires Distinct([e] + rest)
    ensures Box([e] + rest, a) == if e.0 == a then e.1 else Box(rest, a)
  {
    var m := [e] + rest;
    if e.0 == a {
      FindUnique(m, a, 0);
    } else if Has(rest, a) {
      var i := Find(rest, a);
      assert m[i + 1] == rest[i];
      FindUnique(m, a, i + 1);
    } else {
      assert forall k | 0 <= k < |m| :: m[k].0 != a;
    }
  }

  lemma {:induction false} SweptBox(m: Inbox, a: Address, cutoff: int)
    requires Distinct(m)
    ensures Box(SweptInbox(m, cutoff), a) == Fresh(Box(m, a), cutoff) && Distinct(SweptInbox(m, cutoff))
  {
    if m != [] {
      var e, rest := m[0], m[1..];
      var kept, swept := Fresh(e.1, cutoff), SweptInbox(m[1..], cutoff);
      assert m == [e] + rest;
      SweptBox(rest, a, cutoff);
      SweptHas(rest, e.0, cutoff);
      BoxFirst(e, rest, a);
      assert [] + swept == swept;
      if kept == [] {
        if e.0 == a {
          assert forall k | 0 <= k < |swept| :: swept[k].0 != a;
        }
      } else {
        assert Distinct([(e.0, kept)] + swept) by {
          DistinctFirst(e.0, kept, swept);
        }
        BoxFirst((e.0, kept), swept, a);
      }
    }
  }

  lemma SweptGood(s: State, b: Address, g: bool)
    requires Distinct(s.inbox) && Good(s, b, g)
    ensures Good(Step(s, Sweep), b, g)
  {
    hide SweptInbox, SweptDrops, QueuedOf, DeliveredOf, Box, Fresh, Increasing, Below, Listed, Holder;
    var cutoff := s.now - s.cfg.ttl;
    SweptBox(s.inbox, b, cutoff);
    FreshIncreasing(DeliveredOf(s.delivered, b, g), Box(s.inbox, b), cutoff, g, |s.accepted|);
    assert Direct(Step(s, Sweep), b, g) == Direct(s, b, g);
  }

  lemma SweepOrdered(s: State)
    requires Ordered(s)
    ensures Ordered(Step(s, Sweep))
  {
    SweptBox(s.inbox, "", s.now - s.cfg.ttl);
    hide SweptInbox, SweptDrops, Good;
    var t := Step(s, Sweep);
    assert Immediate(t);
    forall b, g ensures Good(t, b, g) {
      assert Good(s, b, g);
      SweptGood(s, b, g);
    }
  }

  lemma StepOrdered(s: State, op: Op)
    requires Ordered(s) && Enabled(s, op)
    ensures Ordered(Step(s, op))
  {
    assert s.timer.None? && s.jittered == [];
    hide Ordered, Requeue, EnqueueRelay, Register, Subscribed, Accept, NewItem, HeldByOther, Closed;
    match op
    case Publish(c, a) => PublishOrdered(s, c, a);
    case Subscribe(c, g) => SubscribeOrdered(s, c, g);
    case Send(toPk, kind) => SendOrdered(s, toPk, kind);
    case Sweep => SweepOrdered(s);
    case FireMix(_, _) =>
    case FireJitter(_) =>
    case _ => ConnectionOrdered(s, op);
  }

  lemma {:induction false} RunOrdered(s: State, ops: seq<Op>)
    requires Ordered(s) && AllEnabled(s, ops)
    ensures Ordered(Run(s, ops))
    decreases |ops|
  {
    if ops != [] {
      StepOrdered(s, ops[0]);
      hide Ordered, Step, Enabled;
      RunOrdered(Step(s, ops[0]), ops[1..]);
    }
  }

  lemma StartOrdered(cfg: Config, now: int)
    requires cfg.mixOff
    ensures Ordered(Start(cfg, now))
  {
    var s := Start(cfg, now);
    forall a, g ensures Good(s, a, g) {
      assert Line(s, a, g) == [];
    }
  }

  lemma {:induction false} DeliveredFor(s: State, log: seq<Delivery>, a: Address, g: bool)
    requires forall d | d in log :: InTime(s, d)
    ensures forall x | x in DeliveredOf(log, a, g) ::
      x < |s.accepted| && s.accepted[x].recipient == a && s.accepted[x].group == g
  {
    if log != [] {
      assert forall d | d in log[..|log| - 1] :: d in log;
      assert log[|log| - 1] in log;
      DeliveredFor(s, log[..|log| - 1], a, g);
    }
  }

  /**
   * With mixing off, on every run and across disconnects, re-registration and offline queueing: what a recipient was
   * given in one mode is a subsequence, in order and without repeats, of what was accepted for it, and everything
   * still waiting comes after it; and nobody waits while a live connection stands for them.
   */
  lemma FifoPerRecipient(cfg: Config, now: int, ops: seq<Op>, a: Address, g: bool)
    requires cfg.mixOff && AllEnabled(Start(cfg, now), ops)
    ensures var s := Run(Start(cfg, now), ops);
      && Increasing(DeliveredOf(s.delivered, a, g) + QueuedOf(Box(s.inbox, a), g))
      && (forall x | x in DeliveredOf(s.delivered, a, g) ::
            x < |s.accepted| && s.accepted[x].recipient == a && s.accepted[x].group == g)
      && (QueuedOf(Box(s.inbox, a), g) != [] ==> Direct(s, a, g) == {})
  {
    StartOrdered(cfg, now);
    RunOrdered(Start(cfg, now), ops);
    StartFaithful(cfg, now);
    RunFaithful(Start(cfg, now), ops);
    hide Run, Start, AllEnabled;
    var s := Run(Start(cfg, now), ops);
    assert Good(s, a, g);
    hide DeliveredOf, QueuedOf, Box, Direct;
    DeliveredFor(s, s.delivered, a, g);
  }
}
