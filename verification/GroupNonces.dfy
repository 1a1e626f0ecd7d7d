/** No nonce is used twice under an epoch key, whatever arrives from outside, until a counter wraps. */
module GroupNonces {
  import opened Group

  /** One call to encrypt: the key, sender and counter its nonce was made from. */
  datatype Use = Use(key: GroupKey, sender: Address, n: nat)

  datatype World = World(sessions: seq<State>, uses: seq<Use>)

  datatype Action =
    | Encrypts(i: nat, plain: Plain)
    | Receives(i: nat, env: Envelope)
    | Applies(i: nat, commit: Commit)
    | Welcomes(i: nat, me: Address)

  /** What an encryption put into its nonce, as its envelope shows it. */
  function UseOf(env: Envelope): Use
    requires env.ciphertext.Box? && env.n >= 0
  {
    Use(env.ciphertext.key, env.sender, env.n)
  }

  /** The nonce of an encryption is the one its use names. */
  lemma UseNamesNonce(s: State, plain: Plain)
    ensures Seal(s, plain).ciphertext.Box? && Seal(s, plain).n >= 0
    ensures Seal(s, plain).ciphertext.nonce == NonceUsed(UseOf(Seal(s, plain)))
  {
  }

  function Depth(key: GroupKey): nat {
    match key
    case Fresh(_) => 0
    case Next(previous, _, _, _) => 1 + Depth(previous)
  }

  /** A newcomer brings an address no session has had; everything else is free. */
  ghost predicate Allowed(w: World, a: Action) {
    a.i < |w.sessions| && (a.Welcomes? ==> forall k | 0 <= k < |w.sessions| :: w.sessions[k].myAddress != a.me)
  }

  function Act(w: World, a: Action): World
    requires a.i < |w.sessions|
  {
    var s := w.sessions[a.i];
    match a
    case Encrypts(i, plain) => World(w.sessions[i := Counted(s)], w.uses + [UseOf(Seal(s, plain))])
    case Receives(i, env) => World(w.sessions[i := Handle(s, env)], w.uses)
    case Applies(i, commit) => World(w.sessions[i := Group.ApplyCommit(s, commit)], w.uses)
    case Welcomes(i, me) =>
      var r := Group.FromWelcome(Group.MakeWelcome(s), me);
      if r.Ok? then World(w.sessions + [r.value], w.uses) else w
  }

  ghost predicate AllAllowed(w: World, actions: seq<Action>)
    decreases |actions|
  {
    actions == [] || (Allowed(w, actions[0]) && AllAllowed(Act(w, actions[0]), actions[1..]))
  }

  function Run(w: World, actions: seq<Action>): World
    requires AllAllowed(w, actions)
    decreases |actions|
  {
    if actions == [] then w else Run(Act(w, actions[0]), actions[1..])
  }

  /** A use lies behind a session: under its key at a counter reached, or under a key left for good. */
  predicate Behind(u: Use, s: State) {
    (u.key == s.epochKey && u.n <= s.sent) || Depth(u.key) < Depth(s.epochKey)
  }

  predicate Has(sessions: seq<State>, a: Address) {
    exists i | 0 <= i < |sessions| :: sessions[i].myAddress == a
  }

  lemma HasReplaced(sessions: seq<State>, i: nat, t: State, a: Address)
    requires i < |sessions| && t.myAddress == sessions[i].myAddress
    ensures Has(sessions[i := t], a) <==> Has(sessions, a)
  {
    var r := sessions[i := t];
    if k :| 0 <= k < |sessions| && sessions[k].myAddress == a {
      assert r[k].myAddress == a;
    }
  }

  lemma HasAppended(sessions: seq<State>, t: State, a: Address)
    ensures Has(sessions + [t], a) <==> Has(sessions, a) || t.myAddress == a
  {
    var r := sessions + [t];
    assert r[|sessions|] == t;
    if k :| 0 <= k < |sessions| && sessions[k].myAddress == a {
      assert r[k].myAddress == a;
    }
  }

  ghost predicate Orderly(w: World) {
    && (forall i, j | 0 <= i < j < |w.sessions| :: w.sessions[i].myAddress != w.sessions[j].myAddress)
    && (forall u, i | 0 <= u < |w.uses| && 0 <= i < |w.sessions| ::
          w.uses[u].sender == w.sessions[i].myAddress ==> Behind(w.uses[u], w.sessions[i]))
    && (forall u | 0 <= u < |w.uses| :: Has(w.sessions, w.uses[u].sender))
    && (forall u, v | 0 <= u < v < |w.uses| :: w.uses[u] != w.uses[v])
  }

  /** Moving on keeps the address and puts every past use behind. */
  ghost predicate Forward(s: State, t: State) {
    && t.myAddress == s.myAddress
    && ((t.epochKey == s.epochKey && t.sent >= s.sent) || Depth(t.epochKey) > Depth(s.epochKey))
  }

  lemma HandleForward(s: State, env: Envelope)
    ensures Forward(s, Handle(s, env))
  {
    if Open(s, env).Ok? && Open(s, env).value.CommitJson? {
      ApplyForward(Group.Decrypt(s, env), Open(s, env).value.commit);
    }
  }

  lemma ApplyForward(s: State, c: Commit)
    ensures Forward(s, Group.ApplyCommit(s, c))
  {
  }

  lemma ReplaceOrderly(w: World, i: nat, t: State)
    requires Orderly(w) && i < |w.sessions| && Forward(w.sessions[i], t)
    ensures Orderly(World(w.sessions[i := t], w.uses))
  {
    hide Has;
    forall u | 0 <= u < |w.uses| ensures Has(w.sessions[i := t], w.uses[u].sender) {
      HasReplaced(w.sessions, i, t, w.uses[u].sender);
    }
  }

  /** A use not yet recorded, lying behind its sender's only session. */
  lemma RecordOrderly(w: World, i: nat, use: Use)
    requires Orderly(w) && i < |w.sessions| && use.sender == w.sessions[i].myAddress && Behind(use, w.sessions[i])
    requires forall u | 0 <= u < |w.uses| :: w.uses[u] != use
    ensures Orderly(World(w.sessions, w.uses + [use]))
  {
    assert Has(w.sessions, use.sender);
    hide Has, Behind;
    var v := World(w.sessions, w.uses + [use]);
    forall u, k | 0 <= u < |v.uses| && 0 <= k < |v.sessions| && v.uses[u].sender == v.sessions[k].myAddress
      ensures Behind(v.uses[u], v.sessions[k])
    {
      if u < |w.uses| {
        assert v.uses[u] == w.uses[u];
      }
    }
  }

  lemma EncryptOrderly(w: World, i: nat, plain: Plain)
    requires Orderly(w) && i < |w.sessions|
    ensures Orderly(Act(w, Encrypts(i, plain)))
  {
    var s := w.sessions[i];
    var use := Use(s.epochKey, s.myAddress, s.sent + 1);
    forall u | 0 <= u < |w.uses| ensures w.uses[u] != use {
      assert w.uses[u].sender == s.myAddress ==> Behind(w.uses[u], s);
    }
    ReplaceOrderly(w, i, Counted(s));
    hide Orderly;
    RecordOrderly(World(w.sessions[i := Counted(s)], w.uses), i, use);
  }

  lemma JoinOrderly(w: World, t: State)
    requires Orderly(w) && forall k | 0 <= k < |w.sessions| :: w.sessions[k].myAddress != t.myAddress
    ensures Orderly(World(w.sessions + [t], w.uses))
  {
    assert !Has(w.sessions, t.myAddress);
    hide Has, Behind;
    forall u | 0 <= u < |w.uses| ensures Has(w.sessions + [t], w.uses[u].sender) {
      HasAppended(w.sessions, t, w.uses[u].sender);
    }
  }

  lemma ActOrderly(w: World, a: Action)
    requires Orderly(w) && Allowed(w, a)
    ensures Orderly(Act(w, a))
  {
    var s := w.sessions[a.i];
    match a
    case Encrypts(i, plain) => EncryptOrderly(w, i, plain);
    case Receives(i, env) =>
      HandleForward(s, env);
      ReplaceOrderly(w, i, Handle(s, env));
    case Applies(i, commit) =>
      ApplyForward(s, commit);
      ReplaceOrderly(w, i, Group.ApplyCommit(s, commit));
    case Welcomes(i, me) =>
      var r := Group.FromWelcome(Group.MakeWelcome(s), me);
      if r.Ok? {
        JoinOrderly(w, r.value);
      }
  }

  lemma {:induction false} RunOrderly(w: World, actions: seq<Action>)
    requires Orderly(w) && AllAllowed(w, actions)
    ensures Orderly(Run(w, actions))
    decreases |actions|
  {
    if actions != [] {
      ActOrderly(w, actions[0]);
      RunOrderly(Act(w, actions[0]), actions[1..]);
    }
  }

  function NonceUsed(u: Use): Nonce {
    NonceFor(u.key, u.sender, u.n)
  }

  /**
   * From a founder alone, with any envelopes and commits delivered to anyone: two calls to encrypt share a nonce only
   * if one sender made them under one key with counters a multiple of 2^32 apart.
   */
  lemma NonceSharedIff(s: State, actions: seq<Action>, u: nat, v: nat)
    requires AllAllowed(World([s], []), actions)
    requires var uses := Run(World([s], []), actions).uses; u < v < |uses|
    ensures var uses := Run(World([s], []), actions).uses;
      uses[u] != uses[v]
    ensures var uses := Run(World([s], []), actions).uses;
      NonceUsed(uses[u]) == NonceUsed(uses[v]) <==>
        && uses[u].key == uses[v].key && uses[u].sender == uses[v].sender
        && uses[u].n != uses[v].n && uses[u].n % WORD == uses[v].n % WORD
  {
    RunOrderly(World([s], []), actions);
  }

  /** Below 2^32 messages an epoch no nonce is shared. */
  lemma NoncesDistinct(s: State, actions: seq<Action>, u: nat, v: nat)
    requires AllAllowed(World([s], []), actions)
    requires var uses := Run(World([s], []), actions).uses;
      u < v < |uses| && uses[u].n < WORD && uses[v].n < WORD
    ensures var uses := Run(World([s], []), actions).uses;
      NonceUsed(uses[u]) != NonceUsed(uses[v])
  {
    hide Run, AllAllowed;
    NonceSharedIff(s, actions, u, v);
  }

  // ---- Counters count ----

  /** How many of the uses were made under the key by the sender. */
  function Uses(uses: seq<Use>, key: GroupKey, sender: Address): nat {
    if uses == [] then 0
    else
      var last := uses[|uses| - 1];
      Uses(uses[..|uses| - 1], key, sender) + if last.key == key && last.sender == sender then 1 else 0
  }

  lemma UsesNext(uses: seq<Use>, use: Use, key: GroupKey, sender: Address)
    ensures Uses(uses + [use], key, sender) ==
      Uses(uses, key, sender) + if use.key == key && use.sender == sender then 1 else 0
  {
    assert (uses + [use])[..|uses|] == uses;
  }

  lemma {:induction false} NoUses(uses: seq<Use>, key: GroupKey, sender: Address)
    requires forall u | 0 <= u < |uses| :: !(uses[u].key == key && uses[u].sender == sender)
    ensures Uses(uses, key, sender) == 0
  {
    if uses != [] {
      NoUses(uses[..|uses| - 1], key, sender);
    }
  }

  /** Every session has counted what it sent in its epoch, and every use took the number after those before it. */
  ghost predicate Counting(w: World) {
    && (forall i | 0 <= i < |w.sessions| ::
          w.sessions[i].sent == Uses(w.uses, w.sessions[i].epochKey, w.sessions[i].myAddress))
    && (forall u | 0 <= u < |w.uses| :: w.uses[u].n == 1 + Uses(w.uses[..u], w.uses[u].key, w.uses[u].sender))
  }

  lemma EncryptCounts(w: World, i: nat, plain: Plain)
    requires Orderly(w) && Counting(w) && i < |w.sessions|
    ensures Counting(Act(w, Encrypts(i, plain)))
  {
    var s, use := w.sessions[i], UseOf(Seal(w.sessions[i], plain));
    var v := Act(w, Encrypts(i, plain));
    hide Behind, Has, Uses;
    forall k | 0 <= k < |v.sessions|
      ensures v.sessions[k].sent == Uses(v.uses, v.sessions[k].epochKey, v.sessions[k].myAddress)
    {
      UsesNext(w.uses, use, v.sessions[k].epochKey, v.sessions[k].myAddress);
    }
    forall u | 0 <= u < |v.uses| ensures v.uses[u].n == 1 + Uses(v.uses[..u], v.uses[u].key, v.uses[u].sender) {
      if u < |w.uses| {
        assert v.uses[..u] == w.uses[..u] && v.uses[u] == w.uses[u];
      } else {
        assert v.uses[..u] == w.uses;
      }
    }
  }

  /** A session that stays under its key or comes under a later one. */
  ghost predicate Onward(s: State, t: State) {
    && t.myAddress == s.myAddress
    && ((t.epochKey == s.epochKey && t.sent == s.sent) || (Depth(t.epochKey) > Depth(s.epochKey) && t.sent == 0))
  }

  lemma ApplyOnward(s: State, c: Commit)
    ensures Onward(s, Group.ApplyCommit(s, c))
  {
  }

  lemma HandleOnward(s: State, env: Envelope)
    ensures Onward(s, Handle(s, env))
  {
    if Open(s, env).Ok? && Open(s, env).value.CommitJson? {
      ApplyOnward(Group.Decrypt(s, env), Open(s, env).value.commit);
    }
  }

  lemma ReplaceCounts(w: World, i: nat, t: State)
    requires Orderly(w) && Counting(w) && i < |w.sessions| && Onward(w.sessions[i], t)
    ensures Counting(World(w.sessions[i := t], w.uses))
  {
    hide Has, Uses;
    if t.epochKey != w.sessions[i].epochKey || t.sent != w.sessions[i].sent {
      forall u | 0 <= u < |w.uses| ensures !(w.uses[u].key == t.epochKey && w.uses[u].sender == t.myAddress) {
        assert w.uses[u].sender == t.myAddress ==> Behind(w.uses[u], w.sessions[i]);
      }
      NoUses(w.uses, t.epochKey, t.myAddress);
    }
  }

  lemma JoinCounts(w: World, t: State)
    requires Orderly(w) && Counting(w) && t.sent == 0
    requires forall k | 0 <= k < |w.sessions| :: w.sessions[k].myAddress != t.myAddress
    ensures Counting(World(w.sessions + [t], w.uses))
  {
    hide Behind, Uses;
    forall u | 0 <= u < |w.uses| ensures w.uses[u].sender != t.myAddress {
      assert Has(w.sessions, w.uses[u].sender);
    }
    NoUses(w.uses, t.epochKey, t.myAddress);
  }

  lemma ActCounts(w: World, a: Action)
    requires Orderly(w) && Counting(w) && Allowed(w, a)
    ensures Counting(Act(w, a))
  {
    hide Orderly, Counting;
    var s := w.sessions[a.i];
    match a
    case Encrypts(i, plain) => EncryptCounts(w, i, plain);
    case Receives(i, env) =>
      HandleOnward(s, env);
      ReplaceCounts(w, i, Handle(s, env));
    case Applies(i, commit) =>
      ApplyOnward(s, commit);
      ReplaceCounts(w, i, Group.ApplyCommit(s, commit));
    case Welcomes(i, me) =>
      var r := Group.FromWelcome(Group.MakeWelcome(s), me);
      if r.Ok? {
        JoinCounts(w, r.value);
      }
  }

  lemma {:induction false} CountersCount(w: World, actions: seq<Action>)
    requires Orderly(w) && Counting(w) && AllAllowed(w, actions)
    ensures Counting(Run(w, actions))
    decreases |actions|
  {
    hide Orderly, Counting;
    if actions != [] {
      ActOrderly(w, actions[0]);
      ActCounts(w, actions[0]);
      CountersCount(Act(w, actions[0]), actions[1..]);
    }
  }

  /**
   * From a founder that has sent nothing: on every run, each encryption's counter is one more than the number of
   * encryptions its sender made before it under the same key.
   */
  lemma CounterIsNext(s: State, actions: seq<Action>, u: nat)
    requires s.sent == 0 && AllAllowed(World([s], []), actions)
    requires u < |Run(World([s], []), actions).uses|
    ensures var uses := Run(World([s], []), actions).uses;
      uses[u].n == 1 + Uses(uses[..u], uses[u].key, uses[u].sender)
  {
    CountersCount(World([s], []), actions);
  }
}
