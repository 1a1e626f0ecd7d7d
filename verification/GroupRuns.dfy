/** What every member of a group keeps: epoch agreement, readable windows, forks and bounded replay. */
module GroupRuns {
  import opened Common
  import opened JsonText
  import opened Group

  // ---- A single chain of commits ----

  datatype Link = Link(secret: Bytes, members: seq<Address>)

  /** A group's past when every epoch has one commit: the founding key and roster, then one link an epoch. */
  datatype History = History(first: nat, founders: seq<Address>, links: seq<Link>)

  function KeyAt(h: History, e: nat): GroupKey
    requires e <= |h.links|
  {
    if e == 0 then Fresh(h.first)
    else NextKey(KeyAt(h, e - 1), h.links[e - 1].secret, e, h.links[e - 1].members)
  }

  function MembersAt(h: History, e: nat): seq<Address>
    requires e <= |h.links|
  {
    if e == 0 then h.founders else h.links[e - 1].members
  }

  function LinkCommit(h: History, e: nat): Commit
    requires e < |h.links|
  {
    Commit(Some(e + 1), Some(Decoded(h.links[e].secret)), Some(h.links[e].members))
  }

  /** A commit that moves a member standing at epoch e. */
  predicate Moves(c: Commit, e: int) {
    && c.toEpoch.Some? && c.secret.Some? && c.members.Some?
    && c.toEpoch.value > e && c.secret.value.Decoded? && |c.secret.value.bytes| == 32
  }

  /** Whoever sealed the envelope, a moving commit under an epoch's key is that epoch's link. */
  predicate OnChain(h: History, env: Envelope) {
    forall e | 0 <= e <= |h.links| && env.ciphertext.Box? && env.ciphertext.key == KeyAt(h, e)
                && env.ciphertext.plain.CommitJson? && Moves(env.ciphertext.plain.commit, e) ::
      e < |h.links| && env.ciphertext.plain.commit == LinkCommit(h, e)
  }

  ghost predicate InSync(h: History, s: State) {
    && s.epoch <= |h.links|
    && s.epochKey == KeyAt(h, s.epoch)
    && (s.prevEpochKey.Some? ==> s.epoch > 0 && s.prevEpochKey.value == KeyAt(h, s.epoch - 1))
    && multiset(s.members) == multiset(MembersAt(h, s.epoch))
  }

  /** How a session came to be where it is. */
  datatype Story =
    | Founded(groupId: Text, creator: Address, members: seq<Address>, me: Address)
    | Joined(inviter: Story, me: Address)
    | Sent(before: Story, plain: Plain)
    | Received(before: Story, env: Envelope)
    | Committed(before: Story, secret: Bytes, toMembers: seq<Address>)

  /** The session a story ends with; none when a welcome is refused. */
  function Told(h: History, story: Story): Option<State> {
    match story
    case Founded(groupId, creator, members, me) => Some(Group.Create(groupId, h.first, creator, members, me))
    case Joined(inviter, me) =>
      (match Told(h, inviter)
       case None => None
       case Some(s) =>
         match Group.FromWelcome(Group.MakeWelcome(s), me)
         case Ok(j) => Some(j)
         case Err(_) => None)
    case Sent(before, plain) =>
      (match Told(h, before) case None => None case Some(s) => Some(Counted(s)))
    case Received(before, env) =>
      (match Told(h, before) case None => None case Some(s) => Some(Handle(s, env)))
    case Committed(before, secret, toMembers) =>
      (match Told(h, before)
       case None => None
       case Some(s) => Some(Group.ApplyCommit(Counted(s), NewCommit(s, secret, toMembers))))
  }

  /** Envelopes may come from anywhere; only commits are held to the chain. */
  ghost predicate Chained(h: History, story: Story) {
    match story
    case Founded(groupId, creator, members, me) => multiset(h.founders) == multiset(Distinct(members + [me]))
    case Joined(inviter, me) => Chained(h, inviter)
    case Sent(before, plain) => Chained(h, before)
    case Received(before, env) => Chained(h, before) && OnChain(h, env)
    case Committed(before, secret, toMembers) =>
      Chained(h, before) && match Told(h, before)
        case None => true
        case Some(s) => Moves(NewCommit(s, secret, toMembers), s.epoch) ==>
          s.epoch < |h.links| && NewCommit(s, secret, toMembers) == LinkCommit(h, s.epoch)
  }

  lemma ApplyKeepsSync(h: History, s: State, c: Commit)
    requires InSync(h, s)
    requires Moves(c, s.epoch) ==> s.epoch < |h.links| && c == LinkCommit(h, s.epoch)
    ensures InSync(h, Group.ApplyCommit(s, c))
  {
  }

  lemma OpenedUnder(h: History, s: State, env: Envelope)
    requires InSync(h, s) && Open(s, env).Ok?
    ensures env.ciphertext.Box? && env.ciphertext.plain == Open(s, env).value
    ensures env.epoch == s.epoch || (env.epoch == s.epoch - 1 && s.prevEpochKey.Some?)
    ensures env.ciphertext.key == KeyAt(h, env.epoch)
  {
  }

  lemma HandleKeepsSync(h: History, s: State, env: Envelope)
    requires InSync(h, s) && OnChain(h, env)
    ensures InSync(h, Handle(s, env))
  {
    if Open(s, env).Ok? && Open(s, env).value.CommitJson? {
      OpenedUnder(h, s, env);
      var c := Open(s, env).value.commit;
      if Moves(c, env.epoch) {
        assert c == LinkCommit(h, env.epoch);
      }
      ApplyKeepsSync(h, Group.Decrypt(s, env), c);
    }
  }

  lemma FoundedInSync(h: History, groupId: Text, creator: Address, members: seq<Address>, me: Address)
    requires multiset(h.founders) == multiset(Distinct(members + [me]))
    ensures InSync(h, Group.Create(groupId, h.first, creator, members, me))
  {
  }

  lemma WelcomeKeepsSync(h: History, s: State, me: Address)
    requires InSync(h, s) && Group.FromWelcome(Group.MakeWelcome(s), me).Ok?
    ensures InSync(h, Group.FromWelcome(Group.MakeWelcome(s), me).value)
  {
  }

  lemma CommitKeepsSync(h: History, s: State, secret: Bytes, toMembers: seq<Address>)
    requires InSync(h, s)
    requires var c := NewCommit(s, secret, toMembers);
      Moves(c, s.epoch) ==> s.epoch < |h.links| && c == LinkCommit(h, s.epoch)
    ensures InSync(h, Group.ApplyCommit(Counted(s), NewCommit(s, secret, toMembers)))
  {
    ApplyKeepsSync(h, Counted(s), NewCommit(s, secret, toMembers));
  }

  lemma CountedInSync(h: History, s: State)
    requires InSync(h, s)
    ensures InSync(h, Counted(s))
  {
  }

  lemma {:induction false} ToldInSync(h: History, story: Story)
    requires Chained(h, story) && Told(h, story).Some?
    ensures InSync(h, Told(h, story).value)
  {
    hide InSync, Handle, Group.ApplyCommit, Group.FromWelcome, Group.MakeWelcome, Group.Create, OnChain, NewCommit;
    match story
    case Founded(groupId, creator, members, me) => FoundedInSync(h, groupId, creator, members, me);
    case Joined(inviter, me) =>
      ToldInSync(h, inviter);
      WelcomeKeepsSync(h, Told(h, inviter).value, me);
    case Sent(before, plain) =>
      ToldInSync(h, before);
      CountedInSync(h, Told(h, before).value);
    case Received(before, env) =>
      ToldInSync(h, before);
      HandleKeepsSync(h, Told(h, before).value, env);
    case Committed(before, secret, toMembers) =>
      ToldInSync(h, before);
      CommitKeepsSync(h, Told(h, before).value, secret, toMembers);
  }

  /** However two members got there, founding, joining, committing or applying: one epoch means one key and roster. */
  lemma EpochAgreement(h: History, a: Story, b: Story)
    requires Chained(h, a) && Chained(h, b) && Told(h, a).Some? && Told(h, b).Some?
    requires Told(h, a).value.epoch == Told(h, b).value.epoch
    ensures Told(h, a).value.epochKey == Told(h, b).value.epochKey
    ensures multiset(Told(h, a).value.members) == multiset(Told(h, b).value.members)
  {
    ToldInSync(h, a);
    ToldInSync(h, b);
  }

  lemma ReadableBetween(h: History, sender: State, s: State, plain: Plain)
    requires InSync(h, sender) && InSync(h, s) && sender.myAddress != []
    ensures var env := Seal(sender, plain);
      Open(s, env) == Ok(plain) <==>
        && (sender.epoch == s.epoch || (sender.epoch == s.epoch - 1 && s.prevEpochKey.Some?))
        && TagOf(env) !in s.seen
    ensures var env := Seal(sender, plain);
      plain.Words? && Open(s, env).Ok? ==> Outcome(s, env) == Ok(plain) && Handle(s, env).epochKey == s.epochKey
  {
  }

  /** Exactly who reads a message: members of its epoch, and those who committed one past it, once each. */
  lemma ReadableIff(h: History, a: Story, b: Story, plain: Plain)
    requires Chained(h, a) && Chained(h, b) && Told(h, a).Some? && Told(h, b).Some?
    requires Told(h, a).value.myAddress != []
    ensures var sender, s := Told(h, a).value, Told(h, b).value;
      var env := Seal(sender, plain);
      Open(s, env) == Ok(plain) <==>
        && (sender.epoch == s.epoch || (sender.epoch == s.epoch - 1 && s.prevEpochKey.Some?))
        && TagOf(env) !in s.seen
    ensures var sender, s := Told(h, a).value, Told(h, b).value;
      var env := Seal(sender, plain);
      plain.Words? && Open(s, env).Ok? ==> Outcome(s, env) == Ok(plain) && Handle(s, env).epochKey == s.epochKey
  {
    ToldInSync(h, a);
    ToldInSync(h, b);
    hide *;
    ReadableBetween(h, Told(h, a).value, Told(h, b).value, plain);
  }

  /** Any welcome, from whoever: what admits a member, and why one is refused. */
  lemma WelcomeIff(w: Welcome, me: Address)
    ensures Group.FromWelcome(w, me).Ok? <==> w.v == 1 && w.groupId != [] && w.epoch >= 0 && me in w.members
    ensures Group.FromWelcome(w, me) == Err(MalformedWelcome) <==> w.v != 1 || w.groupId == [] || w.epoch < 0
  {
  }

  /**
   * A welcome admits exactly the roster's addresses, and hands over the inviter's group, creator, epoch, key and
   * roster, with nothing sent, seen or readable from before.
   */
  lemma JoinIff(s: State, me: Address)
    ensures var r := Group.FromWelcome(Group.MakeWelcome(s), me);
      r.Ok? <==> s.groupId != [] && me in s.members
    ensures var r := Group.FromWelcome(Group.MakeWelcome(s), me);
      r.Ok? ==> (
        && r.value.groupId == s.groupId && r.value.creator == s.creator
        && r.value.prevEpochKey.None? && r.value.sent == 0 && r.value.seen == {}
        && r.value.epoch == s.epoch && r.value.epochKey == s.epochKey
        && multiset(r.value.members) == multiset(s.members) && r.value.myAddress == me)
  {
    assert me in Sort(s.members) <==> me in multiset(Sort(s.members));
  }

  /** Where an address first stands in a list. */
  function FirstAt(l: seq<Address>, a: Address): (i: nat)
    requires a in l
    ensures i < |l| && l[i] == a && a !in l[..i]
  {
    if l[0] == a then 0
    else
      var i := FirstAt(l[1..], a);
      assert l[..i + 1] == [l[0]] + l[1..][..i];
      i + 1
  }

  lemma FirstUnique(l: seq<Address>, a: Address, i: nat)
    requires i < |l| && l[i] == a && a !in l[..i]
    ensures FirstAt(l, a) == i
  {
    assert l[FirstAt(l, a)] == a;
  }

  lemma FirstInFront(l: seq<Address>, n: nat, a: Address)
    requires n <= |l| && a in l[..n]
    ensures a in l && FirstAt(l, a) == FirstAt(l[..n], a)
  {
    var i := FirstAt(l[..n], a);
    assert l[i] == a && l[..n][..i] == l[..i];
    FirstUnique(l, a, i);
  }

  /** The addresses stand in the order in which the list first names them. */
  ghost predicate FirstSeen(r: seq<Address>, l: seq<Address>) {
    && (forall i | 0 <= i < |r| :: r[i] in l)
    && (forall i, j | 0 <= i < j < |r| :: FirstAt(l, r[i]) < FirstAt(l, r[j]))
  }

  lemma {:induction false} DistinctInOrder(l: seq<Address>)
    ensures FirstSeen(Distinct(l), l)
  {
    if l != [] {
      var n := |l| - 1;
      var r, front := Distinct(l), Distinct(l[..n]);
      DistinctInOrder(l[..n]);
      forall i | 0 <= i < |front| ensures front[i] in l && FirstAt(l, front[i]) == FirstAt(l[..n], front[i]) {
        assert front[i] in front;
        FirstInFront(l, n, front[i]);
      }
      if l[n] !in front {
        FirstUnique(l, l[n], n);
        assert r == front + [l[n]];
      }
    }
  }

  /** A founder is on its own roster, in the order invited and nobody twice; its session starts at epoch 0, unused. */
  lemma FounderIncluded(groupId: Text, key: nat, creator: Address, members: seq<Address>, me: Address)
    ensures var s := Group.Create(groupId, key, creator, members, me);
      && (forall a :: a in s.members <==> a in members || a == me)
      && (forall i, j | 0 <= i < j < |s.members| :: s.members[i] != s.members[j])
    ensures FirstSeen(Group.Create(groupId, key, creator, members, me).members, members + [me])
    ensures var s := Group.Create(groupId, key, creator, members, me);
      && s.groupId == groupId && s.creator == Some(creator) && s.myAddress == me && s.epoch == 0
      && s.epochKey == Fresh(key) && s.prevEpochKey.None? && s.sent == 0 && s.seen == {}
  {
    assert (members + [me])[|members|] == me;
    hide FirstSeen;
    DistinctInOrder(members + [me]);
  }

  /** The story's founding: group id, creator and the founder's address. */
  function Origin(story: Story): (Text, Address, Address) {
    match story
    case Founded(groupId, creator, _, me) => (groupId, creator, me)
    case Joined(inviter, _) => Origin(inviter)
    case Sent(before, _) => Origin(before)
    case Received(before, _) => Origin(before)
    case Committed(before, _, _) => Origin(before)
  }

  /** Whose session the story tells. */
  function Self(story: Story): Address {
    match story
    case Founded(_, _, _, me) => me
    case Joined(_, me) => me
    case Sent(before, _) => Self(before)
    case Received(before, _) => Self(before)
    case Committed(before, _, _) => Self(before)
  }

  lemma HandleKeepsIdentity(s: State, env: Envelope)
    ensures var t := Handle(s, env);
      t.groupId == s.groupId && t.creator == s.creator && t.myAddress == s.myAddress
  {
  }

  /**
   * Everyone who descends from one founding, through whatever joins, messages and commits, is in the founder's group,
   * under the founder's creator, and keeps its own address.
   */
  lemma {:induction false} OneGroup(h: History, story: Story)
    requires Told(h, story).Some?
    ensures
      var s := Told(h, story).value;
      s.groupId == Origin(story).0 && s.creator == Some(Origin(story).1) && s.myAddress == Self(story)
  {
    match story
    case Founded(_, _, _, _) =>
    case Joined(inviter, me) =>
      OneGroup(h, inviter);
      JoinIff(Told(h, inviter).value, me);
    case Sent(before, _) => OneGroup(h, before);
    case Received(before, env) =>
      OneGroup(h, before);
      HandleKeepsIdentity(Told(h, before).value, env);
    case Committed(before, _, _) => OneGroup(h, before);
  }

  // ---- Rosters ----

  predicate InOrder(l: seq<Address>) {
    forall i, j | 0 <= i < j < |l| :: !Less(l[j], l[i])
  }

  lemma NotLessTransitive(a: Address, b: Address, c: Address)
    requires !Less(b, a) && !Less(c, b)
    ensures !Less(c, a)
  {
    LessTotal(a, b);
    LessTotal(b, c);
    if a != b && b != c {
      LessTransitive(a, b, c);
    }
    if Less(c, a) && Less(a, c) {
      LessTransitive(a, c, a);
    }
    LessIrreflexive(a);
  }

  lemma {:induction false} InsertInOrder(a: Address, l: seq<Address>)
    requires InOrder(l)
    ensures InOrder(Insert(a, l))
  {
    LessIrreflexive(a);
    if l != [] {
      if Less(l[0], a) {
        InsertInOrder(a, l[1..]);
        var r := Insert(a, l[1..]);
        forall j | 0 <= j < |r| ensures !Less(r[j], l[0]) {
          assert r[j] in multiset(r);
          if r[j] == a {
            if Less(a, l[0]) {
              LessTransitive(l[0], a, l[0]);
              LessIrreflexive(l[0]);
            }
          } else {
            assert r[j] in l[1..];
          }
        }
      } else {
        forall j | 0 <= j < |l| ensures !Less(l[j], a) {
          if j > 0 {
            NotLessTransitive(a, l[0], l[j]);
          }
        }
      }
    }
  }

  /** Sorting a roster orders it by code units and keeps every address. */
  lemma {:induction false} RosterSorted(l: seq<Address>)
    ensures InOrder(Sort(l)) && multiset(Sort(l)) == multiset(l)
  {
    if l != [] {
      RosterSorted(l[1..]);
      InsertInOrder(l[0], Sort(l[1..]));
    }
  }

  /** A commit moves one epoch on, with the roster given, in order; a welcome lists its roster in the same order. */
  lemma RostersInOrder(s: State, secret: Bytes, toMembers: seq<Address>)
    ensures var c := NewCommit(s, secret, toMembers);
      && c.toEpoch == Some(s.epoch + 1) && c.secret == Some(Decoded(secret)) && c.members.Some?
      && InOrder(c.members.value) && multiset(c.members.value) == multiset(toMembers)
    ensures InOrder(Group.MakeWelcome(s).members) && multiset(Group.MakeWelcome(s).members) == multiset(s.members)
  {
    RosterSorted(toMembers);
    RosterSorted(s.members);
  }

  // ---- Envelopes and keys ----

  /** Exactly which envelopes open, whoever made them. */
  lemma OpensIff(s: State, env: Envelope, plain: Plain)
    ensures Open(s, env) == Ok(plain) <==>
      && env.groupMode && env.sender != [] && env.n >= 0 && env.ciphertext.Box? && env.ciphertext.plain == plain
      && ((env.epoch == s.epoch && env.ciphertext.key == s.epochKey)
          || (env.epoch == s.epoch - 1 && s.prevEpochKey == Some(env.ciphertext.key)))
      && env.ciphertext.nonce == Nonce(env.ciphertext.key, env.sender, env.n % WORD)
      && Tag(env.sender, env.epoch, env.n) !in s.seen
  {
  }

  /** A derived key names the key before it, the commit's secret and roster, and its epoch modulo 2^32. */
  lemma NextKeyEqualIff(
    k: GroupKey, x: Bytes, e: nat, m: seq<Address>, k': GroupKey, x': Bytes, e': nat, m': seq<Address>)
    ensures NextKey(k, x, e, m) == NextKey(k', x', e', m') <==> k == k' && x == x' && e % WORD == e' % WORD && m == m'
  {
  }

  // ---- Commits ----

  /** What any commit does: it moves the session, is refused as stale, malformed or with a bad secret, or is no news. */
  lemma CommitEffect(s: State, c: Commit)
    ensures Moves(c, s.epoch) ==> (
      var t := Group.ApplyCommit(s, c);
      && t.epoch == c.toEpoch.value && t.prevEpochKey == Some(s.epochKey) && t.members == c.members.value
      && t.epochKey == NextKey(s.epochKey, c.secret.value.bytes, c.toEpoch.value, c.members.value)
      && t.sent == 0 && t.seen == {} && t.groupId == s.groupId && t.creator == s.creator && t.myAddress == s.myAddress)
    ensures !Moves(c, s.epoch) ==> Group.ApplyCommit(s, c) == s
    ensures CommitFault(s, c).None? <==>
      Moves(c, s.epoch) || (c.toEpoch == Some(s.epoch) && c.secret.Some? && c.members.Some?)
    ensures CommitFault(s, c) == Some(StaleCommit) <==>
      c.toEpoch.Some? && c.toEpoch.value < s.epoch && c.secret.Some? && c.members.Some?
    ensures CommitFault(s, c) == Some(MalformedCommit) <==> c.toEpoch.None? || c.secret.None? || c.members.None?
  {
  }

  /** A commit that opens and fails to apply is reported, and remembered as seen; nothing else changes. */
  lemma FailedCommitIsSeen(s: State, env: Envelope, c: Commit)
    requires Open(s, env) == Ok(CommitJson(c)) && CommitFault(s, c).Some?
    ensures Outcome(s, env) == Err(CommitFault(s, c).value)
    ensures Handle(s, env) == s.(seen := s.seen + {Tag(env.sender, env.epoch, env.n)})
  {
  }

  /** A member who applied its own commit takes the echo as a no-op; one who did not is moved by it the same way. */
  lemma OwnCommitEcho(s: State, secret: Bytes, toMembers: seq<Address>)
    requires |secret| == 32 && s.myAddress != [] && Tag(s.myAddress, s.epoch, s.sent + 1) !in s.seen
    ensures var c := NewCommit(s, secret, toMembers);
      var env := Seal(s, CommitJson(c));
      var applied := Group.ApplyCommit(Counted(s), c);
      && Outcome(applied, env) == Ok(CommitJson(c))
      && Handle(applied, env) == applied.(seen := {TagOf(env)})
      && Handle(Counted(s), env) == applied
  {
  }

  /** Two commits to one epoch lead to one key exactly when they carry the same secret and roster. */
  lemma ForkIff(s: State, c: Commit, d: Commit)
    requires Moves(c, s.epoch) && Moves(d, s.epoch) && c.toEpoch == d.toEpoch
    ensures Group.ApplyCommit(s, c).epoch == Group.ApplyCommit(s, d).epoch
    ensures Group.ApplyCommit(s, c).epochKey == Group.ApplyCommit(s, d).epochKey <==> c == d
  {
  }

  /** After a fork each side takes the other's commit without complaint or effect and can read nothing it sends. */
  lemma ForkIsSilent(s: State, t: State, c: Commit, d: Commit, p: Plain)
    requires s.epoch == t.epoch && s.epochKey == t.epochKey && t.myAddress != []
    requires Moves(c, s.epoch) && Moves(d, s.epoch) && c.toEpoch.value == s.epoch + 1 == d.toEpoch.value && c != d
    ensures var here, there := Group.ApplyCommit(s, c), Group.ApplyCommit(t, d);
      && Outcome(here, Seal(t, CommitJson(d))) == Ok(CommitJson(d))
      && Handle(here, Seal(t, CommitJson(d))) == here.(seen := {TagOf(Seal(t, CommitJson(d)))})
      && Open(here, Seal(there, p)) == Err(CannotOpen)
  {
    ForkIff(s, c, d);
  }

  // ---- Replay ----

  datatype Event = Arrive(env: Envelope) | Advance(commit: Commit) | Speak(plain: Plain)

  /** One accepted envelope and the epoch the session stood at. */
  datatype Acceptance = Acceptance(at: nat, tag: Tag)

  function After(s: State, e: Event): State {
    match e
    case Arrive(env) => Handle(s, env)
    case Advance(c) => Group.ApplyCommit(s, c)
    case Speak(_) => Counted(s)
  }

  function Final(s: State, events: seq<Event>): State {
    if events == [] then s else After(Final(s, events[..|events| - 1]), events[|events| - 1])
  }

  /** Every acceptance of a run, in order. */
  function Accepted(s: State, events: seq<Event>): seq<Acceptance> {
    if events == [] then []
    else
      var before, e := Final(s, events[..|events| - 1]), events[|events| - 1];
      Accepted(s, events[..|events| - 1])
        + if e.Arrive? && Open(before, e.env).Ok? then [Acceptance(before.epoch, TagOf(e.env))] else []
  }

  ghost predicate Guarded(s: State, log: seq<Acceptance>) {
    && (forall i, j | 0 <= i < j < |log| :: log[i] != log[j])
    && (forall i | 0 <= i < |log| ::
          && log[i].at <= s.epoch && log[i].at - 1 <= log[i].tag.epoch <= log[i].at
          && (log[i].at == s.epoch ==> log[i].tag in s.seen))
  }

  lemma {:induction false} RunGuarded(s: State, events: seq<Event>)
    ensures Guarded(Final(s, events), Accepted(s, events))
  {
    if events != [] {
      RunGuarded(s, events[..|events| - 1]);
      var before, e := Final(s, events[..|events| - 1]), events[|events| - 1];
      StepGuarded(before, Accepted(s, events[..|events| - 1]), e);
    }
  }

  lemma StepGuarded(s: State, log: seq<Acceptance>, e: Event)
    requires Guarded(s, log)
    ensures Guarded(After(s, e),
              log + if e.Arrive? && Open(s, e.env).Ok? then [Acceptance(s.epoch, TagOf(e.env))] else [])
  {
    if e.Arrive? && Open(s, e.env).Ok? {
      var entry := Acceptance(s.epoch, TagOf(e.env));
      assert forall i | 0 <= i < |log| :: log[i] != entry;
      var r := log + [entry];
      assert Guarded(Group.Decrypt(s, e.env), r);
    } else {
      assert log + [] == log;
    }
  }

  /**
   * Over a whole run, with any envelopes and any commits, a (sender, epoch, n) is accepted at most once while the
   * session stays in one epoch and at most twice in all.
   */
  lemma BoundedReplay(s: State, events: seq<Event>)
    ensures var log := Accepted(s, events);
      && (forall i, j | 0 <= i < j < |log| :: log[i].at == log[j].at ==> log[i].tag != log[j].tag)
      && (forall i, j, k | 0 <= i < j < k < |log| :: !(log[i].tag == log[j].tag == log[k].tag))
  {
    RunGuarded(s, events);
    var log := Accepted(s, events);
    forall i, j | 0 <= i < j < |log| && log[i].at == log[j].at ensures log[i].tag != log[j].tag {
      assert log[i] != log[j];
    }
  }

  /** What was accepted in the epoch the session stands at. */
  predicate AcceptedHere(log: seq<Acceptance>, epoch: nat, tag: Tag) {
    exists i | 0 <= i < |log| :: log[i] == Acceptance(epoch, tag)
  }

  ghost predicate SeenIsLog(s: State, log: seq<Acceptance>) {
    && (forall i | 0 <= i < |log| :: log[i].at <= s.epoch)
    && (forall tag :: tag in s.seen <==> AcceptedHere(log, s.epoch, tag))
  }

  lemma AcceptedLast(log: seq<Acceptance>, entry: Acceptance, epoch: nat, tag: Tag)
    ensures AcceptedHere(log + [entry], epoch, tag) <==>
      AcceptedHere(log, epoch, tag) || entry == Acceptance(epoch, tag)
  {
    var r := log + [entry];
    assert r[|log|] == entry;
    if i :| 0 <= i < |log| && log[i] == Acceptance(epoch, tag) {
      assert r[i] == log[i];
    }
  }

  lemma MoveSeen(s: State, log: seq<Acceptance>, c: Commit)
    requires SeenIsLog(s, log)
    ensures SeenIsLog(Group.ApplyCommit(s, c), log)
  {
    CommitEffect(s, c);
    hide Group.ApplyCommit, CommitFault;
  }

  lemma OpenedSeen(s: State, log: seq<Acceptance>, env: Envelope)
    requires SeenIsLog(s, log) && Open(s, env).Ok?
    ensures SeenIsLog(Group.Decrypt(s, env), log + [Acceptance(s.epoch, TagOf(env))])
  {
    var entry := Acceptance(s.epoch, TagOf(env));
    forall tag ensures tag in Group.Decrypt(s, env).seen <==> AcceptedHere(log + [entry], s.epoch, tag) {
      AcceptedLast(log, entry, s.epoch, tag);
    }
  }

  /**
   * The guard holds exactly what was accepted since the last move, so a message that would otherwise open is refused
   * as a replay only if it was accepted in this epoch.
   */
  lemma {:induction false} SeenExactly(s: State, events: seq<Event>)
    requires s.seen == {}
    ensures SeenIsLog(Final(s, events), Accepted(s, events))
  {
    if events != [] {
      var front, e := events[..|events| - 1], events[|events| - 1];
      var before, log := Final(s, front), Accepted(s, front);
      SeenExactly(s, front);
      hide SeenIsLog, Group.ApplyCommit, Open;
      match e
      case Speak(_) =>
        assert log + [] == log;
        SpokenSeen(before, log);
      case Advance(c) =>
        assert log + [] == log;
        MoveSeen(before, log, c);
      case Arrive(env) => ArrivedSeen(before, log, env);
    }
  }

  lemma ArrivedSeen(s: State, log: seq<Acceptance>, env: Envelope)
    requires SeenIsLog(s, log)
    ensures SeenIsLog(Handle(s, env), log + if Open(s, env).Ok? then [Acceptance(s.epoch, TagOf(env))] else [])
  {
    hide SeenIsLog, Group.ApplyCommit, Open;
    if Open(s, env).Ok? {
      var r := log + [Acceptance(s.epoch, TagOf(env))];
      OpenedSeen(s, log, env);
      if Open(s, env).value.CommitJson? {
        MoveSeen(Group.Decrypt(s, env), r, Open(s, env).value.commit);
      }
    } else {
      assert log + [] == log;
    }
  }

  lemma SpokenSeen(s: State, log: seq<Acceptance>)
    requires SeenIsLog(s, log)
    ensures SeenIsLog(Counted(s), log)
  {
  }

  /** The second time happens: what was accepted in its own epoch is accepted again after a commit exactly one on. */
  lemma AcceptedAgainIff(s: State, env: Envelope, c: Commit)
    requires Open(s, env).Ok? && Moves(c, s.epoch)
    ensures Open(Group.ApplyCommit(Group.Decrypt(s, env), c), env).Ok? <==>
      env.epoch == s.epoch && c.toEpoch.value == s.epoch + 1
  {
  }

  /** The guard compares whole counters, the nonce 32-bit words: a copy with its counter moved by 2^32 passes. */
  lemma MovedCounterIff(s: State, env: Envelope, m: nat)
    requires Open(s, env).Ok?
    ensures Open(Group.Decrypt(s, env), env.(n := m)).Ok? <==>
      m % WORD == env.n % WORD && m != env.n && Tag(env.sender, env.epoch, m) !in s.seen
  {
  }
}
