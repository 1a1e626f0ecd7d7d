/** Group epochs: shared symmetric keys, commits, welcomes and the replay guard, over ideal encryption. */
module Group {
  import opened Common
  import opened JsonText

  type Address = Text

  /** An epoch key: drawn at creation, or derived from the key before it and one commit. */
  datatype GroupKey =
    | Fresh(id: nat)
    | Next(previous: GroupKey, secret: Bytes, toEpoch: nat, members: seq<Address>)

  datatype Nonce = Nonce(key: GroupKey, sender: Address, counter: nat)

  /** A commit as parsed from JSON; None where a field has the wrong type. */
  datatype Commit = Commit(toEpoch: Option<int>, secret: Option<Secret>, members: Option<seq<Address>>)

  datatype Secret = Decoded(bytes: Bytes) | NotBase64

  /** What is encrypted: JSON of type commit, or any other text. */
  datatype Plain = Words(text: Text) | CommitJson(commit: Commit)

  datatype Cipher = Box(key: GroupKey, nonce: Nonce, plain: Plain) | Noise(id: nat)

  datatype Envelope = Envelope(groupMode: bool, epoch: int, sender: Address, n: int, ciphertext: Cipher)

  datatype Welcome =
    Welcome(v: int, groupId: Text, epoch: int, epochKey: GroupKey, members: seq<Address>, creator: Option<Address>)

  datatype Failure =
    | MalformedEnvelope | UnknownEpoch | Replayed | CannotOpen
    | MalformedCommit | StaleCommit | BadSecret
    | MalformedWelcome | NotIncluded

  /** The key under which an accepted envelope is remembered. */
  datatype Tag = Tag(sender: Address, epoch: int, n: int)

  datatype State = State(
    groupId: Text, epoch: nat, epochKey: GroupKey, prevEpochKey: Option<GroupKey>, members: seq<Address>,
    creator: Option<Address>, myAddress: Address, sent: nat, seen: set<Tag>)

  const WORD: nat := 0x1_0000_0000

  // ---- Member lists ----

  function Insert(a: Address, l: seq<Address>): (r: seq<Address>)
    ensures multiset(r) == multiset(l) + multiset{a}
  {
    if l == [] || !Less(l[0], a) then [a] + l
    else
      assert l == [l[0]] + l[1..];
      [l[0]] + Insert(a, l[1..])
  }

  function Sort(l: seq<Address>): (r: seq<Address>)
    ensures multiset(r) == multiset(l)
  {
    if l == [] then []
    else
      assert l == [l[0]] + l[1..];
      Insert(l[0], Sort(l[1..]))
  }

  /** The first occurrence of each address. */
  function Distinct(l: seq<Address>): (r: seq<Address>)
    ensures forall a :: a in r <==> a in l
    ensures forall i, j | 0 <= i < j < |r| :: r[i] != r[j]
  {
    if l == [] then []
    else
      var front, last := Distinct(l[..|l| - 1]), l[|l| - 1];
      assert l == l[..|l| - 1] + [last];
      if last in front then front else front + [last]
  }

  // ---- Creating and joining ----

  function Create(groupId: Text, key: nat, creator: Address, members: seq<Address>, me: Address): State {
    State(groupId, 0, Fresh(key), None, Distinct(members + [me]), Some(creator), me, 0, {})
  }

  function MakeWelcome(s: State): Welcome {
    Welcome(1, s.groupId, s.epoch, s.epochKey, Sort(s.members), s.creator)
  }

  function FromWelcome(w: Welcome, me: Address): Result<State, Failure> {
    if w.v != 1 || w.groupId == [] || w.epoch < 0 then Err(MalformedWelcome)
    else if me !in w.members then Err(NotIncluded)
    else Ok(State(w.groupId, w.epoch, w.epochKey, None, w.members, w.creator, me, 0, {}))
  }

  // ---- Messages ----

  /** The counter enters the nonce as a 32-bit word. */
  function NonceFor(key: GroupKey, sender: Address, n: int): Nonce {
    Nonce(key, sender, n % WORD)
  }

  function Seal(s: State, plain: Plain): Envelope {
    var n := s.sent + 1;
    Envelope(true, s.epoch, s.myAddress, n, Box(s.epochKey, NonceFor(s.epochKey, s.myAddress, n), plain))
  }

  function Counted(s: State): State {
    s.(sent := s.sent + 1)
  }

  function KeyFor(s: State, epoch: int): Option<GroupKey> {
    if epoch == s.epoch then Some(s.epochKey)
    else if epoch == s.epoch - 1 then s.prevEpochKey
    else None
  }

  function TagOf(env: Envelope): Tag {
    Tag(env.sender, env.epoch, env.n)
  }

  function Open(s: State, env: Envelope): Result<Plain, Failure> {
    if !env.groupMode || env.sender == [] || env.n < 0 then Err(MalformedEnvelope)
    else match KeyFor(s, env.epoch)
      case None => Err(UnknownEpoch)
      case Some(key) =>
        if TagOf(env) in s.seen then Err(Replayed)
        else if env.ciphertext.Box? && env.ciphertext.key == key
                && env.ciphertext.nonce == NonceFor(key, env.sender, env.n) then Ok(env.ciphertext.plain)
        else Err(CannotOpen)
  }

  function Decrypt(s: State, env: Envelope): State {
    if Open(s, env).Ok? then s.(seen := s.seen + {TagOf(env)}) else s
  }

  // ---- Commits ----

  function NewCommit(s: State, secret: Bytes, toMembers: seq<Address>): Commit {
    Commit(Some(s.epoch + 1), Some(Decoded(secret)), Some(Sort(toMembers)))
  }

  function NextKey(key: GroupKey, secret: Bytes, toEpoch: nat, members: seq<Address>): GroupKey {
    Next(key, secret, toEpoch % WORD, members)
  }

  function CommitFault(s: State, c: Commit): Option<Failure> {
    if c.toEpoch.None? || c.secret.None? || c.members.None? then Some(MalformedCommit)
    else if c.toEpoch.value < s.epoch then Some(StaleCommit)
    else if c.toEpoch.value == s.epoch then None
    else if c.secret.value.NotBase64? || |c.secret.value.bytes| != 32 then Some(BadSecret)
    else None
  }

  function ApplyCommit(s: State, c: Commit): State {
    if CommitFault(s, c).Some? || c.toEpoch.value == s.epoch then s
    else
      var key := NextKey(s.epochKey, c.secret.value.bytes, c.toEpoch.value, c.members.value);
      s.(epoch := c.toEpoch.value, epochKey := key, prevEpochKey := Some(s.epochKey), members := c.members.value,
         sent := 0, seen := {})
  }

  /** A commit that fails to apply has been decrypted and remembered all the same. */
  function Handle(s: State, env: Envelope): State {
    var plain := Open(s, env);
    if plain.Ok? && plain.value.CommitJson? then ApplyCommit(Decrypt(s, env), plain.value.commit)
    else Decrypt(s, env)
  }

  function Outcome(s: State, env: Envelope): Result<Plain, Failure> {
    var plain := Open(s, env);
    if plain.Ok? && plain.value.CommitJson? && CommitFault(s, plain.value.commit).Some?
    then Err(CommitFault(s, plain.value.commit).value)
    else plain
  }
}
