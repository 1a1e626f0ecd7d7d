/** The mutable group session. */
module GroupObject {
  import opened Common
  import opened Group
  import opened JsonText

  class GroupSession {
    const groupId: Text
    var epoch: nat
    var epochKey: GroupKey
    var prevEpochKey: Option<GroupKey>
    var members: seq<Address>
    const creator: Option<Address>
    const myAddress: Address
    var sent: nat
    var seen: set<Tag>

    ghost function View(): State
      reads this
    {
      State(groupId, epoch, epochKey, prevEpochKey, members, creator, myAddress, sent, seen)
    }

    constructor (groupId: Text, epoch: nat, epochKey: GroupKey, members: seq<Address>, creator: Option<Address>,
                 myAddress: Address)
      ensures View() == State(groupId, epoch, epochKey, None, members, creator, myAddress, 0, {})
    {
      this.groupId, this.epoch, this.epochKey, this.prevEpochKey := groupId, epoch, epochKey, None;
      this.members, this.creator, this.myAddress := members, creator, myAddress;
      sent, seen := 0, {};
    }

    static method Create(groupId: Text, key: nat, creator: Address, members: seq<Address>, me: Address)
      returns (s: GroupSession)
      ensures fresh(s) && s.View() == Group.Create(groupId, key, creator, members, me)
    {
      s := new GroupSession(groupId, 0, Fresh(key), Distinct(members + [me]), Some(creator), me);
    }

    method MakeWelcome() returns (w: Welcome)
      ensures w == Group.MakeWelcome(View())
    {
      w := Welcome(1, groupId, epoch, epochKey, Sort(members), creator);
    }

    static method FromWelcome(w: Welcome, me: Address) returns (r: Result<GroupSession, Failure>)
      ensures match Group.FromWelcome(w, me)
        case Ok(state) => r.Ok? && fresh(r.value) && r.value.View() == state
        case Err(e) => r == Err(e)
    {
      if w.v != 1 || w.groupId == [] || w.epoch < 0 {
        return Err(MalformedWelcome);
      }
      if me !in w.members {
        return Err(NotIncluded);
      }
      var s := new GroupSession(w.groupId, w.epoch, w.epochKey, w.members, w.creator, me);
      r := Ok(s);
    }

    method Encrypt(plain: Plain) returns (env: Envelope)
      modifies this`sent
      ensures env == Seal(old(View()), plain) && View() == Counted(old(View()))
    {
      sent := sent + 1;
      var n := sent;
      env := Envelope(true, epoch, myAddress, n, Box(epochKey, NonceFor(epochKey, myAddress, n), plain));
    }

    method Decrypt(env: Envelope) returns (r: Result<Plain, Failure>)
      modifies this`seen
      ensures r == Open(old(View()), env) && View() == Group.Decrypt(old(View()), env)
    {
      if !env.groupMode || env.sender == [] || env.n < 0 {
        return Err(MalformedEnvelope);
      }
      var key := if env.epoch == epoch then Some(epochKey)
                 else if env.epoch == epoch - 1 && prevEpochKey.Some? then prevEpochKey
                 else None;
      if key.None? {
        return Err(UnknownEpoch);
      }
      var seenKey := TagOf(env);
      if seenKey in seen {
        return Err(Replayed);
      }
      var c := env.ciphertext;
      if c.Noise? || c.key != key.value || c.nonce != NonceFor(key.value, env.sender, env.n) {
        return Err(CannotOpen);
      }
      seen := seen + {seenKey};
      r := Ok(c.plain);
    }

    method MakeCommit(secret: Bytes, toMembers: seq<Address>) returns (commit: Commit, env: Envelope)
      modifies this`sent
      ensures commit == NewCommit(old(View()), secret, toMembers)
      ensures env == Seal(old(View()), CommitJson(commit)) && View() == Counted(old(View()))
    {
      commit := Commit(Some(epoch + 1), Some(Decoded(secret)), Some(Sort(toMembers)));
      env := Encrypt(CommitJson(commit));
    }

    method ApplyCommit(c: Commit) returns (fault: Option<Failure>)
      modifies this
      ensures fault == CommitFault(old(View()), c) && View() == Group.ApplyCommit(old(View()), c)
    {
      if c.toEpoch.None? || c.secret.None? || c.members.None? {
        return Some(MalformedCommit);
      }
      var toEpoch := c.toEpoch.value;
      if toEpoch < epoch {
        return Some(StaleCommit);
      }
      if toEpoch == epoch {
        return None;
      }
      if c.secret.value.NotBase64? || |c.secret.value.bytes| != 32 {
        return Some(BadSecret);
      }
      var nextKey := NextKey(epochKey, c.secret.value.bytes, toEpoch, c.members.value);
      prevEpochKey := Some(epochKey);
      epochKey := nextKey;
      epoch := toEpoch;
      members := c.members.value;
      sent := 0;
      seen := {};
      fault := None;
    }

    method HandleIncoming(env: Envelope) returns (r: Result<Plain, Failure>)
      modifies this
      ensures r == Outcome(old(View()), env) && View() == Handle(old(View()), env)
    {
      r := Decrypt(env);
      if r.Ok? && r.value.CommitJson? {
        var fault := ApplyCommit(r.value.commit);
        if fault.Some? {
          r := Err(fault.value);
        }
      }
    }
  }
}
