/** The credential binding a did:key to a messenger address, over ideal ECDSA signatures. */
module KeyBinding {
  import opened Common
  import opened JsonText
  import opened Canonical
  import Base58

  /** A public key's coordinates, base64url already decoded; an absent or empty field is None. */
  datatype Jwk = Jwk(x: Option<Bytes>, y: Option<Bytes>)

  datatype PrivateKey = PrivateKey(public: Jwk, secret: nat)

  /** A signature names its key and the exact text under it; anything else is Junk. */
  datatype Signature = Sig(key: PrivateKey, text: Text, nonce: nat) | Junk(id: nat)

  datatype Statement = Raw(text: Text) | Value(value: Json)

  datatype Failure =
    | MissingKey | BadCoordinates | DidMismatch | NotDidKey | BadAddress | BadSignPk
    | MissingCredential | MissingSubject | NotKeyBinding | SubjectMismatch | MissingSignature | BadSignature

  datatype Credential =
    Credential(issuer: Json, subject: Json, publicKeyJwk: Option<Jwk>, jws: Option<Signature>)

  function Ascii(s: string): (t: Text)
    ensures |t| == |s|
  {
    seq(|s|, i requires 0 <= i < |s| => s[i] as int % 0x1_0000)
  }

  // ---- did:key ----

  function ZeroBytes(n: nat): (z: Bytes)
    ensures |z| == n && forall i | 0 <= i < n :: z[i] == 0
  {
    seq(n, i => 0)
  }

  /** An even last byte of y gives 2; no byte at all counts as odd. */
  function Parity(y: Bytes): Byte {
    if y != [] && y[|y| - 1] % 2 == 0 then 2 else 3
  }

  /** The 32-byte field x is written into. */
  function Padded(x: Bytes): (r: Bytes)
    requires |x| <= 32
    ensures |r| == 32
  {
    x + ZeroBytes(32 - |x|)
  }

  function DidBytes(x: Bytes, y: Bytes): Bytes
    requires |x| <= 32
  {
    [0x80, 0x24] + ([Parity(y)] + Padded(x))
  }

  function DidKey(jwk: Jwk): Result<Text, Failure> {
    if jwk.x.None? || jwk.y.None? || |jwk.x.value| > 32 then Err(BadCoordinates)
    else Ok(Ascii("did:key:z" + Base58.Encoded(DidBytes(jwk.x.value, jwk.y.value))))
  }

  // ---- Statements ----

  function StatementText(s: Statement): Text {
    match s
    case Raw(text) => text
    case Value(v) => Canon(v)
  }

  function SignStatement(key: PrivateKey, s: Statement, nonce: nat): Signature {
    Sig(key, StatementText(s), nonce)
  }

  predicate VerifyStatement(jwk: Jwk, s: Statement, signature: Signature) {
    signature.Sig? && signature.key.public == jwk && signature.text == StatementText(s)
  }

  // ---- The binding subject ----

  function Find(members: seq<Member>, key: Text): Json {
    if members == [] then Undefined
    else if members[0].key == key then members[0].value
    else Find(members[1..], key)
  }

  function Field(v: Json, name: string): Json {
    if v.Obj? then Find(v.members, Ascii(name)) else Undefined
  }

  function Assign(members: seq<Member>, m: Member): seq<Member> {
    if members == [] then [m]
    else if members[0].key == m.key then [m] + members[1..]
    else [members[0]] + Assign(members[1..], m)
  }

  /** Object spread: later members overwrite earlier ones in place. */
  function Spread(base: seq<Member>, members: seq<Member>): seq<Member>
    decreases |members|
  {
    if members == [] then base else Spread(Assign(base, members[0]), members[1..])
  }

  predicate IsDidKey(t: Text) {
    Ascii("did:key:") <= t
  }

  function BindingMembers(did: Text, routingAddress: Text, signPk: Text, boundAt: Text): seq<Member> {
    [ Member(Ascii("id"), Str(did)),
      Member(Ascii("type"), Str(Ascii("KeyBinding"))),
      Member(Ascii("routingAddress"), Str(routingAddress)),
      Member(Ascii("signPk"), Str(signPk)),
      Member(Ascii("boundAt"), Str(boundAt)) ]
  }

  function BuildBindingSubject(did: Text, routingAddress: Text, signPk: Text, boundAt: Text): Result<Json, Failure> {
    if !IsDidKey(did) then Err(NotDidKey)
    else if |routingAddress| < 32 then Err(BadAddress)
    else if signPk == [] then Err(BadSignPk)
    else Ok(Obj(BindingMembers(did, routingAddress, signPk, boundAt)))
  }

  function SignKeyBinding(key: PrivateKey, did: Text, routingAddress: Text, signPk: Text, jwk: Option<Jwk>,
                          boundAt: Text, nonce: nat): Result<Credential, Failure>
  {
    if jwk.None? then Err(MissingKey)
    else match DidKey(jwk.value)
      case Err(e) => Err(e)
      case Ok(own) =>
        if own != did then Err(DidMismatch)
        else match BuildBindingSubject(did, routingAddress, signPk, boundAt)
          case Err(e) => Err(e)
          case Ok(subject) =>
            var signature := SignStatement(key, Value(subject), nonce);
            Ok(Credential(Str(did), Obj(Spread([Member(Ascii("id"), Str(did))], subject.members)), jwk,
                          Some(signature)))
  }

  predicate FilledString(v: Json) {
    v.Str? && v.s != []
  }

  function VerifyKeyBinding(credential: Option<Credential>, trusted: Option<Jwk>): Result<(), Failure> {
    if credential.None? then Err(MissingCredential)
    else
      var c := credential.value;
      if !c.issuer.Str? || !IsDidKey(c.issuer.s) then Err(NotDidKey)
      else
        var jwk := if trusted.Some? then trusted else c.publicKeyJwk;
        if jwk.None? then Err(MissingKey)
        else match DidKey(jwk.value)
          case Err(e) => Err(e)
          case Ok(own) =>
            if own != c.issuer.s then Err(DidMismatch)
            else VerifySubject(c, jwk.value)
  }

  /** The checks behind the one that ties the key to the issuer. */
  function VerifySubject(c: Credential, jwk: Jwk): Result<(), Failure> {
    if !c.subject.Obj? && !c.subject.Arr? then Err(MissingSubject)
    else if Field(c.subject, "type") != Str(Ascii("KeyBinding")) then Err(NotKeyBinding)
    else if Field(c.subject, "id") != c.issuer then Err(SubjectMismatch)
    else if !FilledString(Field(c.subject, "routingAddress")) then Err(BadAddress)
    else if !FilledString(Field(c.subject, "signPk")) then Err(BadSignPk)
    else if c.jws.None? then Err(MissingSignature)
    else if VerifyStatement(jwk, Value(c.subject), c.jws.value) then Ok(())
    else Err(BadSignature)
  }

  // ---- did:key names a key up to the padding of x and the parity of y ----

  lemma AsciiInjective(s: string, t: string)
    requires Ascii(s) == Ascii(t)
    requires forall c | c in s || c in t :: c as int < 0x1_0000
    ensures s == t
  {
    forall i | 0 <= i < |s| ensures s[i] == t[i] {
      assert Ascii(s)[i] == Ascii(t)[i];
      assert s[i] in s && t[i] in t;
    }
  }

  lemma EncodedAscii(b: Bytes)
    ensures forall c | c in Base58.Encoded(b) :: c as int < 0x1_0000
  {
  }

  lemma SameTextSameBytes(a: Bytes, b: Bytes)
    requires Ascii("did:key:z" + Base58.Encoded(a)) == Ascii("did:key:z" + Base58.Encoded(b))
    ensures a == b
  {
    var p, s, t := "did:key:z", Base58.Encoded(a), Base58.Encoded(b);
    EncodedAscii(a);
    EncodedAscii(b);
    Base58.DecodeEncode(a);
    Base58.DecodeEncode(b);
    hide *;
    AsciiInjective(p + s, p + t);
    assert s == (p + s)[9..] && t == (p + t)[9..];
  }

  lemma DidBytesParts(x: Bytes, y: Bytes)
    requires |x| <= 32
    ensures var d := DidBytes(x, y); |d| == 35 && d[2] == Parity(y) && d[3..] == Padded(x)
  {
    var d := DidBytes(x, y);
    assert d[3..] == Padded(x);
  }

  /** The identifier, unlike the key, does not see how long x was or more of y than its parity. */
  lemma DidEqualIff(j: Jwk, k: Jwk)
    requires DidKey(j).Ok? && DidKey(k).Ok?
    ensures DidKey(j) == DidKey(k) <==>
      Padded(j.x.value) == Padded(k.x.value) && Parity(j.y.value) == Parity(k.y.value)
  {
    hide Base58.Encoded, Ascii, Padded, Parity;
    DidBytesParts(j.x.value, j.y.value);
    DidBytesParts(k.x.value, k.y.value);
    if DidKey(j) == DidKey(k) {
      SameTextSameBytes(DidBytes(j.x.value, j.y.value), DidBytes(k.x.value, k.y.value));
    }
  }

  /** The text is the string, character for character. */
  predicate Spells(t: Text, s: string) {
    |t| == |s| && forall i | 0 <= i < |s| :: t[i] == s[i] as int
  }

  lemma AsciiSpells(s: string)
    requires forall c | c in s :: c as int < 0x1_0000
    ensures Spells(Ascii(s), s)
  {
    forall i | 0 <= i < |s| ensures Ascii(s)[i] == s[i] as int {
      assert s[i] in s;
    }
  }

  lemma PrefixedSpells(p: string, b: Bytes)
    requires forall c | c in p :: c as int < 0x1_0000
    ensures Spells(Ascii(p + Base58.Encoded(b)), p + Base58.Encoded(b))
  {
    EncodedAscii(b);
    hide Base58.Encoded, Ascii, Spells;
    AsciiSpells(p + Base58.Encoded(b));
  }

  /**
   * What is in an identifier: behind the prefix stands the Base58 text of 35 bytes, the two of the curve, 2 or 3 by
   * the last byte of y, and the bytes of x with zeros behind them.
   */
  lemma DidDecodes(jwk: Jwk)
    ensures DidKey(jwk).Ok? <==> jwk.x.Some? && jwk.y.Some? && |jwk.x.value| <= 32
    ensures DidKey(jwk).Ok? ==>
      exists s: string :: (
        && Spells(DidKey(jwk).value, "did:key:z" + s)
        && Base58.Decoded(s).Ok? && KeyBytes(Base58.Decoded(s).value, jwk))
  {
    if DidKey(jwk).Ok? {
      var d := DidBytes(jwk.x.value, jwk.y.value);
      Base58.DecodeEncode(d);
      DidBytesHold(jwk);
      PrefixedSpells("did:key:z", d);
      hide Base58.Encoded, Base58.Decoded, Ascii, Spells, KeyBytes, DidBytes;
      var s := Base58.Encoded(d);
      assert Spells(DidKey(jwk).value, "did:key:z" + s) && Base58.Decoded(s) == Ok(d);
    }
  }

  lemma DidBytesHold(jwk: Jwk)
    requires jwk.x.Some? && jwk.y.Some? && |jwk.x.value| <= 32
    ensures KeyBytes(DidBytes(jwk.x.value, jwk.y.value), jwk)
  {
    DidBytesParts(jwk.x.value, jwk.y.value);
  }

  predicate KeyBytes(d: seq<int>, jwk: Jwk) {
    && jwk.x.Some? && jwk.y.Some? && |d| == 35 && |jwk.x.value| <= 32
    && d[0] == 0x80 && d[1] == 0x24
    && (d[2] == 2 || d[2] == 3)
    && (d[2] == 2 <==> |jwk.y.value| > 0 && jwk.y.value[|jwk.y.value| - 1] % 2 == 0)
    && d[3..][..|jwk.x.value|] == jwk.x.value
    && (forall i | 3 + |jwk.x.value| <= i < 35 :: d[i] == 0)
  }

  /** An x written short and the same x with zeros behind it have one identifier, though they are different keys. */
  lemma ShortCoordinateCollides(x: Bytes, y: Bytes)
    requires |x| < 32
    ensures var short, long := Jwk(Some(x), Some(y)), Jwk(Some(x + [0]), Some(y));
      short != long && DidKey(short).Ok? && DidKey(short) == DidKey(long)
  {
    var short, long := Jwk(Some(x), Some(y)), Jwk(Some(x + [0]), Some(y));
    assert Padded(x) == Padded(x + [0]);
    DidEqualIff(short, long);
    assert |short.x.value| != |long.x.value|;
  }

  // ---- Credentials ----

  /** The key a verifier ends up using. */
  function Chosen(c: Credential, trusted: Option<Jwk>): Option<Jwk> {
    if trusted.Some? then trusted else c.publicKeyJwk
  }

  lemma NamesApart()
    ensures Ascii("id") != Ascii("type") && Ascii("id") != Ascii("routingAddress")
    ensures Ascii("id") != Ascii("signPk") && Ascii("id") != Ascii("boundAt")
    ensures Ascii("type") != Ascii("routingAddress") && Ascii("type") != Ascii("signPk")
    ensures Ascii("type") != Ascii("boundAt") && Ascii("routingAddress") != Ascii("signPk")
    ensures Ascii("routingAddress") != Ascii("boundAt") && Ascii("signPk") != Ascii("boundAt")
  {
    assert |Ascii("id")| == 2 && |Ascii("type")| == 4 && |Ascii("routingAddress")| == 14;
    assert |Ascii("signPk")| == 6 && |Ascii("boundAt")| == 7;
  }

  /** Spreading the subject over its own identifier changes nothing. */
  lemma SubjectKept(did: Text, members: seq<Member>)
    requires members != [] && members[0] == Member(Ascii("id"), Str(did))
    requires forall i, j | 0 <= i < j < |members| :: members[i].key != members[j].key
    ensures Spread([Member(Ascii("id"), Str(did))], members) == members
  {
    hide Ascii;
    var base := [members[0]];
    assert Assign(base, members[0]) == base;
    SpreadFresh(base, members[1..]);
    assert base + members[1..] == members;
  }

  lemma {:induction false} AssignFresh(base: seq<Member>, m: Member)
    requires forall i | 0 <= i < |base| :: base[i].key != m.key
    ensures Assign(base, m) == base + [m]
  {
    if base != [] {
      AssignFresh(base[1..], m);
      assert base == [base[0]] + base[1..];
    }
  }

  lemma {:induction false} SpreadFresh(base: seq<Member>, members: seq<Member>)
    requires forall i, j | 0 <= i < j < |base + members| :: (base + members)[i].key != (base + members)[j].key
    ensures Spread(base, members) == base + members
    decreases |members|
  {
    if members == [] {
      assert base + members == base;
    } else {
      forall i | 0 <= i < |base| ensures base[i].key != members[0].key {
        assert (base + members)[i] == base[i] && (base + members)[|base|] == members[0];
      }
      AssignFresh(base, members[0]);
      assert base + members == (base + [members[0]]) + members[1..];
      SpreadFresh(base + [members[0]], members[1..]);
    }
  }

  lemma {:induction false} FindMember(m: seq<Member>, i: nat)
    requires i < |m| && forall j, k | 0 <= j < k < |m| :: m[j].key != m[k].key
    ensures Find(m, m[i].key) == m[i].value
  {
    if i > 0 {
      FindMember(m[1..], i - 1);
    }
  }

  lemma BindingFields(did: Text, routingAddress: Text, signPk: Text, boundAt: Text)
    ensures var m := BindingMembers(did, routingAddress, signPk, boundAt);
      && (forall i, j | 0 <= i < j < |m| :: m[i].key != m[j].key)
      && Field(Obj(m), "id") == Str(did) && Field(Obj(m), "type") == Str(Ascii("KeyBinding"))
      && Field(Obj(m), "routingAddress") == Str(routingAddress) && Field(Obj(m), "signPk") == Str(signPk)
      && Field(Obj(m), "boundAt") == Str(boundAt) && |m| == 5
  {
    hide Ascii;
    NamesApart();
    var m := BindingMembers(did, routingAddress, signPk, boundAt);
    FindMember(m, 0);
    FindMember(m, 1);
    FindMember(m, 2);
    FindMember(m, 3);
    FindMember(m, 4);
  }

  /** A credential carries exactly the subject that was signed: five fields, and what each holds. */
  lemma SignedSubject(key: PrivateKey, did: Text, routingAddress: Text, signPk: Text, jwk: Option<Jwk>,
                      boundAt: Text, nonce: nat)
    ensures var r := SignKeyBinding(key, did, routingAddress, signPk, jwk, boundAt, nonce);
      r.Ok? <==> jwk.Some? && DidKey(jwk.value) == Ok(did) && |routingAddress| >= 32 && signPk != []
    ensures var r := SignKeyBinding(key, did, routingAddress, signPk, jwk, boundAt, nonce);
      r.Ok? ==> (
        && r.value.issuer == Str(did) && IsDidKey(did) && r.value.publicKeyJwk == jwk
        && r.value.subject == Obj(BindingMembers(did, routingAddress, signPk, boundAt))
        && r.value.jws == Some(Sig(key, Canon(r.value.subject), nonce)))
    ensures var r := SignKeyBinding(key, did, routingAddress, signPk, jwk, boundAt, nonce);
      r.Ok? ==> (
        && |r.value.subject.members| == 5
        && Field(r.value.subject, "id") == Str(did)
        && Field(r.value.subject, "type") == Str(Ascii("KeyBinding"))
        && Field(r.value.subject, "routingAddress") == Str(routingAddress)
        && Field(r.value.subject, "signPk") == Str(signPk)
        && Field(r.value.subject, "boundAt") == Str(boundAt))
  {
    hide Canon, Ascii;
    if jwk.Some? && DidKey(jwk.value) == Ok(did) {
      DidIsDidKey(jwk.value);
      BindingFields(did, routingAddress, signPk, boundAt);
      SubjectKept(did, BindingMembers(did, routingAddress, signPk, boundAt));
    }
  }

  lemma DidIsDidKey(jwk: Jwk)
    requires DidKey(jwk).Ok?
    ensures IsDidKey(DidKey(jwk).value)
  {
    var p, s := "did:key:", "did:key:z" + Base58.Encoded(DidBytes(jwk.x.value, jwk.y.value));
    assert forall i | 0 <= i < |p| :: p[i] == s[i];
    assert Ascii(p) == Ascii(s)[..|p|];
  }

  /**
   * A freshly signed credential verifies exactly when the verifier uses the signer's own key: the embedded one if it
   * is the signer's, or one the verifier brings; any other key is refused, even one with the same identifier.
   */
  lemma SignedVerifiesIff(key: PrivateKey, did: Text, routingAddress: Text, signPk: Text, jwk: Option<Jwk>,
                          boundAt: Text, nonce: nat, trusted: Option<Jwk>)
    requires SignKeyBinding(key, did, routingAddress, signPk, jwk, boundAt, nonce).Ok?
    ensures var c := SignKeyBinding(key, did, routingAddress, signPk, jwk, boundAt, nonce).value;
      VerifyKeyBinding(Some(c), trusted).Ok? <==>
        Chosen(c, trusted) == Some(key.public) && DidKey(key.public) == Ok(did)
  {
    SignedSubject(key, did, routingAddress, signPk, jwk, boundAt, nonce);
    BindingFields(did, routingAddress, signPk, boundAt);
    hide Canon, Ascii, BindingMembers, SignKeyBinding, IsDidKey, DidKey, Field;
  }

  /** Exactly what an accepted credential shows. */
  lemma AcceptedIff(c: Credential, trusted: Option<Jwk>)
    ensures VerifyKeyBinding(Some(c), trusted).Ok? <==> (
      && c.jws.Some? && c.jws.value.Sig? && c.jws.value.text == Canon(c.subject)
      && Chosen(c, trusted) == Some(c.jws.value.key.public)
      && c.issuer.Str? && DidKey(c.jws.value.key.public) == Ok(c.issuer.s)
      && Field(c.subject, "id") == c.issuer && Field(c.subject, "type") == Str(Ascii("KeyBinding"))
      && FilledString(Field(c.subject, "routingAddress")) && FilledString(Field(c.subject, "signPk")))
  {
    hide Canon, Ascii, IsDidKey, DidKey;
    if c.jws.Some? && c.jws.value.Sig? && DidKey(c.jws.value.key.public).Ok? {
      DidIsDidKey(c.jws.value.key.public);
    }
  }

  /**
   * Whoever holds the issuer's key produced the signature, and signed with it either an object equal to the subject
   * up to key order and undefined members, or the subject's canonical text as a bare string.
   */
  lemma AcceptedWasSigned(c: Credential, trusted: Option<Jwk>, key: PrivateKey, s: Statement, nonce: nat)
    requires Proper(c.subject) && (s.Value? ==> Proper(s.value))
    requires VerifyKeyBinding(Some(c), trusted).Ok? && c.jws == Some(SignStatement(key, s, nonce))
    ensures c.issuer.Str? && DidKey(key.public) == Ok(c.issuer.s)
    ensures if s.Value? then Same(s.value, c.subject) else s.text == Canon(c.subject)
  {
    AcceptedIff(c, trusted);
    hide Canon, Ascii, IsDidKey, DidKey;
    if s.Value? {
      CanonEqualIff(s.value, c.subject);
    }
  }

  lemma {:induction false} FoundMember(m: seq<Member>, key: Text)
    requires Find(m, key) != Undefined
    ensures exists i | 0 <= i < |m| :: m[i].key == key && m[i].value == Find(m, key)
  {
    if m[0].key != key {
      FoundMember(m[1..], key);
      var i :| 0 <= i < |m[1..]| && m[1..][i].key == key && m[1..][i].value == Find(m[1..], key);
      assert m[i + 1].key == key;
    }
  }

  lemma SameString(v: Json, w: Json)
    requires v.Str? && Same(v, w)
    ensures v == w
  {
  }

  lemma SamePartner(m: seq<Member>, n: seq<Member>, i: nat)
    requires Same(Obj(m), Obj(n)) && i < |m| && m[i].value != Undefined
    ensures exists j | 0 <= j < |n| :: n[j].key == m[i].key && Same(m[i].value, n[j].value)
  {
    hide Proper;
    var j :| 0 <= j < |n| && n[j].value != Undefined && n[j].key == m[i].key && Same(m[i].value, n[j].value);
  }

  lemma SameStringMember(m: seq<Member>, n: seq<Member>, i: nat)
    requires Same(Obj(m), Obj(n)) && i < |m| && m[i].value.Str?
    ensures exists j | 0 <= j < |n| :: n[j] == m[i]
  {
    SamePartner(m, n, i);
    hide Same;
    var j :| 0 <= j < |n| && n[j].key == m[i].key && Same(m[i].value, n[j].value);
    SameString(m[i].value, n[j].value);
    assert n[j] == m[i];
  }

  lemma SameObjects(v: Json, w: Json)
    requires v.Obj? && Same(v, w)
    ensures w.Obj?
  {
  }

  lemma KeysDiffer(members: seq<Member>)
    requires Proper(Obj(members))
    ensures forall i, j | 0 <= i < j < |members| :: members[i].key != members[j].key
  {
  }

  /** Objects that are the same up to key order agree on every string field. */
  lemma SameStringField(v: Json, w: Json, name: string)
    requires Proper(v) && Proper(w) && Same(v, w) && Field(v, name).Str?
    ensures Field(w, name) == Field(v, name)
  {
    SameObjects(v, w);
    hide Ascii, Same, Proper;
    var key := Ascii(name);
    var m, n := v.members, w.members;
    KeysDiffer(n);
    FoundMember(m, key);
    hide Find;
    var i :| 0 <= i < |m| && m[i].key == key && m[i].value == Find(m, key);
    SameStringMember(m, n, i);
    var j :| 0 <= j < |n| && n[j] == m[i];
    FindMember(n, j);
  }

  /** A signature cannot be moved: two accepted credentials carrying it have one issuer, one key and one subject. */
  lemma SignaturePinsCredential(c: Credential, d: Credential, t: Option<Jwk>, u: Option<Jwk>)
    requires Proper(c.subject) && Proper(d.subject) && c.jws == d.jws
    requires VerifyKeyBinding(Some(c), t).Ok? && VerifyKeyBinding(Some(d), u).Ok?
    ensures Same(c.subject, d.subject) && c.issuer == d.issuer && Chosen(c, t) == Chosen(d, u)
    ensures Field(c.subject, "routingAddress") == Field(d.subject, "routingAddress")
    ensures Field(c.subject, "signPk") == Field(d.subject, "signPk")
  {
    AcceptedIff(c, t);
    AcceptedIff(d, u);
    CanonEqualIff(c.subject, d.subject);
    hide Canon, Ascii, IsDidKey, DidKey, VerifyKeyBinding, Same, Proper, Field;
    SameStringField(c.subject, d.subject, "routingAddress");
    SameStringField(c.subject, d.subject, "signPk");
  }
}
