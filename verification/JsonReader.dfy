/** A strict reader of canonical JSON, and what it makes of a canonical text. */
module JsonReader {
  import opened JsonText
  import opened Canonical

  datatype Outcome<T> = Read(value: T, rest: Text) | Malformed

  predicate At(t: Text, i: nat, c: char) {
    i < |t| && t[i] == c as int
  }

  predicate Starts(t: Text, word: string) {
    |word| <= |t| && forall i | 0 <= i < |word| :: At(t, i, word[i])
  }

  // ---- The reader ----

  function HexValue(u: Unit): int {
    if '0' as int <= u <= '9' as int then u - '0' as int
    else if 'a' as int <= u <= 'f' as int then u - 'a' as int + 10
    else -1
  }

  /** The control characters with a short escape. */
  function ShortEscape(u: Unit): int {
    if u == 'b' as int then 8
    else if u == 't' as int then 9
    else if u == 'n' as int then 10
    else if u == 'f' as int then 12
    else if u == 'r' as int then 13
    else if u == '\"' as int || u == '\\' as int then u
    else -1
  }

  /** The code units that may not stand in a literal by themselves and have no short escape. */
  predicate NeedsHex(u: int) {
    (0 <= u < 32 && u !in {8, 9, 10, 12, 13}) || 0xD800 <= u < 0xE000
  }

  function ReadHex(t: Text): Outcome<Text> {
    if |t| < 4 || exists i | 0 <= i < 4 :: HexValue(t[i]) < 0 then Malformed
    else
      var u := HexValue(t[0]) * 0x1000 + HexValue(t[1]) * 0x100 + HexValue(t[2]) * 0x10 + HexValue(t[3]);
      if NeedsHex(u) then Read([u], t[4..]) else Malformed
  }

  /** One code unit, or a surrogate pair, inside a literal. */
  function ReadUnit(t: Text): (o: Outcome<Text>)
    ensures o.Read? ==> |o.rest| < |t|
  {
    if t == [] then Malformed
    else if At(t, 0, '\\') then
      if At(t, 1, 'u') then ReadHex(t[2..])
      else if |t| > 1 && ShortEscape(t[1]) >= 0 then Read([ShortEscape(t[1])], t[2..])
      else Malformed
    else if PairFirst(t) then Read(t[..2], t[2..])
    else if NeedsHex(t[0]) || t[0] < 32 || At(t, 0, '\"') then Malformed
    else Read(t[..1], t[1..])
  }

  /** The rest of a literal up to its closing quote; the halves of a pair may not be escaped. */
  function ReadString(t: Text): (o: Outcome<Text>)
    ensures o.Read? ==> |o.rest| < |t|
    decreases |t|
  {
    if At(t, 0, '\"') then Read([], t[1..])
    else match ReadUnit(t)
      case Malformed => Malformed
      case Read(u, r) =>
        match ReadString(r)
        case Malformed => Malformed
        case Read(s, rest) => if |u| == 1 && s != [] && PairFirst([u[0], s[0]]) then Malformed else Read(u + s, rest)
  }

  /** The longest run of the characters numbers are made of. */
  function ReadNumber(t: Text): (o: Outcome<Text>)
    ensures o.Read? && |o.rest| <= |t|
  {
    if t != [] && (t[0] in {'+' as int, '-' as int, '.' as int, 'E' as int, 'e' as int} ||
                   '0' as int <= t[0] <= '9' as int)
    then var o := ReadNumber(t[1..]); Read([t[0]] + o.value, o.rest)
    else Read([], t)
  }

  /** One value; where a value is missing between delimiters an array holds undefined. */
  function ReadValue(t: Text): (o: Outcome<Json>)
    ensures o.Read? ==> |o.rest| <= |t|
    decreases |t|, 0
  {
    if t == [] || At(t, 0, ',') || At(t, 0, ']') || At(t, 0, '}') then Read(Undefined, t)
    else if At(t, 0, '\"') then
      var o := ReadString(t[1..]);
      if o.Read? then Read(Str(o.value), o.rest) else Malformed
    else if At(t, 0, '[') then
      if At(t, 1, ']') then Read(Arr([]), t[2..])
      else
        var o := ReadItems(t[1..]);
        if o.Read? then Read(Arr(o.value), o.rest) else Malformed
    else if At(t, 0, '{') then
      if At(t, 1, '}') then Read(Obj([]), t[2..])
      else
        var o := ReadMembers(t[1..]);
        if o.Read? then Read(Obj(o.value), o.rest) else Malformed
    else if Starts(t, "null") then Read(Null, t[4..])
    else if Starts(t, "true") then Read(Bool(true), t[4..])
    else if Starts(t, "false") then Read(Bool(false), t[5..])
    else
      var o := ReadNumber(t);
      if o.value == [] then Malformed else Read(Num(o.value), o.rest)
  }

  function ReadItems(t: Text): (o: Outcome<seq<Json>>)
    ensures o.Read? ==> |o.rest| <= |t|
    decreases |t|, 1
  {
    match ReadValue(t)
    case Malformed => Malformed
    case Read(v, r) =>
      if At(r, 0, ']') then Read([v], r[1..])
      else if !At(r, 0, ',') then Malformed
      else
        var o := ReadItems(r[1..]);
        if o.Read? then Read([v] + o.value, o.rest) else Malformed
  }

  function ReadMembers(t: Text): (o: Outcome<seq<Member>>)
    ensures o.Read? ==> |o.rest| <= |t|
    decreases |t|, 1
  {
    if !At(t, 0, '\"') then Malformed
    else match ReadString(t[1..])
      case Malformed => Malformed
      case Read(key, a) =>
        if !At(a, 0, ':') then Malformed
        else match ReadValue(a[1..])
          case Malformed => Malformed
          case Read(v, r) =>
            if At(r, 0, '}') then Read([Member(key, v)], r[1..])
            else if !At(r, 0, ',') then Malformed
            else
              var o := ReadMembers(r[1..]);
              if o.Read? then Read([Member(key, v)] + o.value, o.rest) else Malformed
  }

  // ---- String literals ----

  lemma HexDigitValue(d: nat)
    requires d < 16
    ensures HexValue(HexDigit(d)) == d
  {
  }

  lemma HexRead(u: Unit, y: Text)
    requires NeedsHex(u)
    ensures ReadHex(UnicodeEscape(u)[2..] + y) == Read([u], y)
  {
    var n: int := u;
    var h := UnicodeEscape(u)[2..];
    assert h == [HexDigit(n / 0x1000), HexDigit(n / 0x100 % 16), HexDigit(n / 16 % 16), HexDigit(n % 16)];
    HexDigitValue(n / 0x1000);
    HexDigitValue(n / 0x100 % 16);
    HexDigitValue(n / 16 % 16);
    HexDigitValue(n % 16);
    Nibbles(u);
    assert (h + y)[4..] == y;
  }

  lemma UnitRead(s: Text, y: Text)
    requires s != []
    ensures ReadUnit(Chunk(s) + y) == Read(s[..Taken(s)], y)
  {
    var c := Chunk(s);
    assert (c + y)[|c|..] == y;
    if PairFirst(s) {
      assert (c + y)[..2] == s[..2];
    } else if NeedsHex(s[0]) {
      assert c == UnicodeEscape(s[0]);
      assert (c + y)[2..] == c[2..] + y;
      hide ReadHex, UnicodeEscape;
      HexRead(s[0], y);
      assert s[..1] == [s[0]];
    } else {
      assert s[..1] == [s[0]];
    }
  }

  lemma {:induction false} StringRead(s: Text, x: Text)
    ensures ReadString(Closed(s, x)) == Read(s, x)
    decreases |s|
  {
    hide ReadUnit, Closed, Chunk;
    if s != [] {
      var n := Taken(s);
      UnitRead(s, Closed(s[n..], x));
      StringRead(s[n..], x);
      assert s == s[..n] + s[n..];
      assert n == 1 && |s| > 1 ==> [s[..n][0], s[n..][0]] == s[..2];
    }
  }

  lemma LiteralRead(s: Text, x: Text)
    ensures var t := Quote(s) + x; At(t, 0, '\"') && ReadString(t[1..]) == Read(s, x)
  {
    ClosedIsBody(s, x);
    StringRead(s, x);
    assert (Quote(s) + x)[1..] == Closed(s, x);
  }

  lemma {:induction false} NumberRead(p: Text, x: Text)
    requires (forall i | 0 <= i < |p| :: NumberUnit(p[i])) && (x == [] || !NumberUnit(x[0]))
    ensures ReadNumber(p + x) == Read(p, x)
  {
    if p == [] {
      assert p + x == x;
    } else {
      assert (p + x)[1..] == p[1..] + x;
      NumberRead(p[1..], x);
      assert p == [p[0]] + p[1..];
    }
  }

  lemma StartsWith(t: Text, word: string)
    requires word != "" && Starts(t, word)
    ensures At(t, 0, word[0])
  {
  }

  lemma NotStarted(t: Text)
    requires !At(t, 0, 'n') && !At(t, 0, 't') && !At(t, 0, 'f')
    ensures !Starts(t, "null") && !Starts(t, "true") && !Starts(t, "false")
  {
    if Starts(t, "null") { StartsWith(t, "null"); }
    if Starts(t, "true") { StartsWith(t, "true"); }
    if Starts(t, "false") { StartsWith(t, "false"); }
  }

  lemma WordReads(v: Json, x: Text)
    requires v.Null? || v.Bool?
    ensures ReadValue(Canon(v) + x) == Read(v, x)
  {
    var c := Canon(v);
    var t := c + x;
    assert forall i | 0 <= i < |c| :: t[i] == c[i];
    assert t[|c|..] == x;
    var w := if v.Null? then "null" else if v.b then "true" else "false";
    assert |w| == |c| && forall i | 0 <= i < |w| :: w[i] as int == c[i];
    assert forall i | 0 <= i < |w| :: At(t, i, w[i]);
    assert Starts(t, w);
    if Starts(t, "null") { StartsWith(t, "null"); }
    if Starts(t, "true") { StartsWith(t, "true"); }
    hide Canon, ReadString, ReadItems, ReadMembers, ReadNumber, Starts;
  }

  // ---- Reading a canonical text ----

  /** Every object's keys strictly increase by code unit, and every member has a value. */
  ghost predicate Ordered(v: Json) {
    match v
    case Arr(items) => forall i | 0 <= i < |items| :: Ordered(items[i])
    case Obj(members) =>
      && (forall i, j | 0 <= i < j < |members| :: Less(members[i].key, members[j].key))
      && (forall i | 0 <= i < |members| :: members[i].value != Undefined && Ordered(members[i].value))
    case _ => true
  }

  /** What reading gives back of a value. */
  ghost predicate ReadsAs(o: Outcome<Json>, v: Json, x: Text) {
    o.Read? && o.rest == x && Same(o.value, v) && Ordered(o.value)
  }

  /**
   * The canonical text of a value, with anything delimited behind it, reads back as the value up to undefined
   * members, with the keys of every object in increasing order.
   */
  lemma {:induction false} CanonReads(v: Json, x: Text)
    requires Proper(v) && Delimited(x)
    ensures ReadsAs(ReadValue(Canon(v) + x), v, x)
    decreases v, 1
  {
    KindShows(v, x);
    match v
    case Undefined => assert Canon(v) + x == x;
    case Num(p) =>
      HeadOf(p, x);
      NumberRead(p, x);
      NotStarted(p + x);
    case Str(s) =>
      LiteralRead(s, x);
    case Arr(items) => ArrayReads(v, x);
    case Obj(members) => ObjectReads(v, x);
    case _ => WordReads(v, x);
  }

  lemma {:induction false} ArrayReads(v: Json, x: Text)
    requires v.Arr? && Proper(v)
    ensures ReadsAs(ReadValue(Canon(v) + x), v, x)
    decreases v, 0, |v.items|
  {
    var parts := Parts(v.items);
    Bracketed(OPEN, CLOSE, parts, x);
    var t := Canon(v) + x;
    assert t[1..] == Join(parts) + [CLOSE] + x;
    if Hollow(v.items) {
      assert t[1..] == [CLOSE] + x && t[2..] == x;
    } else {
      PartsShown(v.items);
      ShownText(parts, CLOSE, x);
      assert v.items[0..] == v.items && ItemTexts(v.items) == parts;
      ItemsRead(v, 0, x);
    }
  }

  /** The items from the k-th on. */
  lemma {:induction false} ItemsRead(v: Json, k: nat, x: Text)
    requires v.Arr? && Proper(v) && k < |v.items|
    ensures var o := ReadItems(Join(ItemTexts(v.items[k..])) + [CLOSE] + x);
      o.Read? && o.rest == x && |o.value| == |v.items| - k
      && forall i | 0 <= i < |o.value| :: Same(o.value[i], v.items[k + i]) && Ordered(o.value[i])
    decreases v, 0, |v.items| - k - 1
  {
    var parts := ItemTexts(v.items[k..]);
    var r := Behind(parts, CLOSE, x);
    CanonReads(v.items[k], r);
    if k + 1 < |v.items| {
      assert parts[1..] == ItemTexts(v.items[k + 1..]);
      ItemsRead(v, k + 1, x);
    }
  }

  lemma ObjectStep(t: Text, ms: seq<Member>, x: Text)
    requires At(t, 0, '{')
    requires if At(t, 1, '}') then ms == [] && x == t[2..] else ReadMembers(t[1..]) == Read(ms, x)
    ensures ReadValue(t) == Read(Obj(ms), x)
  {
    hide ReadMembers;
  }

  lemma {:induction false} ObjectReads(v: Json, x: Text)
    requires v.Obj? && Proper(v)
    ensures ReadsAs(ReadValue(Canon(v) + x), v, x)
    decreases v, 0, |Rendered(v.members)| + 1
  {
    var l := Rendered(v.members);
    var parts := MemberTexts(l);
    var t := Canon(v) + x;
    assert Canon(v) == [LEFT] + Join(parts) + [RIGHT];
    hide Rendered, Proper, Canon, MemberTexts, Join, MemberText, ReadMembers, ReadValue, Same, Ordered;
    Bracketed(LEFT, RIGHT, parts, x);
    assert t[1..] == Join(parts) + [RIGHT] + x;
    var ms := [];
    if l == [] {
      assert Join(parts) == [] by { NothingJoined(); }
      assert t[1..] == [RIGHT] + x && t[2..] == x;
    } else {
      MemberTextsShown(l);
      ShownText(parts, RIGHT, x);
      assert l[0..] == l;
      MembersRead(v, 0, x);
      ms := ReadMembers(t[1..]).value;
      assert t[1] == t[1..][0];
    }
    ObjectStep(t, ms, x);
    MembersOrdered(v.members, l, ms);
    MembersSame(v.members, l, ms);
  }

  lemma NothingJoined()
    ensures Join([]) == []
  {
  }

  /** A member read back: under its key, with the value of the member of that key. */
  ghost predicate ReadMember(m: Member, p: (Text, Text), members: seq<Member>) {
    && m.key == p.0 && m.value != Undefined && Ordered(m.value)
    && (exists j | 0 <= j < |members| && members[j].value != Undefined ::
          members[j].key == m.key && Same(m.value, members[j].value))
  }

  lemma MemberHead(p: (Text, Text), r: Text)
    ensures var t := MemberText(p) + r;
      At(t, 0, '\"') && ReadString(t[1..]) == Read(p.0, [COLON] + (p.1 + r))
  {
    hide Quote, ReadString;
    assert MemberText(p) + r == Quote(p.0) + ([COLON] + (p.1 + r));
    LiteralRead(p.0, [COLON] + (p.1 + r));
  }

  lemma MemberStep(p: (Text, Text), v: Json, r: Text)
    requires ReadValue(p.1 + r) == Read(v, r)
    ensures var t := MemberText(p) + r;
      At(r, 0, '}') ==> ReadMembers(t) == Read([Member(p.0, v)], r[1..])
    ensures var t := MemberText(p) + r;
      At(r, 0, ',') && ReadMembers(r[1..]).Read? ==>
        ReadMembers(t) == Read([Member(p.0, v)] + ReadMembers(r[1..]).value, ReadMembers(r[1..]).rest)
  {
    MemberHead(p, r);
    assert ([COLON] + (p.1 + r))[1..] == p.1 + r;
    hide ReadString, ReadValue, MemberText;
  }

  /** One rendered member is read as that member. */
  lemma {:induction false} MemberReads(v: Json, p: (Text, Text), r: Text)
    returns (m: Member)
    requires v.Obj? && Proper(v) && p in Rendered(v.members) && Delimited(r)
    ensures m.key == p.0 && ReadMember(m, p, v.members) && ReadValue(p.1 + r) == Read(m.value, r)
    decreases v, 0, 0
  {
    RenderedMembers(v.members, p);
    var j :| 0 <= j < |v.members| && v.members[j].value != Undefined
      && p == (v.members[j].key, Canon(v.members[j].value));
    CanonReads(v.members[j].value, r);
    hide Canon, ReadValue, Ordered, Rendered;
    m := Member(p.0, ReadValue(p.1 + r).value);
  }

  lemma {:induction false} MembersRead(v: Json, k: nat, x: Text)
    requires v.Obj? && Proper(v) && k < |Rendered(v.members)|
    ensures var l := Rendered(v.members);
      var o := ReadMembers(Join(MemberTexts(l[k..])) + [RIGHT] + x);
      o.Read? && o.rest == x && |o.value| == |l| - k
      && forall i | 0 <= i < |o.value| :: ReadMember(o.value[i], l[k + i], v.members)
    decreases v, 0, |Rendered(v.members)| - k
  {
    hide Rendered, Proper, Canon, Join, MemberText, ReadValue, ReadMembers, ReadMember;
    var l := Rendered(v.members);
    var parts := MemberTexts(l[k..]);
    var r := Behind(parts, RIGHT, x);
    var m := MemberReads(v, l[k], r);
    assert parts[0] == MemberText(l[k]);
    MemberStep(l[k], m.value, r);
    if k + 1 < |l| {
      assert parts[1..] == MemberTexts(l[k + 1..]);
      MembersRead(v, k + 1, x);
      assert r[1..] == Join(parts[1..]) + [RIGHT] + x;
      var rest := ReadMembers(r[1..]).value;
      forall i | 1 <= i < |l| - k ensures ReadMember(([m] + rest)[i], l[k + i], v.members) {
        assert ([m] + rest)[i] == rest[i - 1] && l[k + 1 + (i - 1)] == l[k + i];
      }
    }
  }

  lemma MembersOrdered(members: seq<Member>, l: seq<(Text, Text)>, ms: seq<Member>)
    requires Proper(Obj(members)) && l == Rendered(members) && |ms| == |l|
    requires forall i | 0 <= i < |ms| :: ReadMember(ms[i], l[i], members)
    ensures Ordered(Obj(ms))
  {
    RenderedSorted(members);
    hide Rendered, Canon, Less, Proper, Same;
    assert forall i | 0 <= i < |ms| :: ReadMember(ms[i], l[i], members) && ms[i].key == l[i].0;
  }

  lemma PartnerRead(members: seq<Member>, l: seq<(Text, Text)>, ms: seq<Member>, j: nat)
    requires Proper(Obj(members)) && l == Rendered(members) && |ms| == |l|
    requires forall i | 0 <= i < |ms| :: ReadMember(ms[i], l[i], members)
    requires j < |members| && members[j].value != Undefined
    ensures exists i | 0 <= i < |ms| && ms[i].value != Undefined ::
      members[j].key == ms[i].key && Same(ms[i].value, members[j].value)
  {
    var p := (members[j].key, Canon(members[j].value));
    RenderedMembers(members, p);
    hide Rendered, Canon, Less, Ordered, Same;
    var i :| 0 <= i < |l| && l[i] == p;
    assert ReadMember(ms[i], l[i], members);
  }

  lemma MemberPartner(m: Member, p: (Text, Text), members: seq<Member>)
    requires ReadMember(m, p, members)
    ensures exists j | 0 <= j < |members| && members[j].value != Undefined ::
      members[j].key == m.key && Same(m.value, members[j].value)
  {
    hide Same, Ordered;
  }

  lemma MembersSame(members: seq<Member>, l: seq<(Text, Text)>, ms: seq<Member>)
    requires Proper(Obj(members)) && l == Rendered(members) && |ms| == |l|
    requires forall i | 0 <= i < |ms| :: ReadMember(ms[i], l[i], members)
    ensures Same(Obj(ms), Obj(members))
  {
    hide Rendered, Canon, Ordered, Proper, ReadMember;
    forall i | 0 <= i < |ms| && ms[i].value != Undefined
      ensures exists j | 0 <= j < |members| && members[j].value != Undefined ::
        members[j].key == ms[i].key && Same(ms[i].value, members[j].value)
    {
      MemberPartner(ms[i], l[i], members);
    }
    forall j | 0 <= j < |members| && members[j].value != Undefined
      ensures exists i | 0 <= i < |ms| && ms[i].value != Undefined ::
        members[j].key == ms[i].key && Same(ms[i].value, members[j].value)
    {
      PartnerRead(members, l, ms, j);
    }
  }
}
