/** Canonical JSON: keys sorted at every level, undefined members left out. */
module Canonical {
  import opened JsonText

  /** Num carries the number as JSON.stringify prints it; Undefined may stand where JavaScript allows it. */
  datatype Json =
    | Null
    | Bool(b: bool)
    | Num(literal: Text)
    | Str(s: Text)
    | Arr(items: seq<Json>)
    | Obj(members: seq<Member>)
    | Undefined

  /** One own property of an object. */
  datatype Member = Member(key: Text, value: Json)

  const OPEN: Unit := 91
  const CLOSE: Unit := 93
  const LEFT: Unit := 123
  const RIGHT: Unit := 125

  predicate NumberUnit(u: Unit) {
    48 <= u <= 57 || u in {43, 45, 46, 69, 101}
  }

  predicate NumberLiteral(t: Text) {
    t != [] && (48 <= t[0] <= 57 || t[0] == 45) && forall i | 0 <= i < |t| :: NumberUnit(t[i])
  }

  /** What every JavaScript value satisfies: an object's own keys are distinct and numbers print as numbers. */
  predicate Proper(v: Json) {
    match v
    case Num(literal) => NumberLiteral(literal)
    case Arr(items) => forall i | 0 <= i < |items| :: Proper(items[i])
    case Obj(members) =>
      && (forall i, j | 0 <= i < j < |members| :: members[i].key != members[j].key)
      && (forall i | 0 <= i < |members| :: Proper(members[i].value))
    case _ => true
  }

  // ---- The canonical text ----

  function Join(parts: seq<Text>): Text {
    if parts == [] then []
    else if |parts| == 1 then parts[0]
    else parts[0] + [COMMA] + Join(parts[1..])
  }

  /** The members that have a text. */
  function Present(parts: seq<(Text, Text)>): (r: seq<(Text, Text)>)
    ensures forall p | p in r :: p in parts && p.1 != []
    ensures forall p | p in parts && p.1 != [] :: p in r
  {
    if parts == [] then []
    else (if parts[0].1 == [] then [] else [parts[0]]) + Present(parts[1..])
  }

  function Insert(p: (Text, Text), sorted: seq<(Text, Text)>): (r: seq<(Text, Text)>)
    ensures forall q :: q in r <==> q == p || q in sorted
  {
    if sorted == [] || Less(p.0, sorted[0].0) then [p] + sorted
    else [sorted[0]] + Insert(p, sorted[1..])
  }

  function SortByKey(parts: seq<(Text, Text)>): (r: seq<(Text, Text)>)
    ensures forall q :: q in r <==> q in parts
  {
    if parts == [] then [] else Insert(parts[0], SortByKey(parts[1..]))
  }

  function MemberText(p: (Text, Text)): Text {
    Quote(p.0) + [COLON] + p.1
  }

  function MemberTexts(parts: seq<(Text, Text)>): (r: seq<Text>)
    ensures |r| == |parts| && forall i | 0 <= i < |r| :: r[i] == MemberText(parts[i])
  {
    seq(|parts|, i requires 0 <= i < |parts| => MemberText(parts[i]))
  }

  function ItemTexts(items: seq<Json>): (r: seq<Text>)
    ensures |r| == |items| && forall i | 0 <= i < |r| :: r[i] == Canon(items[i])
    decreases items, 0
  {
    seq(|items|, i requires 0 <= i < |items| => Canon(items[i]))
  }

  function Pairs(members: seq<Member>): (r: seq<(Text, Text)>)
    ensures |r| == |members| && forall i | 0 <= i < |r| :: r[i] == (members[i].key, Canon(members[i].value))
    decreases members, 0
  {
    seq(|members|, i requires 0 <= i < |members| => (members[i].key, Canon(members[i].value)))
  }

  /** The text of a value; undefined has none, as where an array joins it. */
  function Canon(v: Json): Text
    decreases v, 1
  {
    match v
    case Null => [110, 117, 108, 108]
    case Bool(b) => if b then [116, 114, 117, 101] else [102, 97, 108, 115, 101]
    case Num(literal) => literal
    case Str(s) => Quote(s)
    case Arr(items) => [OPEN] + Join(ItemTexts(items)) + [CLOSE]
    case Obj(members) => [LEFT] + Join(MemberTexts(Present(SortByKey(Pairs(members))))) + [RIGHT]
    case Undefined => []
  }

  // ---- Equality up to key order and undefined members ----

  /** The two arrays whose items leave no text between the brackets. */
  predicate Hollow(items: seq<Json>) {
    items == [] || items == [Undefined]
  }

  ghost predicate Same(v: Json, w: Json)
    decreases v
  {
    match (v, w)
    case (Arr(a), Arr(b)) =>
      (Hollow(a) && Hollow(b)) || (|a| == |b| && forall i | 0 <= i < |a| :: Same(a[i], b[i]))
    case (Obj(m), Obj(n)) =>
      && (forall i | 0 <= i < |m| && m[i].value != Undefined ::
            exists j | 0 <= j < |n| && n[j].value != Undefined :: n[j].key == m[i].key && Same(m[i].value, n[j].value))
      && (forall j | 0 <= j < |n| && n[j].value != Undefined ::
            exists i | 0 <= i < |m| && m[i].value != Undefined :: n[j].key == m[i].key && Same(m[i].value, n[j].value))
    case _ => v == w
  }

  // ---- Sorting ----

  ghost predicate Sorted(l: seq<(Text, Text)>) {
    forall i, j | 0 <= i < j < |l| :: Less(l[i].0, l[j].0)
  }

  ghost predicate KeysDistinct(l: seq<(Text, Text)>) {
    forall i, j | 0 <= i < j < |l| :: l[i].0 != l[j].0
  }

  lemma {:induction false} InsertSorted(p: (Text, Text), l: seq<(Text, Text)>)
    requires Sorted(l) && forall q | q in l :: q.0 != p.0
    ensures Sorted(Insert(p, l))
  {
    if l != [] {
      if Less(p.0, l[0].0) {
        forall j | 0 <= j < |l| ensures Less(p.0, l[j].0) {
          if j > 0 { LessTransitive(p.0, l[0].0, l[j].0); }
        }
      } else {
        LessTotal(p.0, l[0].0);
        assert l[0] in l;
        InsertSorted(p, l[1..]);
        var r := Insert(p, l[1..]);
        forall j | 0 <= j < |r| ensures Less(l[0].0, r[j].0) {
          assert r[j] in r;
          if r[j] != p {
            var i :| 0 <= i < |l[1..]| && l[1..][i] == r[j];
            assert l[i + 1] == r[j];
          }
        }
      }
    }
  }

  lemma {:induction false} SortSorts(l: seq<(Text, Text)>)
    requires KeysDistinct(l)
    ensures Sorted(SortByKey(l))
  {
    if l != [] {
      SortSorts(l[1..]);
      forall q | q in SortByKey(l[1..]) ensures q.0 != l[0].0 {
        assert q in l[1..];
        var i :| 0 <= i < |l[1..]| && l[1..][i] == q;
        assert l[i + 1] == q;
      }
      InsertSorted(l[0], SortByKey(l[1..]));
    }
  }

  /** Two sorted lists with the same elements are one list. */
  lemma {:induction false} SortedUnique(l: seq<(Text, Text)>, k: seq<(Text, Text)>)
    requires Sorted(l) && Sorted(k) && forall q :: q in l <==> q in k
    ensures l == k
  {
    if l == [] {
      HeadIn(k);
    } else {
      assert l[0] in k;
      HeadsAgree(l, k);
      TailsAgree(l, k);
      SortedUnique(l[1..], k[1..]);
      assert l == [l[0]] + l[1..] && k == [k[0]] + k[1..];
    }
  }

  lemma HeadIn(k: seq<(Text, Text)>)
    ensures k != [] ==> exists q :: q in k
  {
    if k != [] { assert k[0] in k; }
  }

  lemma HeadIsLeast(l: seq<(Text, Text)>, k: seq<(Text, Text)>)
    requires Sorted(l) && l != [] && k != [] && k[0] in l
    ensures l[0] == k[0] || Less(l[0].0, k[0].0)
  {
    var i :| 0 <= i < |l| && l[i] == k[0];
  }

  lemma HeadsAgree(l: seq<(Text, Text)>, k: seq<(Text, Text)>)
    requires Sorted(l) && Sorted(k) && l != [] && k != [] && forall q :: q in l <==> q in k
    ensures l[0] == k[0]
  {
    assert l[0] in k && k[0] in l;
    HeadIsLeast(l, k);
    HeadIsLeast(k, l);
    if l[0] != k[0] {
      LessTransitive(l[0].0, k[0].0, l[0].0);
      LessIrreflexive(l[0].0);
    }
  }

  lemma TailsAgree(l: seq<(Text, Text)>, k: seq<(Text, Text)>)
    requires Sorted(l) && Sorted(k) && l != [] && k != [] && l[0] == k[0] && forall q :: q in l <==> q in k
    ensures Sorted(l[1..]) && Sorted(k[1..]) && forall q :: q in l[1..] <==> q in k[1..]
  {
    InTail(l);
    InTail(k);
  }

  lemma InTail(l: seq<(Text, Text)>)
    requires Sorted(l) && l != []
    ensures forall q :: q in l[1..] <==> q in l && q != l[0]
  {
    forall q ensures q in l[1..] <==> q in l && q != l[0] {
      LessIrreflexive(q.0);
      assert l == [l[0]] + l[1..];
      if q in l[1..] {
        var i :| 0 <= i < |l[1..]| && l[1..][i] == q;
        assert l[i + 1] == q;
      }
    }
  }

  lemma {:induction false} PresentSorted(l: seq<(Text, Text)>)
    requires Sorted(l)
    ensures Sorted(Present(l))
  {
    if l != [] {
      PresentSorted(l[1..]);
      forall q | q in Present(l[1..]) ensures Less(l[0].0, q.0) {
        assert q in l[1..];
        var i :| 0 <= i < |l[1..]| && l[1..][i] == q;
        assert l[i + 1] == q;
      }
    }
  }

  /** The sorted members of an object, keyed and rendered. */
  function Rendered(members: seq<Member>): seq<(Text, Text)> {
    Present(SortByKey(Pairs(members)))
  }

  lemma RenderedSorted(members: seq<Member>)
    requires Proper(Obj(members))
    ensures Sorted(Rendered(members))
  {
    SortSorts(Pairs(members));
    PresentSorted(SortByKey(Pairs(members)));
  }

  lemma CanonEmptyIff(v: Json)
    requires Proper(v)
    ensures Canon(v) == [] <==> v == Undefined
  {
  }

  lemma RenderedMembers(members: seq<Member>, p: (Text, Text))
    requires Proper(Obj(members))
    ensures p in Rendered(members) <==>
      exists i | 0 <= i < |members| && members[i].value != Undefined :: p == (members[i].key, Canon(members[i].value))
  {
    var pairs := Pairs(members);
    if p in Rendered(members) {
      assert p in pairs && p.1 != [];
      var i :| 0 <= i < |pairs| && pairs[i] == p;
      CanonEmptyIff(members[i].value);
    }
    if i :| 0 <= i < |members| && members[i].value != Undefined && p == (members[i].key, Canon(members[i].value)) {
      CanonEmptyIff(members[i].value);
      assert pairs[i] == p;
    }
  }

  // ---- No text is the beginning of another ----

  /** What may follow a value inside a canonical text. */
  predicate Delimited(x: Text) {
    x == [] || x[0] == COMMA || x[0] == CLOSE || x[0] == RIGHT
  }

  /** Two texts that cannot be confused, whatever follows them. */
  ghost predicate Unmixed(p: Text, q: Text) {
    forall x, y | Delimited(x) && Delimited(y) && p + x == q + y :: p == q
  }

  lemma Cancels(p: Text, q: Text, x: Text, y: Text)
    requires p + x == q + y && |p| == |q|
    ensures p == q && x == y
  {
    assert p == (p + x)[..|p|] && q == (q + y)[..|q|];
    assert x == (p + x)[|p|..] && y == (q + y)[|q|..];
  }

  lemma HeadOf(p: Text, x: Text)
    requires p != []
    ensures (p + x)[0] == p[0]
  {
  }

  lemma NumberNotLonger(p: Text, q: Text, x: Text, y: Text)
    requires NumberLiteral(q) && Delimited(x) && p + x == q + y
    ensures |q| <= |p|
  {
    assert forall i | 0 <= i < |q| :: (q + y)[i] == q[i];
    if x != [] {
      assert (p + x)[|p|] == x[0];
    }
  }

  /** What is left of a joined list behind its first part. */
  function Behind(parts: seq<Text>, c: Unit, x: Text): (r: Text)
    requires parts != [] && (c == CLOSE || c == RIGHT)
    ensures Delimited(r) && r != [] && (r[0] == c <==> |parts| == 1)
    ensures Join(parts) + [c] + x == parts[0] + r
  {
    if |parts| == 1 then
      assert Join(parts) + [c] + x == parts[0] + ([c] + x);
      [c] + x
    else
      assert Join(parts) + [c] + x == parts[0] + ([COMMA] + (Join(parts[1..]) + [c] + x));
      [COMMA] + (Join(parts[1..]) + [c] + x)
  }

  lemma {:induction false} JoinSeparates(ps: seq<Text>, qs: seq<Text>, c: Unit, x: Text, y: Text)
    requires ps != [] && qs != [] && (c == CLOSE || c == RIGHT)
    requires forall p, q | p in ps && q in qs :: Unmixed(p, q)
    requires Join(ps) + [c] + x == Join(qs) + [c] + y
    ensures ps == qs && x == y
  {
    var r, s := Behind(ps, c, x), Behind(qs, c, y);
    assert Unmixed(ps[0], qs[0]);
    Cancels(ps[0], qs[0], r, s);
    if |ps| == 1 {
      Cancels([c], [c], x, y);
      assert ps == [ps[0]] && qs == [qs[0]];
    } else {
      Cancels([COMMA], [COMMA], Join(ps[1..]) + [c] + x, Join(qs[1..]) + [c] + y);
      JoinSeparates(ps[1..], qs[1..], c, x, y);
      assert ps == [ps[0]] + ps[1..] && qs == [qs[0]] + qs[1..];
    }
  }

  /** A list whose text does not begin with a closing bracket has a part to show. */
  ghost predicate Shown(parts: seq<Text>) {
    parts != [] && (|parts| == 1 ==> parts[0] != [] && !Delimited(parts[0]))
      && (parts[0] != [] ==> !Delimited(parts[0]))
  }

  lemma ShownText(parts: seq<Text>, c: Unit, x: Text)
    requires Shown(parts) && (c == CLOSE || c == RIGHT)
    ensures var r := Join(parts) + [c] + x; r[0] != c
  {
    var r := Behind(parts, c, x);
    if parts[0] == [] {
      assert parts[0] + r == r;
    } else {
      HeadOf(parts[0], r);
    }
  }

  lemma BracketsSeparate(ps: seq<Text>, qs: seq<Text>, c: Unit, x: Text, y: Text)
    requires ps == [] || Shown(ps)
    requires qs == [] || Shown(qs)
    requires c == CLOSE || c == RIGHT
    requires forall p, q | p in ps && q in qs :: Unmixed(p, q)
    requires Join(ps) + [c] + x == Join(qs) + [c] + y
    ensures ps == qs && x == y
  {
    if Shown(ps) { ShownText(ps, c, x); }
    if Shown(qs) { ShownText(qs, c, y); }
    if ps == [] {
      assert Join(ps) + [c] + x == [c] + x;
      assert Join(qs) + [c] + y == [c] + y;
      Cancels([c], [c], x, y);
    } else {
      assert qs == [] ==> Join(qs) + [c] + y == [c] + y;
      JoinSeparates(ps, qs, c, x, y);
    }
  }

  // ---- The kinds of value begin differently ----

  function Kind(v: Json): nat {
    match v
    case Null => 0
    case Bool(b) => if b then 1 else 2
    case Num(_) => 3
    case Str(_) => 4
    case Arr(_) => 5
    case Obj(_) => 6
    case Undefined => 7
  }

  function KindAt(x: Text): nat {
    if Delimited(x) then 7
    else if x[0] == 110 then 0
    else if x[0] == 116 then 1
    else if x[0] == 102 then 2
    else if x[0] == QUOTE then 4
    else if x[0] == OPEN then 5
    else if x[0] == LEFT then 6
    else 3
  }

  lemma KindShows(v: Json, x: Text)
    requires Proper(v) && Delimited(x)
    ensures KindAt(Canon(v) + x) == Kind(v)
    ensures v != Undefined ==> Canon(v) != [] && !Delimited(Canon(v))
  {
    if v == Undefined {
      assert Canon(v) + x == x;
    } else {
      HeadOf(Canon(v), x);
    }
  }

  // ---- Injectivity ----

  lemma {:induction false} CanonSeparates(v: Json, w: Json, x: Text, y: Text)
    requires Proper(v) && Proper(w) && Delimited(x) && Delimited(y)
    requires Canon(v) + x == Canon(w) + y
    ensures Same(v, w) && x == y
    decreases v, 1
  {
    KindShows(v, x);
    KindShows(w, y);
    match v
    case Num(p) =>
      NumberNotLonger(p, w.literal, x, y);
      NumberNotLonger(w.literal, p, y, x);
      Cancels(p, w.literal, x, y);
    case Str(s) => QuoteSeparates(s, w.s, x, y);
    case Arr(a) => ArraysSeparate(v, w, x, y);
    case Obj(m) => ObjectsSeparate(v, w, x, y);
    case _ => Cancels(Canon(v), Canon(w), x, y);
  }

  lemma {:induction false} ValuesSeparate(v: Json, w: Json)
    requires Proper(v) && Proper(w)
    ensures Unmixed(Canon(v), Canon(w))
    ensures Canon(v) == Canon(w) ==> Same(v, w)
    decreases v, 2
  {
    forall x, y | Delimited(x) && Delimited(y) && Canon(v) + x == Canon(w) + y
      ensures Canon(v) == Canon(w)
    {
      CanonSeparates(v, w, x, y);
      Cancels(Canon(v), Canon(w), x, y);
    }
    if Canon(v) == Canon(w) {
      CanonSeparates(v, w, [], []);
    }
  }

  lemma {:induction false} ArraysSeparate(v: Json, w: Json, x: Text, y: Text)
    requires v.Arr? && w.Arr? && Proper(v) && Proper(w) && Canon(v) + x == Canon(w) + y
    ensures Same(v, w) && x == y
    decreases v, 0
  {
    var ps, qs := Parts(v.items), Parts(w.items);
    forall p, q | p in ps && q in qs ensures Unmixed(p, q) {
      var i :| 0 <= i < |ps| && ps[i] == p;
      var j :| 0 <= j < |qs| && qs[j] == q;
      ValuesSeparate(v.items[i], w.items[j]);
    }
    PartsShown(v.items);
    PartsShown(w.items);
    Bracketed(OPEN, CLOSE, ps, x);
    Bracketed(OPEN, CLOSE, qs, y);
    Cancels([OPEN], [OPEN], Join(ps) + [CLOSE] + x, Join(qs) + [CLOSE] + y);
    BracketsSeparate(ps, qs, CLOSE, x, y);
    if ps != [] {
      forall i | 0 <= i < |v.items| ensures Same(v.items[i], w.items[i]) {
        assert ps[i] == qs[i];
        ValuesSeparate(v.items[i], w.items[i]);
      }
    }
  }

  /** The texts joined inside an array's brackets; none when nothing shows. */
  function Parts(items: seq<Json>): (r: seq<Text>)
    ensures r == [] <==> Hollow(items)
    ensures r != [] ==> |r| == |items| && forall i | 0 <= i < |r| :: r[i] == Canon(items[i])
    ensures Join(r) == Join(ItemTexts(items))
  {
    if Hollow(items) then [] else ItemTexts(items)
  }

  lemma PartsShown(items: seq<Json>)
    requires Proper(Arr(items))
    ensures Parts(items) == [] || Shown(Parts(items))
  {
    if !Hollow(items) {
      KindShows(items[0], []);
      assert items == [items[0]] + items[1..];
    }
  }

  lemma Bracketed(o: Unit, c: Unit, parts: seq<Text>, x: Text)
    ensures [o] + Join(parts) + [c] + x == [o] + (Join(parts) + [c] + x)
  {
  }

  lemma MemberTextSeparates(p: (Text, Text), q: (Text, Text), x: Text, y: Text)
    requires MemberText(p) + x == MemberText(q) + y
    ensures p.0 == q.0 && p.1 + x == q.1 + y
  {
    hide Quote;
    assert MemberText(p) + x == Quote(p.0) + ([COLON] + (p.1 + x));
    assert MemberText(q) + y == Quote(q.0) + ([COLON] + (q.1 + y));
    QuoteSeparates(p.0, q.0, [COLON] + (p.1 + x), [COLON] + (q.1 + y));
    Cancels([COLON], [COLON], p.1 + x, q.1 + y);
  }

  lemma MembersUnmixed(p: (Text, Text), q: (Text, Text))
    requires Unmixed(p.1, q.1)
    ensures Unmixed(MemberText(p), MemberText(q))
    ensures MemberText(p) == MemberText(q) ==> p == q
  {
    hide MemberText;
    forall x, y | Delimited(x) && Delimited(y) && MemberText(p) + x == MemberText(q) + y
      ensures p == q
    {
      MemberTextSeparates(p, q, x, y);
    }
    var e: Text := [];
    assert Delimited(e) && MemberText(p) + e == MemberText(p) && MemberText(q) + e == MemberText(q);
  }

  lemma {:induction false} ObjectsSeparate(v: Json, w: Json, x: Text, y: Text)
    requires v.Obj? && w.Obj? && Proper(v) && Proper(w) && Canon(v) + x == Canon(w) + y
    ensures Same(v, w) && x == y
    decreases v, 0
  {
    var l, k := Rendered(v.members), Rendered(w.members);
    forall i, j | 0 <= i < |v.members| && 0 <= j < |w.members|
      ensures Unmixed(Canon(v.members[i].value), Canon(w.members[j].value))
      ensures Canon(v.members[i].value) == Canon(w.members[j].value) ==> Same(v.members[i].value, w.members[j].value)
    {
      ValuesSeparate(v.members[i].value, w.members[j].value);
    }
    RenderedSeparate(v.members, w.members, x, y);
    SameMembers(v.members, w.members);
  }

  lemma RenderedUnmixed(m: seq<Member>, n: seq<Member>, p: (Text, Text), q: (Text, Text))
    requires Proper(Obj(m)) && Proper(Obj(n)) && p in Rendered(m) && q in Rendered(n)
    requires forall i, j | 0 <= i < |m| && 0 <= j < |n| :: Unmixed(Canon(m[i].value), Canon(n[j].value))
    ensures Unmixed(MemberText(p), MemberText(q))
    ensures MemberText(p) == MemberText(q) ==> p == q
  {
    hide Rendered, Canon, Proper, Unmixed, MemberText;
    RenderedMembers(m, p);
    RenderedMembers(n, q);
    MembersUnmixed(p, q);
  }

  /** Joined member lists whose parts cannot be confused determine each other. */
  lemma MemberListsSeparate(l: seq<(Text, Text)>, k: seq<(Text, Text)>, x: Text, y: Text)
    requires forall p, q | p in l && q in k ::
      Unmixed(MemberText(p), MemberText(q)) && (MemberText(p) == MemberText(q) ==> p == q)
    requires Join(MemberTexts(l)) + [RIGHT] + x == Join(MemberTexts(k)) + [RIGHT] + y
    ensures l == k && x == y
  {
    MemberTextsShown(l);
    MemberTextsShown(k);
    hide Unmixed, MemberText, Join, Shown;
    var ps, qs := MemberTexts(l), MemberTexts(k);
    forall p, q | p in ps && q in qs ensures Unmixed(p, q) {
      var i :| 0 <= i < |ps| && ps[i] == p;
      var j :| 0 <= j < |qs| && qs[j] == q;
      assert l[i] in l && k[j] in k;
    }
    BracketsSeparate(ps, qs, RIGHT, x, y);
    forall i | 0 <= i < |l| ensures l[i] == k[i] {
      assert ps[i] == qs[i] && l[i] in l && k[i] in k;
    }
  }

  lemma RenderedSeparate(m: seq<Member>, n: seq<Member>, x: Text, y: Text)
    requires Proper(Obj(m)) && Proper(Obj(n)) && Canon(Obj(m)) + x == Canon(Obj(n)) + y
    requires forall i, j | 0 <= i < |m| && 0 <= j < |n| :: Unmixed(Canon(m[i].value), Canon(n[j].value))
    ensures Rendered(m) == Rendered(n) && x == y
  {
    var l, k := Rendered(m), Rendered(n);
    var ps, qs := MemberTexts(l), MemberTexts(k);
    assert Canon(Obj(m)) == [LEFT] + Join(ps) + [RIGHT] && Canon(Obj(n)) == [LEFT] + Join(qs) + [RIGHT];
    hide Rendered, Canon, Proper, Unmixed, MemberText, Join, MemberTexts;
    Bracketed(LEFT, RIGHT, ps, x);
    Bracketed(LEFT, RIGHT, qs, y);
    Cancels([LEFT], [LEFT], Join(ps) + [RIGHT] + x, Join(qs) + [RIGHT] + y);
    forall p, q | p in l && q in k
      ensures Unmixed(MemberText(p), MemberText(q)) && (MemberText(p) == MemberText(q) ==> p == q)
    {
      RenderedUnmixed(m, n, p, q);
    }
    MemberListsSeparate(l, k, x, y);
  }

  lemma MemberTextsShown(l: seq<(Text, Text)>)
    ensures MemberTexts(l) == [] || Shown(MemberTexts(l))
  {
    if l != [] {
      assert MemberText(l[0])[0] == QUOTE;
    }
  }

  lemma PartnerOf(m: seq<Member>, n: seq<Member>, i: nat)
    requires Proper(Obj(m)) && Proper(Obj(n)) && Rendered(m) == Rendered(n)
    requires i < |m| && m[i].value != Undefined
    ensures exists j | 0 <= j < |n| && n[j].value != Undefined ::
      n[j].key == m[i].key && Canon(n[j].value) == Canon(m[i].value)
  {
    hide Rendered, Canon, Proper;
    var p := (m[i].key, Canon(m[i].value));
    RenderedMembers(m, p);
    RenderedMembers(n, p);
  }

  lemma SameMembers(m: seq<Member>, n: seq<Member>)
    requires Proper(Obj(m)) && Proper(Obj(n)) && Rendered(m) == Rendered(n)
    requires forall i, j | 0 <= i < |m| && 0 <= j < |n| ::
      Canon(m[i].value) == Canon(n[j].value) ==> Same(m[i].value, n[j].value)
    ensures Same(Obj(m), Obj(n))
  {
    hide Rendered, Canon, Proper;
    forall i | 0 <= i < |m| && m[i].value != Undefined
      ensures exists j | 0 <= j < |n| && n[j].value != Undefined :: n[j].key == m[i].key && Same(m[i].value, n[j].value)
    {
      PartnerOf(m, n, i);
    }
    forall j | 0 <= j < |n| && n[j].value != Undefined
      ensures exists i | 0 <= i < |m| && m[i].value != Undefined :: n[j].key == m[i].key && Same(m[i].value, n[j].value)
    {
      PartnerOf(n, m, j);
    }
  }

  // ---- Order independence ----

  lemma {:induction false} SameCanon(v: Json, w: Json)
    requires Proper(v) && Proper(w) && Same(v, w)
    ensures Canon(v) == Canon(w)
    decreases v
  {
    match (v, w)
    case (Arr(a), Arr(b)) =>
      if !(Hollow(a) && Hollow(b)) {
        forall i | 0 <= i < |a| ensures Canon(a[i]) == Canon(b[i]) {
          SameCanon(a[i], b[i]);
        }
        assert ItemTexts(a) == ItemTexts(b);
      }
    case (Obj(m), Obj(n)) =>
      forall i, j | 0 <= i < |m| && 0 <= j < |n| && Same(m[i].value, n[j].value)
        ensures Canon(m[i].value) == Canon(n[j].value)
      {
        SameCanon(m[i].value, n[j].value);
      }
      RenderedAgree(m, n);
    case _ =>
  }

  /** Every visible member of m has a partner in n with its key and text. */
  ghost predicate Matched(m: seq<Member>, n: seq<Member>) {
    forall i | 0 <= i < |m| && m[i].value != Undefined ::
      exists j | 0 <= j < |n| && n[j].value != Undefined ::
        n[j].key == m[i].key && Canon(n[j].value) == Canon(m[i].value)
  }

  lemma RenderedCarries(m: seq<Member>, n: seq<Member>, p: (Text, Text))
    requires Proper(Obj(m)) && Proper(Obj(n)) && p in Rendered(m) && Matched(m, n)
    ensures p in Rendered(n)
  {
    hide Rendered, Canon, Proper;
    RenderedMembers(m, p);
    RenderedMembers(n, p);
  }

  lemma MatchedAgree(m: seq<Member>, n: seq<Member>)
    requires Proper(Obj(m)) && Proper(Obj(n)) && Matched(m, n) && Matched(n, m)
    ensures Rendered(m) == Rendered(n)
  {
    RenderedSorted(m);
    RenderedSorted(n);
    hide Rendered, Canon, Proper, Matched;
    forall p ensures p in Rendered(m) <==> p in Rendered(n) {
      if p in Rendered(m) { RenderedCarries(m, n, p); }
      if p in Rendered(n) { RenderedCarries(n, m, p); }
    }
    SortedUnique(Rendered(m), Rendered(n));
  }

  lemma MatchedBySame(m: seq<Member>, n: seq<Member>, i: nat)
    requires Same(Obj(m), Obj(n)) && i < |m| && m[i].value != Undefined
    requires forall j | 0 <= j < |n| && Same(m[i].value, n[j].value) :: Canon(m[i].value) == Canon(n[j].value)
    ensures exists j | 0 <= j < |n| && n[j].value != Undefined ::
      n[j].key == m[i].key && Canon(n[j].value) == Canon(m[i].value)
  {
    hide Canon;
    var j :| 0 <= j < |n| && n[j].value != Undefined && n[j].key == m[i].key && Same(m[i].value, n[j].value);
  }

  lemma MatchedByRightSame(m: seq<Member>, n: seq<Member>, j: nat)
    requires Same(Obj(m), Obj(n)) && j < |n| && n[j].value != Undefined
    requires forall i | 0 <= i < |m| && Same(m[i].value, n[j].value) :: Canon(m[i].value) == Canon(n[j].value)
    ensures exists i | 0 <= i < |m| && m[i].value != Undefined ::
      m[i].key == n[j].key && Canon(m[i].value) == Canon(n[j].value)
  {
    hide Canon;
    var i :| 0 <= i < |m| && m[i].value != Undefined && n[j].key == m[i].key && Same(m[i].value, n[j].value);
  }

  lemma RenderedAgree(m: seq<Member>, n: seq<Member>)
    requires Proper(Obj(m)) && Proper(Obj(n)) && Same(Obj(m), Obj(n))
    requires forall i, j | 0 <= i < |m| && 0 <= j < |n| && Same(m[i].value, n[j].value) ::
      Canon(m[i].value) == Canon(n[j].value)
    ensures Rendered(m) == Rendered(n)
  {
    hide Rendered, Canon, Proper, Same;
    assert Matched(m, n) by {
      forall i | 0 <= i < |m| && m[i].value != Undefined { MatchedBySame(m, n, i); }
    }
    assert Matched(n, m) by {
      forall j | 0 <= j < |n| && n[j].value != Undefined { MatchedByRightSame(m, n, j); }
    }
    MatchedAgree(m, n);
  }

  /** Two values have one canonical text exactly when they differ only in key order and undefined members. */
  lemma CanonEqualIff(v: Json, w: Json)
    requires Proper(v) && Proper(w)
    ensures Canon(v) == Canon(w) <==> Same(v, w)
  {
    if Canon(v) == Canon(w) {
      CanonSeparates(v, w, [], []);
    }
    if Same(v, w) {
      SameCanon(v, w);
    }
  }
}
