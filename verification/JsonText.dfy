/** JSON string literals over UTF-16 code units. */
module JsonText {

  type Unit = u: int | 0 <= u < 0x1_0000

  /** A JavaScript string. */
  type Text = seq<Unit>

  const QUOTE: Unit := 34
  const COMMA: Unit := 44
  const COLON: Unit := 58
  const BACKSLASH: Unit := 92

  predicate HighSurrogate(u: Unit) {
    0xD800 <= u < 0xDC00
  }

  predicate LowSurrogate(u: Unit) {
    0xDC00 <= u < 0xE000
  }

  function HexDigit(d: nat): Unit
    requires d < 16
  {
    if d < 10 then 48 + d else 87 + d
  }

  function UnicodeEscape(u: Unit): Text {
    var n: int := u;
    [BACKSLASH, 117, HexDigit(n / 0x1000), HexDigit(n / 0x100 % 16), HexDigit(n / 16 % 16), HexDigit(n % 16)]
  }

  /** The literal of one code unit that is not half of a surrogate pair. */
  function Escape(u: Unit): (r: Text)
    ensures |r| > 0 && r[0] != QUOTE
  {
    if u == 8 then [BACKSLASH, 98]
    else if u == 9 then [BACKSLASH, 116]
    else if u == 10 then [BACKSLASH, 110]
    else if u == 12 then [BACKSLASH, 102]
    else if u == 13 then [BACKSLASH, 114]
    else if u == QUOTE then [BACKSLASH, QUOTE]
    else if u == BACKSLASH then [BACKSLASH, BACKSLASH]
    else if u < 32 || HighSurrogate(u) || LowSurrogate(u) then UnicodeEscape(u)
    else [u]
  }

  predicate PairFirst(s: Text) {
    |s| > 1 && HighSurrogate(s[0]) && LowSurrogate(s[1])
  }

  /** How many code units the next step of the literal consumes. */
  function Taken(s: Text): (n: nat)
    requires s != []
    ensures 1 <= n <= |s|
  {
    if PairFirst(s) then 2 else 1
  }

  function Chunk(s: Text): (r: Text)
    requires s != []
    ensures |r| > 0 && r[0] != QUOTE
  {
    if PairFirst(s) then s[..2] else Escape(s[0])
  }

  function Body(s: Text): Text
    decreases |s|
  {
    if s == [] then [] else Chunk(s) + Body(s[Taken(s)..])
  }

  /** What JSON.stringify makes of a string. */
  function Quote(s: Text): Text {
    [QUOTE] + Body(s) + [QUOTE]
  }

  // ---- Literals determine strings ----

  lemma EscapeSeparates(u: Unit, v: Unit, x: Text, y: Text)
    requires Escape(u) + x == Escape(v) + y
    ensures u == v && x == y
  {
    var eu, ev := Escape(u), Escape(v);
    assert (eu + x)[0] == eu[0] && (ev + y)[0] == ev[0];
    if eu[0] == BACKSLASH {
      assert (eu + x)[1] == eu[1] && (ev + y)[1] == ev[1];
      if eu[1] == 117 {
        assert |eu| == 6 && |ev| == 6;
        assert forall i | 0 <= i < 6 :: eu[i] == (eu + x)[i] && ev[i] == (ev + y)[i];
        HexSeparates(u, v);
      }
    }
    assert |eu| == |ev|;
    assert x == (eu + x)[|eu|..] && y == (ev + y)[|ev|..];
  }

  lemma HexSeparates(u: Unit, v: Unit)
    requires UnicodeEscape(u)[2..] == UnicodeEscape(v)[2..]
    ensures u == v
  {
    var a, b := UnicodeEscape(u), UnicodeEscape(v);
    assert forall i | 2 <= i < 6 :: a[i] == a[2..][i - 2] && b[i] == b[2..][i - 2];
    assert a[2] == b[2] && a[3] == b[3] && a[4] == b[4] && a[5] == b[5];
    Nibbles(u);
    Nibbles(v);
  }

  lemma Nibbles(u: Unit)
    ensures var n: int := u;
      n == n / 0x1000 * 0x1000 + n / 0x100 % 16 * 0x100 + n / 16 % 16 * 16 + n % 16
  {
    var n: int := u;
    assert n / 0x100 == n / 16 / 16 && n / 0x1000 == n / 0x100 / 16;
  }

  lemma ChunkSeparates(s: Text, t: Text, x: Text, y: Text)
    requires s != [] && t != [] && Chunk(s) + x == Chunk(t) + y
    ensures Taken(s) == Taken(t) && s[..Taken(s)] == t[..Taken(t)] && x == y
  {
    var cs, ct := Chunk(s), Chunk(t);
    assert (cs + x)[0] == cs[0] && (ct + y)[0] == ct[0];
    if PairFirst(s) {
      assert cs[0] == s[0];
      assert PairFirst(t) by { RawSurrogateIsPair(t); }
      assert (cs + x)[1] == cs[1] && (ct + y)[1] == ct[1];
      assert cs == ct;
      assert x == (cs + x)[|cs|..] && y == (ct + y)[|ct|..];
    } else {
      if PairFirst(t) {
        RawSurrogateIsPair(s);
      }
      EscapeSeparates(s[0], t[0], x, y);
    }
  }

  lemma RawSurrogateIsPair(t: Text)
    requires t != [] && HighSurrogate(Chunk(t)[0])
    ensures PairFirst(t)
  {
  }

  /** The rest of a literal, its closing quote and what follows. */
  function Closed(s: Text, x: Text): (r: Text)
    ensures |r| > 0 && (r[0] == QUOTE <==> s == [])
    ensures s == [] ==> r == [QUOTE] + x
    ensures s != [] ==> r == Chunk(s) + Closed(s[Taken(s)..], x)
    decreases |s|
  {
    if s != [] then
      assert Body(s) + [QUOTE] + x == Chunk(s) + (Body(s[Taken(s)..]) + [QUOTE] + x);
      Body(s) + [QUOTE] + x
    else [QUOTE] + x
  }

  lemma {:induction false} ClosedSeparates(s: Text, t: Text, x: Text, y: Text)
    requires Closed(s, x) == Closed(t, y)
    ensures s == t && x == y
    decreases |s|
  {
    hide Body, Chunk, Taken;
    var a, b := Closed(s, x), Closed(t, y);
    if s == [] {
      assert x == a[1..] && y == b[1..];
    } else {
      ChunkSeparates(s, t, Closed(s[Taken(s)..], x), Closed(t[Taken(t)..], y));
      ClosedSeparates(s[Taken(s)..], t[Taken(t)..], x, y);
      assert s == s[..Taken(s)] + s[Taken(s)..] && t == t[..Taken(t)] + t[Taken(t)..];
    }
  }

  lemma ClosedIsBody(s: Text, x: Text)
    ensures Quote(s) + x == [QUOTE] + Closed(s, x)
  {
    assert Closed(s, x) == Body(s) + [QUOTE] + x;
  }

  /** Two literals with anything behind them: equal only for equal strings. */
  lemma QuoteSeparates(s: Text, t: Text, x: Text, y: Text)
    requires Quote(s) + x == Quote(t) + y
    ensures s == t && x == y
  {
    hide Quote;
    ClosedIsBody(s, x);
    ClosedIsBody(t, y);
    assert ([QUOTE] + Closed(s, x))[1..] == Closed(s, x);
    assert ([QUOTE] + Closed(t, y))[1..] == Closed(t, y);
    ClosedSeparates(s, t, x, y);
  }

  // ---- The order of code units ----

  predicate Less(s: Text, t: Text) {
    t != [] && (s == [] || s[0] < t[0] || (s[0] == t[0] && Less(s[1..], t[1..])))
  }

  lemma {:induction false} LessTotal(s: Text, t: Text)
    ensures Less(s, t) || Less(t, s) || s == t
  {
    if s != [] && t != [] && s[0] == t[0] {
      LessTotal(s[1..], t[1..]);
      assert s == [s[0]] + s[1..] && t == [t[0]] + t[1..];
    }
  }

  lemma {:induction false} LessTransitive(s: Text, t: Text, u: Text)
    requires Less(s, t) && Less(t, u)
    ensures Less(s, u)
  {
    if s != [] && s[0] == t[0] == u[0] {
      LessTransitive(s[1..], t[1..], u[1..]);
    }
  }

  lemma {:induction false} LessIrreflexive(s: Text)
    ensures !Less(s, s)
  {
    if s != [] {
      LessIrreflexive(s[1..]);
    }
  }

  /** Behind a common beginning s ends, or has the smaller code unit. */
  predicate FirstDifference(s: Text, t: Text, i: nat) {
    i <= |s| && i < |t| && s[..i] == t[..i] && (i == |s| || s[i] < t[i])
  }

  lemma {:induction false} FirstDifferenceLess(s: Text, t: Text, i: nat)
    requires FirstDifference(s, t, i)
    ensures Less(s, t)
  {
    if i > 0 {
      assert s[0] == s[..i][0] && t[0] == t[..i][0];
      assert s[1..][..i - 1] == s[..i][1..] && t[1..][..i - 1] == t[..i][1..];
      FirstDifferenceLess(s[1..], t[1..], i - 1);
    }
  }

  lemma {:induction false} LessIff(s: Text, t: Text)
    ensures Less(s, t) <==> exists i: nat :: FirstDifference(s, t, i)
  {
    if i: nat :| FirstDifference(s, t, i) {
      FirstDifferenceLess(s, t, i);
    }
    if Less(s, t) {
      if s == [] || s[0] < t[0] {
        assert FirstDifference(s, t, 0);
      } else {
        LessIff(s[1..], t[1..]);
        var i: nat :| FirstDifference(s[1..], t[1..], i);
        assert s[..i + 1] == [s[0]] + s[1..][..i] && t[..i + 1] == [t[0]] + t[1..][..i];
        assert FirstDifference(s, t, i + 1);
      }
    }
  }
}
