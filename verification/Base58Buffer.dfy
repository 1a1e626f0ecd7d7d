/** The in-place algorithms: each digit is carried through the buffer from its low end. */
module Base58Buffer {
  import opened Common
  import opened Positional
  import opened Base58

  /** One step of the carry, with the weight p of the digit it reaches. */
  lemma CarryStep(carry: int, digit: int, from: int, to: int, p: int, low: int, oldLow: int, add: int)
    requires to > 0 && low + carry * p == oldLow * from + add
    ensures
      var c := carry + from * digit;
      ((c % to) * p + low) + (c / to) * (to * p) == (digit * p + oldLow) * from + add
  {
    var c := carry + from * digit;
    var q, r := c / to, c % to;
    Regroup(q, r, to, p);
    assert c == q * to + r;
    assert c * p == carry * p + from * digit * p;
    assert (digit * p + oldLow) * from == from * digit * p + oldLow * from;
  }

  lemma Regroup(q: int, r: int, to: int, p: int)
    ensures r * p + q * (to * p) == (q * to + r) * p
  {
  }

  lemma ValuePrepend(x: int, low: seq<int>, base: nat)
    ensures Value([x] + low, base) == x * Pow(base, |low|) + Value(low, base)
  {
    ValueConcat([x], low, base);
    assert Value([x], base) == Value([], base) * base + x;
  }

  lemma NoCarryLeft(value: int, carry: int, p: nat, total: int)
    requires 0 <= value && 0 <= carry && value + carry * p == total < p
    ensures carry == 0
  {
    if carry > 0 {
      MulMono(1, carry, p, p);
      assert false;
    }
  }

  /** After j digits: what they now hold, and the carry above them, is the product of what they held. */
  predicate Partial(cur: seq<int>, was: seq<int>, j: nat, carry: int, add: int, from: nat, to: nat)
    requires |cur| == |was| && j <= |was|
  {
    var n := |was|;
    && cur[..n - j] == was[..n - j]
    && Value(cur[n - j..], to) + carry * Pow(to, j) == Value(was[n - j..], to) * from + add
  }

  lemma PartialStart(was: seq<int>, add: int, from: nat, to: nat)
    ensures Partial(was, was, 0, add, add, from, to)
  {
    assert was[|was|..] == [];
  }

  lemma PartialStep(cur: seq<int>, was: seq<int>, j: nat, carry: int, add: int, from: nat, to: nat)
    requires |cur| == |was| && j < |was| && to > 0 && Partial(cur, was, j, carry, add, from, to)
    ensures
      var k := |was| - 1 - j;
      var c := carry + from * was[k];
      cur[k] == was[k] && Partial(cur[k := c % to], was, j + 1, c / to, add, from, to)
  {
    hide Value;
    var k := |was| - 1 - j;
    var c := carry + from * was[k];
    var low, oldLow := cur[k + 1..], was[k + 1..];
    assert cur[k] == cur[..k + 1][k] == was[..k + 1][k];
    var next := cur[k := c % to];
    assert next[k..] == [c % to] + low && was[k..] == [was[k]] + oldLow;
    assert next[..k] == cur[..k + 1][..k] && was[..k] == was[..k + 1][..k];
    CarryStep(carry, was[k], from, to, Pow(to, j), Value(low, to), Value(oldLow, to), add);
    ValuePrepend(c % to, low, to);
    ValuePrepend(was[k], oldLow, to);
  }

  /** When the loop stops, the carry is gone and the buffer holds the product. */
  lemma PartialEnd(cur: seq<int>, was: seq<int>, j: nat, carry: int, add: int, from: nat, to: nat, length: nat)
    requires |cur| == |was| && j <= |was| && length <= |was| && to > 0 && carry >= 0
    requires Digits(cur, to) && AllZero(was[..|was| - length])
    requires Value(was, to) * from + add < Pow(to, |was|)
    requires Partial(cur, was, j, carry, add, from, to)
    requires j == |was| || (carry == 0 && length <= j)
    ensures carry == 0 && Value(cur, to) == Value(was, to) * from + add && AllZero(cur[..|was| - j])
  {
    hide Value, Pow;
    var n := |was|;
    if j == n {
      assert cur[0..] == cur && was[0..] == was;
      ValueBound(cur, to);
      NoCarryLeft(Value(cur, to), carry, Pow(to, n), Value(was, to) * from + add);
    } else {
      assert was[..n - j] == was[..n - length][..n - j];
      assert cur == cur[..n - j] + cur[n - j..] && was == was[..n - j] + was[n - j..];
      LeadingZerosDrop(cur[..n - j], cur[n - j..], to);
      LeadingZerosDrop(was[..n - j], was[n - j..], to);
    }
  }

  /**
   * Multiplies the number in the buffer by `from` and adds `add`. The loop stops
   * once nothing is left to carry and the digits in use are passed, or at the
   * end of the buffer; either way no carry is lost when the buffer is wide enough.
   */
  method MultiplyAdd(buf: array<int>, length: nat, add: int, from: nat, to: nat) returns (used: nat)
    requires from > 1 && to > 1 && 0 <= add < from && length <= buf.Length
    requires Digits(buf[..], to) && AllZero(buf[..buf.Length - length])
    requires Value(buf[..], to) * from + add < Pow(to, buf.Length)
    modifies buf
    ensures used <= buf.Length && Digits(buf[..], to) && AllZero(buf[..buf.Length - used])
    ensures Value(buf[..], to) == Value(old(buf[..]), to) * from + add
  {
    hide Value, Pow, Partial;
    ghost var was := buf[..];
    var carry, j, k := add, 0, buf.Length - 1;
    PartialStart(was, add, from, to);
    while (carry != 0 || j < length) && k >= 0
      invariant 0 <= j <= buf.Length && k == buf.Length - 1 - j && 0 <= carry
      invariant Digits(buf[..], to) && Partial(buf[..], was, j, carry, add, from, to)
    {
      ghost var cur := buf[..];
      PartialStep(cur, was, j, carry, add, from, to);
      NonNegativeCarry(carry, from, buf[k], to);
      carry := carry + from * buf[k];
      buf[k] := carry % to;
      assert buf[..] == cur[k := carry % to];
      carry := carry / to;
      k, j := k - 1, j + 1;
    }
    PartialEnd(buf[..], was, j, carry, add, from, to, length);
    assert buf[..buf.Length - j] == buf[..][..buf.Length - j];
    used := j;
  }

  lemma NonNegativeCarry(carry: int, from: int, digit: int, to: int)
    requires carry >= 0 && from >= 0 && digit >= 0 && to > 0
    ensures carry + from * digit >= 0 && (carry + from * digit) / to >= 0
  {
    MulMono(0, from, 0, digit);
  }

  method CountZeros(d: seq<int>) returns (zeroes: nat)
    ensures zeroes == LeadingZeros(d)
  {
    zeroes := 0;
    while zeroes < |d| && d[zeroes] == 0
      invariant zeroes <= |d| && AllZero(d[..zeroes])
    {
      assert d[..zeroes + 1] == d[..zeroes] + [d[zeroes]];
      zeroes := zeroes + 1;
    }
    LeadingZerosOf(d[..zeroes], d[zeroes..]);
    assert d == d[..zeroes] + d[zeroes..];
  }

  /** The significant digits of the buffer: those after its zeros, searched from `from` on. */
  method Significant(buf: array<int>, from: nat, to: nat) returns (it: nat)
    requires from <= buf.Length && to > 1 && Digits(buf[..], to) && AllZero(buf[..from])
    ensures it <= buf.Length && Value(buf[..], to) >= 0
    ensures buf[it..] == ToDigits(Value(buf[..], to), to)
  {
    it := from;
    while it < buf.Length && buf[it] == 0
      invariant it <= buf.Length && AllZero(buf[..it])
    {
      assert buf[..it + 1] == buf[..it] + [buf[it]];
      it := it + 1;
    }
    assert buf[..] == buf[..it] + buf[it..];
    LeadingZerosDrop(buf[..it], buf[it..], to);
    DigitsOfValue(buf[it..], to);
  }

  /** Reads every digit after the leading zeros into a zeroed buffer. */
  method Fill(digits: seq<int>, zeroes: nat, size: nat, from: nat, to: nat) returns (buf: array<int>, length: nat)
    requires from > 1 && to > 1 && Digits(digits, from) && zeroes == LeadingZeros(digits)
    requires Pow(from, |digits| - zeroes) <= Pow(to, size)
    ensures fresh(buf) && buf.Length == size && length <= size
    ensures Digits(buf[..], to) && AllZero(buf[..size - length])
    ensures Value(buf[..], to) == Value(digits, from)
  {
    buf := new int[size](_ => 0);
    length := 0;
    ZeroValue(buf[..], to);
    assert digits[zeroes..zeroes] == [];
    for i := zeroes to |digits|
      invariant length <= size && Digits(buf[..], to) && AllZero(buf[..size - length])
      invariant Value(buf[..], to) == Value(digits[zeroes..i], from)
    {
      ghost var next := digits[zeroes..i + 1];
      assert next[..|next| - 1] == digits[zeroes..i];
      ValueBound(next, from);
      PowExpMono(from, |next|, |digits| - zeroes);
      length := MultiplyAdd(buf, length, digits[i], from, to);
    }
    assert digits[zeroes..|digits|] == digits[zeroes..];
    ValueStripped(digits, from);
  }

  method Encode(bytes: Bytes) returns (str: string)
    ensures str == Encoded(bytes)
  {
    if |bytes| == 0 {
      return "";
    }
    var zeroes := CountZeros(bytes);
    var size := (|bytes| - zeroes) * 138 / 100 + 1;
    EncodeBufferSuffices(|bytes| - zeroes);
    var b58, length := Fill(bytes, zeroes, size, 256, 58);
    var it := Significant(b58, size - length, 58);
    ValueBound(bytes, 256);
    ghost var digits := Convert(bytes, 256, 58);
    assert digits == ZeroDigits(zeroes) + b58[it..];
    str := seq(zeroes, _ => '1');
    ghost var start := it;
    while it < size
      invariant start <= it <= size
      invariant |str| == zeroes + it - start && |str| <= |digits|
      invariant forall i | 0 <= i < |str| :: str[i] == Letter(digits[i])
    {
      str := str + [Letter(b58[it])];
      it := it + 1;
    }
  }

  method CountOnes(str: string) returns (zeroes: nat)
    ensures zeroes <= |str| && IsBase58(str[..zeroes]) && AllZero(Indices(str)[..zeroes])
    ensures zeroes < |str| ==> str[zeroes] != '1'
  {
    hide IndexOf;
    zeroes := 0;
    while zeroes < |str| && str[zeroes] == '1'
      invariant zeroes <= |str| && forall i | 0 <= i < zeroes :: str[i] == '1'
    {
      zeroes := zeroes + 1;
    }
    OnesAreZeros(str, zeroes);
  }

  /** Reads the characters after the leading ones into a zeroed buffer, up to the first foreign one. */
  method FillChars(str: string, zeroes: nat, size: nat) returns (bytes: array<int>, length: nat, foreign: int)
    requires zeroes <= |str| && IsBase58(str[..zeroes])
    requires Pow(58, |str| - zeroes) <= Pow(256, size)
    ensures fresh(bytes) && bytes.Length == size && length <= size
    ensures Digits(bytes[..], 256) && AllZero(bytes[..size - length])
    ensures foreign == -1 ==> IsBase58(str) && Value(bytes[..], 256) == Value(Indices(str[zeroes..]), 58)
    ensures foreign != -1 ==> 0 <= foreign < |str| && !IsBase58(str) && foreign == FirstForeign(str)
  {
    hide Value, Pow, IndexOf;
    bytes := new int[size](_ => 0);
    length, foreign := 0, -1;
    ZeroValue(bytes[..], 256);
    ZeroValue([], 58);
    assert Indices(str[zeroes..zeroes]) == [];
    for i := zeroes to |str|
      invariant length <= size && Digits(bytes[..], 256) && AllZero(bytes[..size - length])
      invariant IsBase58(str[..i])
      invariant Value(bytes[..], 256) == Value(Indices(str[zeroes..i]), 58)
    {
      var value := IndexOf(str[i]);
      if value == -1 {
        FirstForeignIs(str, i);
        foreign := i;
        return;
      }
      DigitStep(str, zeroes, i, size);
      length := MultiplyAdd(bytes, length, value, 58, 256);
    }
    assert str[..|str|] == str && str[zeroes..|str|] == str[zeroes..];
  }

  method Decode(str: string) returns (r: Result<seq<int>, char>)
    ensures r == Decoded(str)
  {
    hide Value, Pow, IndexOf, ToDigits, LeadingZeros;
    if |str| == 0 {
      EmptyDecodes();
      return Ok([]);
    }
    var zeroes := CountOnes(str);
    var size := (|str| - zeroes) * 733 / 1000 + 1;
    DecodeBufferSuffices(|str| - zeroes);
    var bytes, length, foreign := FillChars(str, zeroes, size);
    if foreign != -1 {
      return Err(str[foreign]);
    }
    var it := Significant(bytes, size - length, 256);
    StripOnes(str, zeroes);
    r := Ok(seq(zeroes, _ => 0) + bytes[it..]);
    assert seq(zeroes, _ => 0) == ZeroDigits(zeroes);
  }

  lemma EmptyDecodes()
    ensures Decoded("") == Ok([])
  {
  }

  lemma DigitStep(str: string, zeroes: nat, i: nat, size: nat)
    requires zeroes <= i < |str| && IsBase58(str[..i]) && IndexOf(str[i]) >= 0
    requires Pow(58, |str| - zeroes) <= Pow(256, size)
    ensures IsBase58(str[..i + 1])
    ensures
      var v := Value(Indices(str[zeroes..i]), 58) * 58 + IndexOf(str[i]);
      v == Value(Indices(str[zeroes..i + 1]), 58) && v < Pow(256, size)
  {
    var next := Indices(str[zeroes..i + 1]);
    assert next[..|next| - 1] == Indices(str[zeroes..i]) && next[|next| - 1] == IndexOf(str[i]);
    assert forall j | 0 <= j <= i :: j < i ==> str[..i][j] == str[j];
    assert IsBase58(str[..i + 1]);
    assert str[zeroes..i + 1] == str[..i + 1][zeroes..];
    ValueBound(next, 58);
    PowExpMono(58, |next|, |str| - zeroes);
  }

  lemma OnesAreZeros(str: string, zeroes: nat)
    requires zeroes <= |str| && forall i | 0 <= i < zeroes :: str[i] == '1'
    ensures IsBase58(str[..zeroes]) && AllZero(Indices(str)[..zeroes])
  {
    IndexOfLetter(0);
  }

  lemma {:induction false} FirstForeignIs(str: string, i: nat)
    requires i < |str| && IsBase58(str[..i]) && IndexOf(str[i]) < 0
    ensures !IsBase58(str) && FirstForeign(str) == i
    decreases i
  {
    if i > 0 {
      assert str[..i][0] == str[0];
      assert str[1..][..i - 1] == str[..i][1..];
      FirstForeignIs(str[1..], i - 1);
    }
  }

  /** Dropping the leading ones drops the leading zero digits. */
  lemma StripOnes(str: string, zeroes: nat)
    requires IsBase58(str) && zeroes <= |str| && AllZero(Indices(str)[..zeroes])
    requires zeroes < |str| ==> str[zeroes] != '1'
    ensures zeroes == LeadingZeros(Indices(str))
    ensures Value(Indices(str), 58) == Value(Indices(str[zeroes..]), 58)
  {
    var d := Indices(str);
    assert Letter(0) == '1';
    assert zeroes < |str| ==> d[zeroes] == IndexOf(str[zeroes]) && Letter(d[zeroes]) == str[zeroes];
    LeadingZerosOf(d[..zeroes], d[zeroes..]);
    assert d == d[..zeroes] + d[zeroes..];
    ValueStripped(d, 58);
    assert d[zeroes..] == Indices(str[zeroes..]);
  }
}
