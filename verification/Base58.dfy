/** Base58 encoding and decoding, carried digit by digit through a buffer sized in advance. */
module Base58 {
  import opened Common
  import opened Positional

  /** The alphabet: the digits without 0, the capitals without I and O, the small letters without l. */
  function Letter(i: nat): char
    requires i < 58
  {
    var offset :=
      if i < 9 then '1' as int
      else if i < 17 then 'A' as int - 9
      else if i < 22 then 'J' as int - 17
      else if i < 33 then 'P' as int - 22
      else if i < 44 then 'a' as int - 33
      else 'm' as int - 44;
    (offset + i) as char
  }

  lemma LettersAreTheAlphabet(i: nat)
    requires i < 58
    ensures i < 9 ==> Letter(i) == "123456789"[i]
    ensures 9 <= i < 33 ==> Letter(i) == "ABCDEFGHJKLMNPQRSTUVWXYZ"[i - 9]
    ensures 33 <= i ==> Letter(i) == "abcdefghijkmnopqrstuvwxyz"[i - 33]
  {
  }

  // ---- Specification: change of base with the leading zeros kept ----

  function LeadingZeros(d: seq<int>): (z: nat)
    ensures z <= |d| && AllZero(d[..z]) && (z < |d| ==> d[z] != 0)
  {
    if d == [] || d[0] != 0 then 0
    else
      var z := LeadingZeros(d[1..]);
      assert forall i | 1 <= i < 1 + z :: d[i] == d[1..][..z][i - 1];
      1 + z
  }

  function ZeroDigits(n: nat): (z: seq<int>)
    ensures |z| == n && AllZero(z)
  {
    seq(n, _ => 0)
  }

  function Convert(d: seq<int>, from: nat, to: nat): (r: seq<int>)
    requires from > 1 && to > 1 && Digits(d, from)
    ensures Digits(r, to)
  {
    ValueBound(d, from);
    ZeroDigits(LeadingZeros(d)) + ToDigits(Value(d, from), to)
  }

  lemma {:induction false} LeadingZerosOf(z: seq<int>, d: seq<int>)
    requires AllZero(z) && (d != [] ==> d[0] != 0)
    ensures LeadingZeros(z + d) == |z|
  {
    if z == [] {
      assert z + d == d;
    } else {
      assert (z + d)[1..] == z[1..] + d;
      LeadingZerosOf(z[1..], d);
    }
  }

  lemma ValueStripped(d: seq<int>, base: nat)
    ensures Value(d, base) == Value(d[LeadingZeros(d)..], base)
  {
    var z := LeadingZeros(d);
    assert d == d[..z] + d[z..];
    LeadingZerosDrop(d[..z], d[z..], base);
  }

  lemma ConvertParts(d: seq<int>, from: nat, to: nat)
    requires from > 1 && to > 1 && Digits(d, from)
    ensures LeadingZeros(Convert(d, from, to)) == LeadingZeros(d)
    ensures Value(Convert(d, from, to), to) == Value(d, from)
  {
    ValueBound(d, from);
    var z, e := ZeroDigits(LeadingZeros(d)), ToDigits(Value(d, from), to);
    LeadingZerosOf(z, e);
    LeadingZerosDrop(z, e, to);
    ValueOfDigits(Value(d, from), to);
  }

  lemma DigitsAfterZeros(d: seq<int>, base: nat)
    requires base > 1 && Digits(d, base)
    ensures Value(d, base) >= 0 && d == ZeroDigits(LeadingZeros(d)) + ToDigits(Value(d, base), base)
  {
    hide ToDigits, Value;
    var z := LeadingZeros(d);
    ValueStripped(d, base);
    DigitsOfValue(d[z..], base);
    assert d[..z] == ZeroDigits(z);
    assert d == d[..z] + d[z..];
  }

  /** Changing base and back is the identity. */
  lemma ConvertBack(d: seq<int>, from: nat, to: nat)
    requires from > 1 && to > 1 && Digits(d, from)
    ensures Convert(Convert(d, from, to), to, from) == d
  {
    hide ToDigits, Value, ZeroDigits, LeadingZeros;
    ConvertParts(d, from, to);
    DigitsAfterZeros(d, from);
  }

  // ---- Characters ----

  function IndexOf(c: char): (i: int)
    ensures -1 <= i < 58
    ensures i >= 0 ==> Letter(i) == c
    ensures i < 0 ==> forall j | 0 <= j < 58 :: Letter(j) != c
  {
    Search(c, 58)
  }

  function Search(c: char, n: nat): (i: int)
    requires n <= 58
    ensures -1 <= i < n
    ensures i >= 0 ==> Letter(i) == c
    ensures i < 0 ==> forall j | 0 <= j < n :: Letter(j) != c
  {
    if n == 0 then -1 else if Letter(n - 1) == c then n - 1 else Search(c, n - 1)
  }

  lemma IndexOfLetter(i: nat)
    requires i < 58
    ensures IndexOf(Letter(i)) == i
  {
    var j := IndexOf(Letter(i));
    assert j >= 0 && Letter(j) == Letter(i);
    if j < i {
      LettersIncrease(j, i);
    } else if i < j {
      LettersIncrease(i, j);
    }
  }

  lemma LettersIncrease(i: nat, j: nat)
    requires i < j < 58
    ensures Letter(i) < Letter(j)
  {
  }

  function Chars(d: seq<int>): (s: string)
    requires Digits(d, 58)
    ensures |s| == |d|
  {
    seq(|d|, i requires 0 <= i < |d| => Letter(d[i]))
  }

  predicate IsBase58(s: string) {
    forall i | 0 <= i < |s| :: IndexOf(s[i]) >= 0
  }

  function Indices(s: string): (d: seq<int>)
    ensures |d| == |s|
    ensures IsBase58(s) ==> Digits(d, 58)
  {
    seq(|s|, i requires 0 <= i < |s| => IndexOf(s[i]))
  }

  lemma CharsBack(d: seq<int>)
    requires Digits(d, 58)
    ensures IsBase58(Chars(d)) && Indices(Chars(d)) == d
  {
    forall i | 0 <= i < |d| ensures IndexOf(Chars(d)[i]) == d[i] {
      IndexOfLetter(d[i]);
    }
  }

  function FirstForeign(s: string): (i: int)
    requires !IsBase58(s)
    ensures 0 <= i < |s| && IndexOf(s[i]) < 0 && IsBase58(s[..i])
  {
    if IndexOf(s[0]) < 0 then 0
    else
      var i := FirstForeign(s[1..]);
      assert s[..i + 1] == [s[0]] + s[1..][..i];
      i + 1
  }

  function Encoded(b: Bytes): string {
    Chars(Convert(b, 256, 58))
  }

  function Decoded(s: string): Result<seq<int>, char> {
    if IsBase58(s) then Ok(Convert(Indices(s), 58, 256)) else Err(s[FirstForeign(s)])
  }

  /**
   * What the text is: letters of the alphabet whose places are the digits, most significant first, of the number the
   * bytes are, with as many ones in front as there are zero bytes, and no other leading zero digit.
   */
  lemma EncodedExact(b: Bytes)
    ensures var t := Encoded(b);
      exists d: seq<int> :: (
        && Digits(d, 58) && |d| == |t| && (forall i | 0 <= i < |t| :: t[i] == Letter(d[i]))
        && Value(d, 58) == Value(b, 256) && LeadingZeros(d) == LeadingZeros(b))
  {
    var d := Convert(b, 256, 58);
    ConvertParts(b, 256, 58);
  }

  /** Decoding an encoded byte array gives the array back. */
  lemma DecodeEncode(b: Bytes)
    ensures Decoded(Encoded(b)) == Ok(b)
  {
    CharsBack(Convert(b, 256, 58));
    ConvertBack(b, 256, 58);
  }

  /** Encoding what a Base58 string decodes to gives the string back. */
  lemma EncodeDecode(s: string)
    ensures Decoded(s).Ok? <==> IsBase58(s)
    ensures IsBase58(s) ==> Digits(Decoded(s).value, 256) && Encoded(Decoded(s).value) == s
  {
    if IsBase58(s) {
      ConvertBack(Indices(s), 58, 256);
      var t := Chars(Indices(s));
      assert forall i | 0 <= i < |s| :: t[i] == s[i];
      assert t == s;
    }
  }

  // ---- Why the buffers suffice ----

  lemma PowTwice(b: nat, n: nat, x: nat)
    requires Pow(b, n) == x
    ensures Pow(b, 2 * n) == x * x && Pow(b, 2 * n + 1) == b * (x * x)
  {
    PowAdd(b, n, n);
  }

  lemma PowOne(b: nat)
    ensures Pow(b, 1) == b
  {
    assert Pow(b, 1) == b * Pow(b, 0);
  }

  lemma PowersOf2()
    ensures Pow(2, 8) == 256 && Pow(2, 41) == 2199023255552 && Pow(2, 43) == 8796093022208
    ensures Pow(2, 129) == 680564733841876926926749214863536422912
  {
    hide Pow;
    PowOne(2);
    PowTwice(2, 1, 2);
    PowTwice(2, 2, 4);
    PowTwice(2, 4, 16);
    PowTwice(2, 5, 32);
    PowTwice(2, 10, 1024);
    PowTwice(2, 20, 1048576);
    PowTwice(2, 21, 2097152);
    PowTwice(2, 43, 8796093022208);
    PowAdd(2, 86, 43);
  }

  lemma PowersOf58()
    ensures Pow(58, 7) == 2207984167552 && Pow(58, 22) == 624332378391008467754527498760580235264
  {
    hide Pow;
    PowOne(58);
    PowTwice(58, 1, 58);
    PowTwice(58, 3, 195112);
    PowTwice(58, 2, 3364);
    PowTwice(58, 5, 656356768);
    PowTwice(58, 11, 24986644000165537792);
  }

  /** 58^7 >= 2^41, and 41 * 138 >= 56 * 100. */
  lemma EncodeBufferSuffices(m: nat)
    ensures Pow(256, m) <= Pow(58, m * 138 / 100 + 1)
  {
    hide Pow;
    var size := m * 138 / 100 + 1;
    PowersOf2();
    PowersOf58();
    PowMul(2, 8, 7);
    PowCompare(256, 58, m, size, 56, 41, 7, 56 * m, 41 * size);
  }

  /** 58^22 <= 2^129, and 176 * 733 >= 129 * 1000. */
  lemma DecodeBufferSuffices(l: nat)
    ensures Pow(58, l) <= Pow(256, l * 733 / 1000 + 1)
  {
    hide Pow;
    var size := l * 733 / 1000 + 1;
    PowersOf2();
    PowersOf58();
    PowMul(2, 8, 22);
    PowCompare(58, 256, l, size, 129, 176, 22, 129 * l, 176 * size);
  }
}
