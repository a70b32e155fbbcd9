/** The one's-complement checksum that stage2/net/ipv4.c and stage2/net/udp.c compute: 16-bit words
    added up, carries folded back in, the result complemented (section 1 of RFC 1071). */
module InternetChecksum {
  import opened Bytes

  type Word = w: nat | w < 65536

  function Hi(w: Word): Byte { w / 256 }
  function Lo(w: Word): Byte { w % 256 }

  /** A word in network byte order. */
  function Pack(w: Word): seq<Byte> { [Hi(w), Lo(w)] }

  function WordAt(bs: seq<Byte>, i: nat): Word
    requires i + 1 < |bs|
  {
    bs[i] as int * 256 + bs[i + 1]
  }

  /** The sum of all words; an odd last byte counts as the high half of a word. */
  function WordSum(bs: seq<Byte>): nat {
    if |bs| == 0 then 0
    else if |bs| == 1 then bs[0] as int * 256
    else WordAt(bs, 0) + WordSum(bs[2..])
  }

  /** End-around carry until the sum fits 16 bits. */
  function Fold(sum: nat): Word {
    if sum < 65536 then sum else Fold(sum % 65536 + sum / 65536)
  }

  function Complement(w: Word): Word { 65535 - w }

  // ------------------------------------------------------------------------------------------
  // Sums
  // ------------------------------------------------------------------------------------------

  lemma {:induction false} SumAppend(a: seq<Byte>, b: seq<Byte>)
    requires |a| % 2 == 0
    ensures WordSum(a + b) == WordSum(a) + WordSum(b)
  {
    if a == [] {
      assert a + b == b;
    } else {
      assert |a| >= 2;
      SumAppend(a[2..], b);
      assert (a + b)[2..] == a[2..] + b && WordAt(a + b, 0) == WordAt(a, 0);
    }
  }

  /** The sum of a packet of any length that IPv4 allows fits 32 bits. */
  lemma {:induction false} SumBound(bs: seq<Byte>)
    ensures WordSum(bs) <= 65535 * ((|bs| + 1) / 2)
  {
    if |bs| >= 2 { SumBound(bs[2..]); }
  }

  /** Folding keeps the value modulo 65535 and gives zero only for zero. */
  lemma {:induction false} FoldMod(sum: nat)
    ensures Fold(sum) % 65535 == sum % 65535 && (Fold(sum) == 0 <==> sum == 0)
  {
    if sum >= 65536 {
      FoldMod(sum % 65536 + sum / 65536);
      assert sum % 65536 + sum / 65536 == sum - 65535 * (sum / 65536);
      Shifted(sum, sum / 65536);
    }
  }

  lemma Shifted(a: nat, k: nat)
    requires 65535 * k <= a
    ensures (a - 65535 * k) % 65535 == a % 65535
  {
    var q, r := a / 65535, a % 65535;
    assert a - 65535 * k == 65535 * (q - k) + r;
  }

  /** The complemented sum is zero exactly for the non-zero multiples of 65535. */
  lemma ValidIff(sum: nat)
    ensures Complement(Fold(sum)) == 0 <==> sum > 0 && sum % 65535 == 0
  {
    FoldMod(sum);
  }

  /** What the sender puts on the wire: never zero, so that it does not read as "no checksum". */
  function OnWire(sum: nat): Word { if Complement(Fold(sum)) == 0 then 0xFFFF else Complement(Fold(sum)) }

  /** A sum completed by its checksum is valid. */
  lemma CompletedValid(sum: nat)
    ensures OnWire(sum) != 0 && Complement(Fold(sum + OnWire(sum))) == 0
  {
    FoldMod(sum);
    var f: nat, w: nat := Fold(sum), OnWire(sum);
    assert (f + w) % 65535 == 0;
    SumMod(sum, f, w);
    ValidIff(sum + w);
  }

  lemma SumMod(a: nat, b: nat, w: nat)
    requires a % 65535 == b % 65535
    ensures (a + w) % 65535 == (b + w) % 65535
  {
    var r := a % 65535;
    assert a == 65535 * (a / 65535) + r && b == 65535 * (b / 65535) + r;
    Shifted(a + w, a / 65535);
    Shifted(b + w, b / 65535);
  }

  /** The two words that one's-complement sums cannot tell apart. */
  predicate Exchange(w: Word, w': Word) { (w == 0 && w' == 0xFFFF) || (w == 0xFFFF && w' == 0) }

  /** Replacing one word by another keeps a valid sum valid if and only if the two are 0x0000 and 0xFFFF
      and the new sum is not zero altogether. */
  lemma WordChange(sum: nat, w: Word, w': Word)
    requires w != w' && Complement(Fold(sum + w)) == 0
    ensures Complement(Fold(sum + w')) == 0 <==> Exchange(w, w') && sum + w' > 0
  {
    ValidIff(sum + w);
    ValidIff(sum + w');
    if Exchange(w, w') {
      Shifted(if w == 0 then sum + w' else sum + w, 1);
    } else {
      MultiplesApart(sum + w, sum + w');
    }
  }

  /** Two multiples of 65535 that are close together are equal or 65535 apart. */
  lemma MultiplesApart(x: nat, y: nat)
    ensures x % 65535 == 0 && y % 65535 == 0 && -65535 <= x - y <= 65535 ==> x - y in {0, 65535, -65535}
  {
    if x % 65535 == 0 && y % 65535 == 0 {
      var a, b := x / 65535, y / 65535;
      assert x == 65535 * a && y == 65535 * b;
      assert x - y == 65535 * (a - b);
    }
  }

  // ------------------------------------------------------------------------------------------
  // The loops
  // ------------------------------------------------------------------------------------------

  /** The summing loop, on top of what has been added before. The 32-bit sum does not overflow. */
  method AddWords(start: nat, bs: seq<Byte>) returns (sum: nat)
    requires |bs| < 65536 && start <= 6 * 65535
    ensures sum == start + WordSum(bs) && sum < 0x1_0000_0000
  {
    sum := start;
    var i := 0;
    SumBound(bs);
    while |bs| - i > 1
      invariant 0 <= i <= |bs| && sum + WordSum(bs[i..]) == start + WordSum(bs)
    {
      assert bs[i..][2..] == bs[i + 2..];
      sum := sum + (bs[i] as int * 256 + bs[i + 1]);
      i := i + 2;
    }
    if |bs| - i != 0 {
      sum := sum + bs[i] as int * 256;
    }
  }

  method FoldCarries(start: nat) returns (sum: Word)
    ensures sum == Fold(start)
  {
    var s := start;
    while s / 65536 != 0
      invariant Fold(s) == Fold(start)
      decreases s
    {
      s := s % 65536 + s / 65536;
    }
    sum := s;
  }

  /** `ipv4_checksum`. */
  method Ipv4Checksum(bs: seq<Byte>) returns (c: Word)
    requires |bs| < 65536
    ensures c == Complement(Fold(WordSum(bs)))
  {
    var sum := AddWords(0, bs);
    var f := FoldCarries(sum);
    c := 65535 - f;
  }
}
