/** The ones'-complement checksum of src/ipv6.cpp (section 8.1 of RFC 8200, section 2 of RFC 1071). */
module Checksum {
  import opened Bytes

  const MAX16: int := 0xFFFF

  // ---------------------------------------------------------------- folding

  /** The loop of foldChecksum. */
  function Fold(sum: nat): nat {
    if sum > MAX16 then Fold(sum % 0x1_0000 + sum / 0x1_0000) else sum
  }

  /** What folding amounts to: the residue modulo 65535 that is zero for zero only. */
  function Residue(x: nat): (r: u16)
    ensures x > 0 <==> r > 0
  {
    if x == 0 then 0 else (x - 1) % MAX16 + 1
  }

  lemma {:induction false} FoldIsResidue(sum: nat)
    ensures Fold(sum) == Residue(sum)
    decreases sum
  {
    if sum > MAX16 {
      var next := sum % 0x1_0000 + sum / 0x1_0000;
      FoldIsResidue(next);
      assert sum - 1 == next - 1 + (sum / 0x1_0000) * MAX16;
      ModAdd(next - 1, sum / 0x1_0000);
    }
  }

  lemma {:induction false} ModAdd(a: nat, k: nat)
    ensures (a + k * MAX16) % MAX16 == a % MAX16
  {
    var q := a / MAX16;
    assert a + k * MAX16 == (q + k) * MAX16 + a % MAX16;
  }

  /** Equal residues are congruent sums that are both zero or both not. */
  lemma ResidueEqual(a: nat, b: nat)
    ensures Residue(a) == Residue(b) <==> a % MAX16 == b % MAX16 && (a == 0 <==> b == 0)
  {
    if a > 0 {
      Predecessor(a);
    }
    if b > 0 {
      Predecessor(b);
    }
  }

  lemma Predecessor(a: nat)
    requires a > 0
    ensures (a - 1) % MAX16 == (if a % MAX16 == 0 then MAX16 - 1 else a % MAX16 - 1)
  {
    var q, r := a / MAX16, a % MAX16;
    assert a == q * MAX16 + r;
    if r == 0 {
      assert a - 1 == (q - 1) * MAX16 + (MAX16 - 1);
    } else {
      assert a - 1 == q * MAX16 + (r - 1);
    }
  }

  /** Folding early changes nothing. */
  lemma ResidueAdd(a: nat, b: nat)
    ensures Residue(Residue(a) + b) == Residue(a + b)
  {
    if a > 0 {
      var k := (a - 1) / MAX16;
      assert a == Residue(a) + k * MAX16;
      assert a + b == Residue(a) + b + k * MAX16;
      ModAdd(Residue(a) + b, k);
      ResidueEqual(Residue(a) + b, a + b);
    }
  }

  method FoldChecksum(sum: u32) returns (r: u16)
    ensures r == Residue(sum)
  {
    FoldIsResidue(sum);
    var s := sum;
    while s > MAX16
      invariant 0 <= s < TWO32 && Fold(s) == Fold(sum)
      decreases s
    {
      s := s % 0x1_0000 + s / 0x1_0000;
    }
    r := s;
  }

  // ---------------------------------------------------------------- sums

  /** Sum of the 16-bit words that lie wholly within the first n bytes. */
  function Words(s: Data, n: nat): nat
    requires n <= |s|
  {
    if n < 2 then 0
    else if n % 2 == 1 then Words(s, n - 1)
    else Words(s, n - 2) + Be16(s, n - 2)
  }

  /** Sum of all words, an odd last byte padded with a zero. */
  function Total(s: Data): nat {
    Words(s, |s|) + (if |s| % 2 == 1 then s[|s| - 1] as int * 256 else 0)
  }

  type Address = a: Data | |a| == 16 witness seq(16, _ => 0)

  /** Everything the checksum covers: addresses, length, next header, frame. */
  function Covered(s: Data, src: Address, dst: Address, nxt: byte): nat {
    Words(src, 16) + Words(dst, 16) + |s| + nxt + Total(s)
  }

  function Sum16(s: Data, src: Address, dst: Address, nxt: byte): u16 {
    MAX16 - Residue(Covered(s, src, dst, nxt))
  }

  /** Adding to a folded sum and folding again. */
  method Add(sum: u16, ghost exact: nat, w: u16) returns (r: u16)
    requires sum == Residue(exact)
    ensures r == Residue(exact + w)
  {
    ResidueAdd(exact, w);
    r := FoldChecksum(sum + w);
  }

  /** calculateUdpAndTcpChecksumForIPv6: folding after every word gives what folding the total once gives. */
  method Calculate(s: Data, src: Address, dst: Address, nxt: byte) returns (r: u16)
    requires |s| < 0x1_0000
    ensures r == Sum16(s, src, dst, nxt)
  {
    hide Residue, Words;
    var sum: u16 := AddAddresses(src, dst);
    NoWords(s);
    ghost var exact := Words(src, 16) + Words(dst, 16);
    sum := Add(sum, exact, |s|);
    sum := Add(sum, exact + |s|, nxt);
    exact := exact + |s| + nxt;
    var i := 0;
    while i + 1 < |s|
      invariant 0 <= i <= |s| && i % 2 == 0
      invariant sum == Residue(exact + Words(s, i))
    {
      sum := Add(sum, exact + Words(s, i), s[i] as int * 256 + s[i + 1]);
      NextWord(s, i + 2);
      i := i + 2;
    }
    if |s| % 2 == 1 {
      OddWords(s);
      sum := Add(sum, exact + Words(s, i), s[|s| - 1] as int * 256);
    }
    r := MAX16 - sum;
  }

  lemma NoWords(s: Data)
    ensures Words(s, 0) == 0
  {
  }

  lemma NextWord(s: Data, n: nat)
    requires 2 <= n <= |s| && n % 2 == 0
    ensures Words(s, n) == Words(s, n - 2) + Be16(s, n - 2)
  {
  }

  lemma OddWords(s: Data)
    requires |s| % 2 == 1
    ensures Words(s, |s|) == Words(s, |s| - 1)
  {
  }

  method AddAddresses(src: Address, dst: Address) returns (sum: u16)
    ensures sum == Residue(Words(src, 16) + Words(dst, 16))
  {
    sum := 0;
    var i := 0;
    while i < 16
      invariant 0 <= i <= 16 && i % 2 == 0
      invariant sum == Residue(Words(src, i) + Words(dst, i))
    {
      ghost var exact := Words(src, i) + Words(dst, i);
      sum := Add(sum, exact, src[i] as int * 256 + src[i + 1]);
      sum := Add(sum, exact + Be16(src, i), dst[i] as int * 256 + dst[i + 1]);
      i := i + 2;
    }
  }

  // ---------------------------------------------------------------- laws

  lemma {:induction false} WordsPrefix(s: Data, t: Data, n: nat)
    requires n <= |s| && n <= |t| && s[..n] == t[..n]
    ensures Words(s, n) == Words(t, n)
  {
    if n >= 2 {
      if n % 2 == 1 {
        assert s[..n - 1] == s[..n][..n - 1] == t[..n - 1];
        WordsPrefix(s, t, n - 1);
      } else {
        assert s[..n - 2] == s[..n][..n - 2] == t[..n - 2];
        WordsPrefix(s, t, n - 2);
        assert s[n - 2] == s[..n][n - 2] && s[n - 1] == s[..n][n - 1];
        assert t[n - 2] == t[..n][n - 2] && t[n - 1] == t[..n][n - 1];
      }
    }
  }

  /** An odd last byte counts as if a zero byte followed. */
  lemma OddIsPadded(s: Data)
    requires |s| % 2 == 1
    ensures Total(s) == Total(s + [0])
  {
    WordsPrefix(s, s + [0], |s| - 1);
  }

  /** The word at an even offset replaced. */
  function WithWord(s: Data, o: nat, w: u16): (r: Data)
    requires o % 2 == 0 && o + 2 <= |s|
    ensures |r| == |s|
  {
    s[o := w / 256][o + 1 := w % 256]
  }

  lemma {:induction false} WordsWithWord(s: Data, o: nat, w: u16, n: nat)
    requires o % 2 == 0 && o + 2 <= |s| && n <= |s|
    ensures Words(WithWord(s, o, w), n) ==
            if n >= o + 2 then Words(s, n) - Be16(s, o) + w else Words(s, n)
    decreases n
  {
    if n >= 2 {
      WordsWithWord(s, o, w, if n % 2 == 1 then n - 1 else n - 2);
    }
  }

  /** Replacing a word changes the covered sum by the difference of the words. */
  lemma CoveredWithWord(s: Data, o: nat, w: u16, src: Address, dst: Address, nxt: byte)
    requires o % 2 == 0 && o + 2 <= |s|
    ensures Covered(WithWord(s, o, w), src, dst, nxt) == Covered(s, src, dst, nxt) - Be16(s, o) + w
  {
    WordsWithWord(s, o, w, |s|);
  }

  /** A checksum filled into its zeroed field makes the frame sum up to zero. */
  lemma FilledSumsToZero(s: Data, o: nat, src: Address, dst: Address, nxt: byte)
    requires o % 2 == 0 && o + 2 <= |s| && Be16(s, o) == 0
    ensures Sum16(WithWord(s, o, Sum16(s, src, dst, nxt)), src, dst, nxt) == 0
  {
    var t := Covered(s, src, dst, nxt);
    var c := MAX16 - Residue(t);
    CoveredWithWord(s, o, c, src, dst, nxt);
    if t > 0 {
      var k := (t - 1) / MAX16;
      assert t + c == (k + 1) * MAX16;
      ModAdd(0, k + 1);
      ResidueEqual(t + c, MAX16);
    }
  }

  /** A frame in which one word is replaced keeps its checksum exactly when the word is unchanged or goes from
      0x0000 to 0xFFFF or back: every other change of a word is noticed. */
  lemma ChangeNoticedExactly(s: Data, o: nat, w: u16, src: Address, dst: Address, nxt: byte)
    requires o % 2 == 0 && o + 2 <= |s| && nxt > 0
    ensures Sum16(WithWord(s, o, w), src, dst, nxt) == Sum16(s, src, dst, nxt) <==>
            w == Be16(s, o) || (w == 0 && Be16(s, o) == MAX16) || (w == MAX16 && Be16(s, o) == 0)
  {
    var t, v := Covered(s, src, dst, nxt), Be16(s, o);
    CoveredWithWord(s, o, w, src, dst, nxt);
    CoveredWithWord(s, o, 0, src, dst, nxt);
    CoveredPositive(s, o, w, src, dst, nxt);
    hide Covered, WithWord, Residue;
    ResidueEqual(t - v + w, t);
    CongruentWords(t - v, w, v);
  }

  lemma CoveredPositive(s: Data, o: nat, w: u16, src: Address, dst: Address, nxt: byte)
    requires o % 2 == 0 && o + 2 <= |s| && nxt > 0
    ensures Covered(s, src, dst, nxt) > 0 && Covered(WithWord(s, o, w), src, dst, nxt) > 0
  {
  }

  lemma CongruentWords(base: nat, w: u16, v: u16)
    ensures (base + w) % MAX16 == (base + v) % MAX16 <==>
            w == v || (w == 0 && v == MAX16) || (w == MAX16 && v == 0)
  {
    var d := w - v;
    var qw, qv := (base + w) / MAX16, (base + v) / MAX16;
    if (base + w) % MAX16 == (base + v) % MAX16 {
      assert d == (qw - qv) * MAX16;
      assert -1 <= qw - qv <= 1;
    }
    if w == MAX16 && v == 0 {
      ModAdd(base, 1);
    }
    if w == 0 && v == MAX16 {
      ModAdd(base, 1);
    }
  }

  /** The checksum comes out as zero exactly when the covered sum is a positive multiple of 65535. */
  lemma ZeroExactly(s: Data, src: Address, dst: Address, nxt: byte)
    ensures Sum16(s, src, dst, nxt) == 0 <==>
            Covered(s, src, dst, nxt) > 0 && Covered(s, src, dst, nxt) % MAX16 == 0
  {
    var t := Covered(s, src, dst, nxt);
    if t > 0 {
      Predecessor(t);
    }
  }

  /** And it does: whatever the rest of a frame, one value of any of its words makes the checksum zero, which
      UDP over IPv6 reserves for "no checksum" and the program sends as it is. */
  lemma ZeroReachable(s: Data, o: nat, src: Address, dst: Address, nxt: byte) returns (w: u16)
    requires o % 2 == 0 && o + 2 <= |s| && nxt > 0
    ensures Sum16(WithWord(s, o, w), src, dst, nxt) == 0
  {
    CoveredWithWord(s, o, 0, src, dst, nxt);
    var base := Covered(s, src, dst, nxt) - Be16(s, o);
    w := MAX16 - base % MAX16;
    CoveredWithWord(s, o, w, src, dst, nxt);
    ZeroExactly(WithWord(s, o, w), src, dst, nxt);
    assert base + w == (base / MAX16 + 1) * MAX16;
    ModAdd(0, base / MAX16 + 1);
  }
}
