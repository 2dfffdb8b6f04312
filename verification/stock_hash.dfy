/** The stock fingerprint (core/stock/index.js, `stockHash`): the 32-bit
    FNV-1a hash of the occupancy bytes in index order (FNV-1a as specified
    in the IETF draft "The FNV Non-Cryptographic Hash Algorithm",
    draft-eastlake-fnv), written as eight lowercase hexadecimal digits. */
module StockHash {
  import opened Vectors
  import opened Stock
  import opened StockCarve
  import opened MotionPlanner

  /** The 32-bit FNV offset basis, 2166136261. */
  const FnvOffsetBasis: bv32 := 0x811C9DC5

  /** The 32-bit FNV prime, 16777619. */
  const FnvPrime: bv32 := 0x01000193

  /** One FNV-1a step: exclusive-or the byte in, then multiply by the prime
      modulo 2^32. `Math.imul` keeps the low 32 bits of the product and the
      final `>>> 0` reads them as unsigned, which is what `bv32` does. */
  function FnvStep(hash: bv32, b: bv8): bv32 {
    (hash ^ (b as bv32)) * FnvPrime
  }

  /** The fold of `FnvStep` over `bytes`, first byte first. */
  function FnvFrom(hash: bv32, bytes: seq<bv8>): bv32
    decreases |bytes|
  {
    if |bytes| == 0 then hash else FnvFrom(FnvStep(hash, bytes[0]), bytes[1..])
  }

  /** The 32-bit FNV-1a hash. It starts at the offset basis and can be fed
      a byte at a time: the hash of a longer input is one step on from the
      hash of the input without its last byte. */
  function Fnv1a(bytes: seq<bv8>): (r: bv32)
    ensures bytes == [] ==> r == FnvOffsetBasis
    ensures bytes != [] ==>
              r == FnvStep(FnvFrom(FnvOffsetBasis, bytes[..|bytes| - 1]), bytes[|bytes| - 1])
  {
    if bytes == [] then FnvOffsetBasis
    else
      var init, last := bytes[..|bytes| - 1], bytes[|bytes| - 1];
      FnvAppend(FnvOffsetBasis, init, [last]);
      assert bytes == init + [last];
      assert [last][1..] == [];
      FnvFrom(FnvOffsetBasis, bytes)
  }

  /** Hashing a concatenation continues from the hash of the first part. */
  lemma {:induction false} FnvAppend(hash: bv32, a: seq<bv8>, b: seq<bv8>)
    ensures FnvFrom(hash, a + b) == FnvFrom(FnvFrom(hash, a), b)
    decreases |a|
  {
    if |a| == 0 {
      assert a + b == b;
    } else {
      assert (a + b)[0] == a[0];
      assert (a + b)[1..] == a[1..] + b;
      FnvAppend(FnvStep(hash, a[0]), a[1..], b);
    }
  }

  /** The known answers of the reference: the empty input hashes to the
      offset basis and the single byte "a" (0x61) to 0xe40c292c. */
  lemma FnvKnownAnswers()
    ensures Fnv1a([]) == 0x811C9DC5
    ensures Fnv1a([0x61]) == 0xE40C292C
  {
    assert [0x61 as bv8][1..] == [];
  }

  /** The lowercase hexadecimal digit for `d`. */
  function HexChar(d: nat): (c: char)
    requires d < 16
    ensures '0' <= c <= '9' || 'a' <= c <= 'f'
  {
    if d < 10 then ('0' as int + d) as char else ('a' as int + d - 10) as char
  }

  predicate IsHexDigit(c: char) {
    '0' <= c <= '9' || 'a' <= c <= 'f'
  }

  /** The value of a hexadecimal digit; 0 for anything else. */
  function DigitValue(c: char): (d: nat)
    ensures d < 16
    ensures IsHexDigit(c) ==> HexChar(d) == c
  {
    if '0' <= c <= '9' then c as int - '0' as int
    else if 'a' <= c <= 'f' then c as int - 'a' as int + 10
    else 0
  }

  /** `n.toString(16)` for a non-negative integer: the shortest lowercase
      base-16 numeral, "0" for zero. */
  function HexDigits(n: nat): (s: string)
    ensures |s| >= 1
    decreases n
  {
    if n < 16 then [HexChar(n)] else HexDigits(n / 16) + [HexChar(n % 16)]
  }

  /** `s.padStart(width, c)`. */
  function PadStart(s: string, width: nat, c: char): (r: string)
    ensures |r| == if |s| >= width then |s| else width
    ensures |s| >= width ==> r == s
    ensures |s| < width ==> r[width - |s|..] == s && forall i :: 0 <= i < width - |s| ==> r[i] == c
  {
    if |s| >= width then s else seq(width - |s|, _ => c) + s
  }

  /** The value of a hexadecimal numeral, most significant digit first. */
  function FromHex(s: string): nat {
    if |s| == 0 then 0 else FromHex(s[..|s| - 1]) * 16 + DigitValue(s[|s| - 1])
  }

  function Pow16(k: nat): nat {
    if k == 0 then 1 else 16 * Pow16(k - 1)
  }

  /** The rendering `(hash >>> 0).toString(16).padStart(8, '0')`: exactly
      eight lowercase hexadecimal digits that read back as the hash, so
      distinct hashes render differently. */
  function HashHex(hash: bv32): (r: string)
    ensures |r| == 8
    ensures forall i :: 0 <= i < 8 ==> IsHexDigit(r[i])
    ensures FromHex(r) == hash as nat
  {
    PaddedHex(hash as nat);
    PadStart(HexDigits(hash as nat), 8, '0')
  }

  /** A number below 2^32, written in hexadecimal and padded with zeros to
      eight digits. */
  lemma PaddedHex(n: nat)
    requires n < 0x1_0000_0000
    ensures var r := PadStart(HexDigits(n), 8, '0');
            |r| == 8 && (forall i :: 0 <= i < 8 ==> IsHexDigit(r[i])) && FromHex(r) == n
  {
    var s := HexDigits(n);
    assert Pow16(8) == 0x1_0000_0000;
    HexDigitsLength(n, 8);
    HexDigitsRoundTrip(n);
    LeadingZeros(8 - |s|, s);
    var r := PadStart(s, 8, '0');
    forall i | 0 <= i < 8 ensures IsHexDigit(r[i]) {
      if |s| < 8 && i >= 8 - |s| {
        assert r[i] == s[i - (8 - |s|)];
      }
    }
  }

  /** A number below 16^k has at most k hexadecimal digits. */
  lemma {:induction false} HexDigitsLength(n: nat, k: nat)
    requires k >= 1 && n < Pow16(k)
    ensures |HexDigits(n)| <= k
    decreases n
  {
    if n >= 16 {
      assert k >= 2;
      HexDigitsLength(n / 16, k - 1);
    }
  }

  /** Reading back a numeral gives the number it was written for. */
  lemma {:induction false} HexDigitsRoundTrip(n: nat)
    ensures FromHex(HexDigits(n)) == n
    ensures forall i :: 0 <= i < |HexDigits(n)| ==> IsHexDigit(HexDigits(n)[i])
    decreases n
  {
    var s := HexDigits(n);
    if n < 16 {
      assert s[..0] == [];
    } else {
      HexDigitsRoundTrip(n / 16);
      assert s[..|s| - 1] == HexDigits(n / 16);
    }
  }

  /** Leading zeros do not change a numeral's value. */
  lemma {:induction false} LeadingZeros(k: nat, s: string)
    ensures FromHex(seq(k, _ => '0') + s) == FromHex(s)
    decreases |s|
  {
    var z: string := seq(k, _ => '0');
    if |s| == 0 {
      assert z + s == z;
      ZerosAreZero(k);
    } else {
      var s' := s[..|s| - 1];
      assert (z + s)[..|z + s| - 1] == z + s';
      assert (z + s)[|z + s| - 1] == s[|s| - 1];
      LeadingZeros(k, s');
    }
  }

  lemma {:induction false} ZerosAreZero(k: nat)
    ensures FromHex(seq(k, _ => '0')) == 0
  {
    if k > 0 {
      var z: string := seq(k, _ => '0');
      assert z[..k - 1] == seq(k - 1, _ => '0');
      ZerosAreZero(k - 1);
    }
  }

  /** `stockHash`: the loop over the voxel bytes, then the rendering. */
  method StockHashOf(s: VoxelStock) returns (r: string)
    ensures r == HashHex(Fnv1a(s.voxels))
  {
    var hash := FnvOffsetBasis;
    var i := 0;
    while i < |s.voxels|
      invariant 0 <= i <= |s.voxels|
      invariant hash == Fnv1a(s.voxels[..i])
    {
      FnvAppend(FnvOffsetBasis, s.voxels[..i], [s.voxels[i]]);
      assert s.voxels[..i + 1] == s.voxels[..i] + [s.voxels[i]];
      hash := FnvStep(hash, s.voxels[i]);
      i := i + 1;
    }
    assert s.voxels[..i] == s.voxels;
    r := HashHex(hash);
  }

  /** Two fresh stocks of the same size, carved by the same timeline with
      the same tool, have the same hash. */
  method Determinism(h: Length, width: real, height: real, depth: real, voxelSize: real,
                     timeline: seq<Sample>, toolDiameter: real)
    returns (first: string, second: string)
    requires voxelSize != 0.0
    ensures first == second && |first| == 8
  {
    var a := RunStockRemoval(h, Create(width, height, depth, voxelSize), timeline, toolDiameter);
    var b := RunStockRemoval(h, Create(width, height, depth, voxelSize), timeline, toolDiameter);
    assert a.voxels == b.voxels;
    first := StockHashOf(a);
    second := StockHashOf(b);
  }
}
