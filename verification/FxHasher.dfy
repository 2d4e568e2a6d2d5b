/** The key table's hasher: fixed seed, 64-bit words. */
module FxHashing {
  function RotateLeft5(x: bv64): bv64 {
    (x << 5) | (x >> 59)
  }

  function RotateRight5(x: bv64): bv64 {
    (x >> 5) | (x << 59)
  }

  /** Multiplication by the inverse of the seed modulo 2^64; the seed is odd. */
  function DivideBySeed(x: bv64): bv64 {
    x * 0x2040_003d_7809_70bd
  }

  lemma SeedIsOdd(x: bv64)
    ensures DivideBySeed(x * 0x517c_c1b7_2722_0a95) == x
  {
  }

  /** Multiplication by FX_SEED, wrapping around, loses nothing. */
  function TimesSeed(x: bv64): (r: bv64)
    ensures DivideBySeed(r) == x
  {
    SeedIsOdd(x);
    x * 0x517c_c1b7_2722_0a95
  }

  /** `FxHasher::add`: one word into the hash. */
  function Mix(hash: bv64, word: bv64): bv64 {
    TimesSeed(RotateLeft5(hash) ^ word)
  }

  /** The hash before a known word was mixed in. */
  function HashBefore(mixed: bv64, word: bv64): bv64 {
    RotateRight5(DivideBySeed(mixed) ^ word)
  }

  /** The word that was mixed into a known hash. */
  function WordMixed(mixed: bv64, hash: bv64): bv64 {
    DivideBySeed(mixed) ^ RotateLeft5(hash)
  }

  function Fold(hash: bv64, words: seq<bv64>): bv64
    decreases |words|
  {
    if words == [] then hash else Fold(Mix(hash, words[0]), words[1..])
  }

  /** `u64::from_le_bytes`. */
  function LittleEndian(b: seq<bv8>): bv64
    requires |b| == 8
  {
    (b[0] as bv64) | (b[1] as bv64 << 8) | (b[2] as bv64 << 16) | (b[3] as bv64 << 24)
    | (b[4] as bv64 << 32) | (b[5] as bv64 << 40) | (b[6] as bv64 << 48) | (b[7] as bv64 << 56)
  }

  /** `u64::to_le_bytes`. */
  function LittleEndianBytes(v: bv64): seq<bv8> {
    [(v & 0xff) as bv8, ((v >> 8) & 0xff) as bv8, ((v >> 16) & 0xff) as bv8, ((v >> 24) & 0xff) as bv8,
     ((v >> 32) & 0xff) as bv8, ((v >> 40) & 0xff) as bv8, ((v >> 48) & 0xff) as bv8, ((v >> 56) & 0xff) as bv8]
  }

  /** A last chunk of fewer than eight bytes, filled up with zeros. */
  function Padded(tail: seq<bv8>): seq<bv8>
    requires |tail| <= 8
  {
    tail + seq(8 - |tail|, _ => 0 as bv8)
  }

  /** The words that `write` feeds to the hash. */
  function Words(bytes: seq<bv8>): seq<bv64> {
    if |bytes| == 0 then []
    else if |bytes| < 8 then [LittleEndian(Padded(bytes))]
    else [LittleEndian(bytes[..8])] + Words(bytes[8..])
  }

  lemma FoldOne(hash: bv64, word: bv64)
    ensures Fold(hash, [word]) == Mix(hash, word)
  {
    assert [word][1..] == [];
  }

  lemma FoldChunk(hash: bv64, bytes: seq<bv8>, start: nat)
    requires start + 8 <= |bytes|
    ensures Fold(hash, Words(bytes[start..]))
            == Fold(Mix(hash, LittleEndian(bytes[start..start + 8])), Words(bytes[start + 8..]))
  {
    assert bytes[start..][..8] == bytes[start..start + 8] && bytes[start..][8..] == bytes[start + 8..];
    var rest := Words(bytes[start + 8..]);
    assert ([LittleEndian(bytes[start..start + 8])] + rest)[1..] == rest;
  }

  class FxHasher {
    var hash: bv64

    constructor ()
      ensures hash == 0
    {
      hash := 0;
    }

    method Add(word: bv64)
      modifies this
      ensures hash == Mix(old(hash), word)
    {
      hash := TimesSeed(RotateLeft5(hash) ^ word);
    }

    /** Whole chunks of eight bytes, then the remainder in a zeroed word. */
    method Write(bytes: seq<bv8>)
      modifies this
      ensures hash == Fold(old(hash), Words(bytes))
    {
      var start := 0;
      while start + 8 <= |bytes|
        invariant 0 <= start <= |bytes|
        invariant Fold(hash, Words(bytes[start..])) == Fold(old(hash), Words(bytes))
      {
        FoldChunk(hash, bytes, start);
        Add(LittleEndian(bytes[start..start + 8]));
        start := start + 8;
      }
      var tail := bytes[start..];
      if |tail| > 0 {
        var word := TailWord(tail);
        assert Words(tail) == [word];
        FoldOne(hash, word);
        Add(word);
      }
    }

    /** The remainder, copied into eight zeroed bytes. */
    static method TailWord(tail: seq<bv8>) returns (word: bv64)
      requires |tail| < 8
      ensures word == LittleEndian(Padded(tail))
    {
      var padded := new bv8[8](_ => 0);
      for k := 0 to |tail|
        invariant forall j :: 0 <= j < 8 ==> padded[j] == if j < k then tail[j] else 0
      {
        padded[k] := tail[k];
      }
      assert padded[..] == Padded(tail);
      word := LittleEndian(padded[..]);
    }

    method WriteU64(v: bv64)
      modifies this
      ensures hash == Fold(old(hash), [v])
    {
      Add(v);
    }

    method Finish() returns (h: bv64)
      ensures h == hash
    {
      h := hash;
    }
  }

  // ---- One word -------------------------------------------------------------------------------------

  lemma XorCancels(a: bv64, b: bv64)
    ensures (a ^ b) ^ a == b && (a ^ b) ^ b == a
  {
  }

  lemma RotationsCancel(x: bv64)
    ensures RotateRight5(RotateLeft5(x)) == x
  {
  }

  lemma SeedCancels(hash: bv64, word: bv64)
    ensures DivideBySeed(Mix(hash, word)) == RotateLeft5(hash) ^ word
  {
  }

  /** From the mixed hash and either of what went in, the other can be computed back. */
  lemma MixIsReversible(hash: bv64, word: bv64)
    ensures WordMixed(Mix(hash, word), hash) == word
    ensures HashBefore(Mix(hash, word), word) == hash
  {
    SeedCancels(hash, word);
    XorCancels(RotateLeft5(hash), word);
    RotationsCancel(hash);
  }

  /** Injective modulo 2^64 in the word for a fixed hash, and in the hash for a fixed word. */
  lemma MixIsInjective(hash: bv64, word: bv64, hash': bv64, word': bv64)
    requires Mix(hash, word) == Mix(hash', word')
    ensures hash == hash' <==> word == word'
  {
    MixIsReversible(hash, word);
    MixIsReversible(hash', word');
  }

  // ---- Many words -----------------------------------------------------------------------------------

  lemma {:induction false} FoldConcat(hash: bv64, a: seq<bv64>, b: seq<bv64>)
    ensures Fold(hash, a + b) == Fold(Fold(hash, a), b)
    decreases |a|
  {
    if a == [] {
      assert a + b == b;
    } else {
      assert (a + b)[1..] == a[1..] + b;
      FoldConcat(Mix(hash, a[0]), a[1..], b);
    }
  }

  /** The same words from two different hashes end in two different hashes. */
  lemma {:induction false} FoldKeepsApart(hash: bv64, hash': bv64, words: seq<bv64>)
    requires hash != hash'
    ensures Fold(hash, words) != Fold(hash', words)
    decreases |words|
  {
    if words != [] {
      if Mix(hash, words[0]) == Mix(hash', words[0]) {
        MixIsInjective(hash, words[0], hash', words[0]);
      }
      FoldKeepsApart(Mix(hash, words[0]), Mix(hash', words[0]), words[1..]);
    }
  }

  /** Inputs of as many words that differ in exactly one word never share a hash. */
  lemma OneWordDecides(hash: bv64, a: seq<bv64>, b: seq<bv64>, k: nat)
    requires |a| == |b| && k < |a| && a[k] != b[k]
    requires forall j :: 0 <= j < |a| && j != k ==> a[j] == b[j]
    ensures Fold(hash, a) != Fold(hash, b)
  {
    var before, after := a[..k], a[k + 1..];
    assert a == before + ([a[k]] + after) && b == before + ([b[k]] + after);
    var h := Fold(hash, before);
    FoldConcat(hash, before, [a[k]] + after);
    FoldConcat(hash, before, [b[k]] + after);
    if Mix(h, a[k]) == Mix(h, b[k]) {
      MixIsInjective(h, a[k], h, b[k]);
    }
    FoldKeepsApart(Mix(h, a[k]), Mix(h, b[k]), after);
    assert ([a[k]] + after)[1..] == after && ([b[k]] + after)[1..] == after;
  }

  /** Two 64-bit keys never share a full hash. */
  lemma IntegerKeysNeverCollide(a: bv64, b: bv64)
    ensures Fold(0, [a]) == Fold(0, [b]) <==> a == b
  {
    if a != b {
      OneWordDecides(0, [a], [b], 0);
    }
  }

  // ---- Bytes ------------------------------------------------------------------------------------------

  lemma {:induction false} WordsConcat(a: seq<bv8>, b: seq<bv8>)
    requires |a| % 8 == 0
    ensures Words(a + b) == Words(a) + Words(b)
  {
    if a == [] {
      assert a + b == b;
    } else {
      assert (a + b)[..8] == a[..8] && (a + b)[8..] == a[8..] + b;
      WordsConcat(a[8..], b);
    }
  }

  /** Writing `a` and then `b` is writing `a` followed by `b`, when `a` ends on a word. */
  lemma WritesConcat(hash: bv64, a: seq<bv8>, b: seq<bv8>)
    requires |a| % 8 == 0
    ensures Fold(hash, Words(a + b)) == Fold(Fold(hash, Words(a)), Words(b))
  {
    WordsConcat(a, b);
    FoldConcat(hash, Words(a), Words(b));
  }

  lemma BytesAreTheInteger(v: bv64)
    ensures LittleEndian(LittleEndianBytes(v)) == v
  {
  }

  /** `write_u64` is `write` of the little-endian bytes. */
  lemma IntegersAreBytes(hash: bv64, v: bv64)
    ensures Fold(hash, Words(LittleEndianBytes(v))) == Fold(hash, [v])
  {
    var bytes := LittleEndianBytes(v);
    assert bytes[..8] == bytes && Words(bytes[8..]) == [];
    BytesAreTheInteger(v);
  }

  // ---- What the words say of the bytes ------------------------------------------------------------------

  /** Byte `k` of a word, the lowest first. */
  function ByteOf(word: bv64, k: nat): bv64 {
    match k
    case 0 => word & 0xff
    case 1 => (word >> 8) & 0xff
    case 2 => (word >> 16) & 0xff
    case 3 => (word >> 24) & 0xff
    case 4 => (word >> 32) & 0xff
    case 5 => (word >> 40) & 0xff
    case 6 => (word >> 48) & 0xff
    case _ => word >> 56
  }

  lemma LittleEndianBits(b: seq<bv8>)
    requires |b| == 8
    ensures var v := LittleEndian(b);
            && v & 0xff == b[0] as bv64 && (v >> 8) & 0xff == b[1] as bv64
            && (v >> 16) & 0xff == b[2] as bv64 && (v >> 24) & 0xff == b[3] as bv64
            && (v >> 32) & 0xff == b[4] as bv64 && (v >> 40) & 0xff == b[5] as bv64
            && (v >> 48) & 0xff == b[6] as bv64 && v >> 56 == b[7] as bv64
  {
  }

  lemma BytesByCases(v: bv64, b: seq<bv8>, k: nat)
    requires |b| == 8 && k < 8
    requires v & 0xff == b[0] as bv64 && (v >> 8) & 0xff == b[1] as bv64
    requires (v >> 16) & 0xff == b[2] as bv64 && (v >> 24) & 0xff == b[3] as bv64
    requires (v >> 32) & 0xff == b[4] as bv64 && (v >> 40) & 0xff == b[5] as bv64
    requires (v >> 48) & 0xff == b[6] as bv64 && v >> 56 == b[7] as bv64
    ensures ByteOf(v, k) == b[k] as bv64
  {
    match k
    case 0 => assert ByteOf(v, 0) == v & 0xff;
    case 1 => assert ByteOf(v, 1) == (v >> 8) & 0xff;
    case 2 => assert ByteOf(v, 2) == (v >> 16) & 0xff;
    case 3 => assert ByteOf(v, 3) == (v >> 24) & 0xff;
    case 4 => assert ByteOf(v, 4) == (v >> 32) & 0xff;
    case 5 => assert ByteOf(v, 5) == (v >> 40) & 0xff;
    case 6 => assert ByteOf(v, 6) == (v >> 48) & 0xff;
    case _ => assert ByteOf(v, 7) == v >> 56;
  }

  lemma LittleEndianByte(v: bv64, b: seq<bv8>, k: nat)
    requires |b| == 8 && k < 8 && v == LittleEndian(b)
    ensures ByteOf(v, k) == b[k] as bv64
  {
    LittleEndianBits(b);
    BytesByCases(v, b, k);
  }

  /** There are as many words as it takes to hold the bytes. */
  lemma {:induction false} WordsLength(bytes: seq<bv8>)
    ensures |Words(bytes)| == (|bytes| + 7) / 8
  {
    if |bytes| >= 8 {
      WordsLength(bytes[8..]);
    }
  }

  lemma FirstWordBytes(word: bv64, bytes: seq<bv8>, k: nat)
    requires 0 < |bytes| && k < 8
    requires word == LittleEndian(if |bytes| < 8 then Padded(bytes) else bytes[..8])
    ensures ByteOf(word, k) == if k < |bytes| then bytes[k] as bv64 else 0
  {
    var chunk := if |bytes| < 8 then Padded(bytes) else bytes[..8];
    LittleEndianByte(word, chunk, k);
    assert chunk[k] == if k < |bytes| then bytes[k] else 0;
  }

  /** Byte `k` of word `g`, low bytes first, is byte `8 * g + k` of the input, and zero behind its end. */
  lemma {:induction false} WordsHoldTheBytes(bytes: seq<bv8>, g: nat, k: nat)
    requires g < |Words(bytes)| && k < 8
    ensures ByteOf(Words(bytes)[g], k) == if 8 * g + k < |bytes| then bytes[8 * g + k] as bv64 else 0
    decreases |bytes|
  {
    if g == 0 {
      FirstWordBytes(Words(bytes)[0], bytes, k);
    } else {
      assert |bytes| >= 8;
      var rest := bytes[8..];
      assert Words(bytes)[g] == Words(rest)[g - 1];
      WordsHoldTheBytes(rest, g - 1, k);
    }
  }

  /** Two inputs agree in every byte but those of the eight that make up word `g`. */
  predicate DifferInGroup(a: seq<bv8>, b: seq<bv8>, g: nat) {
    && |a| == |b|
    && (forall k: nat :: k < |a| && k / 8 != g ==> a[k] == b[k])
    && (exists k: nat :: k < |a| && k / 8 == g && a[k] != b[k])
  }

  lemma SameBytesSameWord(v: bv64, w: bv64)
    requires forall k: nat :: k < 8 ==> ByteOf(v, k) == ByteOf(w, k)
    ensures v == w
  {
    assert ByteOf(v, 0) == ByteOf(w, 0) && ByteOf(v, 1) == ByteOf(w, 1) && ByteOf(v, 2) == ByteOf(w, 2);
    assert ByteOf(v, 3) == ByteOf(w, 3) && ByteOf(v, 4) == ByteOf(w, 4) && ByteOf(v, 5) == ByteOf(w, 5);
    assert ByteOf(v, 6) == ByteOf(w, 6) && ByteOf(v, 7) == ByteOf(w, 7);
  }

  lemma SameGroupSameByte(a: seq<bv8>, b: seq<bv8>, g: nat, k: nat)
    requires |a| == |b| && g < |Words(a)| == |Words(b)| && k < 8
    requires 8 * g + k < |a| ==> a[8 * g + k] == b[8 * g + k]
    ensures ByteOf(Words(a)[g], k) == ByteOf(Words(b)[g], k)
  {
    WordsHoldTheBytes(a, g, k);
    WordsHoldTheBytes(b, g, k);
  }

  lemma OtherByteOtherWord(a: seq<bv8>, b: seq<bv8>, g: nat, k: nat)
    requires g < |Words(a)| && g < |Words(b)| && k < 8
    requires 8 * g + k < |a| && 8 * g + k < |b| && a[8 * g + k] != b[8 * g + k]
    ensures Words(a)[g] != Words(b)[g]
  {
    WordsHoldTheBytes(a, g, k);
    WordsHoldTheBytes(b, g, k);
  }

  /** The words of two inputs are the same where their bytes are. */
  lemma SameGroupSameWord(a: seq<bv8>, b: seq<bv8>, g: nat)
    requires |a| == |b| && g < |Words(a)| == |Words(b)|
    requires forall k: nat :: k < |a| && k / 8 == g ==> a[k] == b[k]
    ensures Words(a)[g] == Words(b)[g]
  {
    var v, w := Words(a)[g], Words(b)[g];
    forall k: nat | k < 8 ensures ByteOf(v, k) == ByteOf(w, k) {
      SameGroupSameByte(a, b, g, k);
    }
    SameBytesSameWord(v, w);
  }

  /** Inputs of the same length that differ in the bytes of a single word never share a hash. */
  lemma OneGroupDecides(hash: bv64, a: seq<bv8>, b: seq<bv8>, g: nat)
    requires DifferInGroup(a, b, g)
    ensures Fold(hash, Words(a)) != Fold(hash, Words(b))
  {
    WordsLength(a);
    WordsLength(b);
    var k: nat :| k < |a| && k / 8 == g && a[k] != b[k];
    OtherByteOtherWord(a, b, g, k - 8 * g);
    forall j | 0 <= j < |Words(a)| && j != g ensures Words(a)[j] == Words(b)[j] {
      SameGroupSameWord(a, b, j);
    }
    OneWordDecides(hash, Words(a), Words(b), g);
  }

  /** So keys of up to eight bytes and of the same length never collide. */
  lemma ShortKeysNeverCollide(a: seq<bv8>, b: seq<bv8>)
    requires |a| == |b| <= 8
    ensures Fold(0, Words(a)) == Fold(0, Words(b)) <==> a == b
  {
    if a != b {
      var k: nat :| k < |a| && a[k] != b[k];
      assert k / 8 == 0;
      OneGroupDecides(0, a, b, 0);
    }
  }

  /** The rotation carries the five high bits round to the low end. */
  lemma RotationMovesBits(x: bv64)
    ensures RotateLeft5(x) >> 5 == x & 0x07ff_ffff_ffff_ffff
    ensures RotateLeft5(x) & 0x1f == x >> 59
  {
  }

  lemma ZeroRotated(word: bv64)
    ensures RotateLeft5(0) ^ word == word
  {
  }

  lemma MixMultiplies(hash: bv64, word: bv64, x: bv64)
    requires x == RotateLeft5(hash) ^ word
    ensures Mix(hash, word) == TimesSeed(x)
  {
  }

  lemma SeedTimes(word: bv64)
    ensures TimesSeed(word) == word * 0x517c_c1b7_2722_0a95
  {
  }

  /** What is mixed into the empty hash is multiplied by FX_SEED. */
  lemma FirstWord(word: bv64)
    ensures Fold(0, [word]) == word * 0x517c_c1b7_2722_0a95
  {
    FoldOne(0, word);
    ZeroRotated(word);
    MixMultiplies(0, word, word);
    SeedTimes(word);
  }
}
