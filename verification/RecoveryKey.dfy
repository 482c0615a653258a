/**
 The vault's recovery key: twenty bytes of entropy written as thirty-two
 Crockford base-32 characters, shown in groups, and read back from whatever a
 person typed (internal/domain/recovery_key.go).
 */
module RecoveryKey {
  import opened Basics

  const KEY_BYTES := 20
  const KEY_LENGTH := 32
  const GROUP_SIZE := 4
  const ALPHABET := "0123456789ABCDEFGHJKMNPQRSTVWXYZ"

  newtype byte = x: int | 0 <= x < 256

  // ----- encoding ---------------------------------------------------------------

  /** The big-endian number the bytes spell. */
  function FromBytes(bytes: seq<byte>): nat {
    if bytes == [] then 0
    else FromBytes(bytes[..|bytes| - 1]) * 256 + bytes[|bytes| - 1] as int
  }

  predicate InAlphabet(c: char) {
    '0' <= c <= '9' || ('A' <= c <= 'Z' && c != 'I' && c != 'L' && c != 'O' && c != 'U')
  }

  /** The five-bit value of one alphabet character: its position in ALPHABET. */
  function DigitValue(c: char): (v: nat)
    requires InAlphabet(c)
    ensures v < 32
  {
    if c <= '9' then (c - '0') as int
    else if c < 'I' then (c - 'A') as int + 10
    else if c < 'L' then (c - 'J') as int + 18
    else if c < 'O' then (c - 'M') as int + 20
    else if c < 'U' then (c - 'P') as int + 22
    else (c - 'V') as int + 27
  }

  lemma AlphabetAt(d: nat)
    requires d < 32
    ensures InAlphabet(ALPHABET[d]) && DigitValue(ALPHABET[d]) == d
  {
  }

  predicate Canonical(key: string) {
    forall i :: 0 <= i < |key| ==> InAlphabet(key[i])
  }

  /** The number a string of alphabet characters spells in base 32. */
  function FromDigits(key: string): nat
    requires Canonical(key)
  {
    if key == [] then 0
    else FromDigits(key[..|key| - 1]) * 32 + DigitValue(key[|key| - 1])
  }

  /** Adding a byte and discarding it again: what the shift by eight does to the spelled number. */
  lemma ShiftInByte(n: nat, b: nat, bits: nat)
    requires b < 256 && bits < 5
    ensures (n * 256 + b) / Pow2(bits + 8) == n / Pow2(bits)
  {
    PowTable();
    if bits == 0 { assert Pow2(bits + 8) == 256; }
    else if bits == 1 { assert Pow2(bits + 8) == 512; }
    else if bits == 2 { assert Pow2(bits + 8) == 1024; }
    else if bits == 3 { assert Pow2(bits + 8) == 2048; }
    else { assert Pow2(bits + 8) == 4096; }
  }

  lemma PowTable()
    ensures Pow2(0) == 1 && Pow2(1) == 2 && Pow2(2) == 4 && Pow2(3) == 8 && Pow2(4) == 16
    ensures Pow2(5) == 32 && Pow2(6) == 64 && Pow2(7) == 128 && Pow2(8) == 256
    ensures Pow2(9) == 512 && Pow2(10) == 1024 && Pow2(11) == 2048 && Pow2(12) == 4096
  {
    assert Pow2(2) == 2 * Pow2(1);
    assert Pow2(4) == 2 * Pow2(3);
    assert Pow2(6) == 2 * Pow2(5);
    assert Pow2(8) == 2 * Pow2(7);
    assert Pow2(10) == 2 * Pow2(9);
    assert Pow2(12) == 2 * Pow2(11);
  }

  lemma WrapStep(n: nat, b: nat)
    ensures ((n % 0x1_0000) * 256 + b) % 0x1_0000 == (n * 256 + b) % 0x1_0000
  {
  }

  lemma DivMod(n: nat, p: nat)
    requires p > 0
    ensures n == p * (n / p) + n % p && n % p < p
  {
  }

  lemma Multiples(p: int, d: int)
    requires p >= 0
    ensures d >= 1 ==> p * d >= p
    ensures d <= -1 ==> p * d <= -p
  {
  }

  lemma Difference(p: int, a: int, b: int)
    ensures p * (a - b) == p * a - p * b
  {
  }

  /** A quotient is known by its remainder. */
  lemma QuotientIs(n: nat, p: nat, q: nat, r: nat)
    requires n == p * q + r && r < p
    ensures n / p == q
  {
    DivMod(n, p);
    Difference(p, q, n / p);
    Multiples(p, q - n / p);
  }

  lemma Spread(p: int, k: int, h: int, q: int, r: int)
    ensures (p * (32 * k)) * h + (p * q + r) == p * (32 * (k * h) + q) + r
  {
  }

  lemma Nested(p: int, a: int, b: int, r: int)
    ensures p * (32 * a + b) + r == (p * 32) * a + (p * b + r)
  {
  }

  lemma BelowNext(p: nat, b: nat, r: nat)
    requires b < 32 && r < p
    ensures p * b + r < p * 32
  {
    Difference(p, 31, b);
  }

  lemma DivideTwice(n: nat, p: nat)
    requires p > 0
    ensures n / (p * 32) == (n / p) / 32
  {
    var q, r := n / p, n % p;
    var a, b := q / 32, q % 32;
    DivMod(n, p);
    Nested(p, a, b, r);
    BelowNext(p, b, r);
    QuotientIs(n, p * 32, a, p * b + r);
  }

  lemma SameDigit(m: int, q: int)
    ensures (32 * m + q) % 32 == q % 32
  {
  }

  lemma WrapKeepsDigit(n: nat, p: nat, k: nat)
    requires p > 0 && p * (32 * k) == 0x1_0000
    ensures ((n % 0x1_0000) / p) % 32 == (n / p) % 32
  {
    var h, low := n / 0x1_0000, n % 0x1_0000;
    var q, r := low / p, low % p;
    DivMod(low, p);
    WholeQuotient(n, p, k, h, q, r);
    SameDigit(k * h, q);
  }

  lemma WholeQuotient(n: nat, p: nat, k: nat, h: nat, q: nat, r: nat)
    requires p * (32 * k) == 0x1_0000 && n == 0x1_0000 * h + (p * q + r) && r < p
    ensures n / p == 32 * (k * h) + q
  {
    Spread(p, k, h, q, r);
    QuotientIs(n, p, 32 * (k * h) + q, r);
  }

  /**
   The digit taken from the sixteen-bit accumulator is the digit of the whole
   number: what the wrap-around lost lies above the five bits that are read.
   */
  lemma NextDigit(n: nat, bits: nat)
    requires bits < 8
    ensures ((n % 0x1_0000) / Pow2(bits)) % 32 == (n / Pow2(bits)) % 32
    ensures n / Pow2(bits) == (n / Pow2(bits + 5)) * 32 + (n / Pow2(bits)) % 32
  {
    PowTable();
    assert Pow2(bits + 5) == Pow2(bits) * 32;
    DivideTwice(n, Pow2(bits));
    WrapKeepsDigit(n, Pow2(bits), Pow2(11 - bits));
  }

  lemma AppendDigit(key: string, digit: nat)
    requires Canonical(key) && digit < 32
    ensures Canonical(key + [ALPHABET[digit]])
    ensures FromDigits(key + [ALPHABET[digit]]) == FromDigits(key) * 32 + digit
  {
    var longer := key + [ALPHABET[digit]];
    assert longer[..|longer| - 1] == key;
    AlphabetAt(digit);
  }

  lemma AppendByte(bytes: seq<byte>, i: nat)
    requires i < |bytes|
    ensures FromBytes(bytes[..i + 1]) == FromBytes(bytes[..i]) * 256 + bytes[i] as int
  {
    assert bytes[..i + 1][..i] == bytes[..i];
  }

  /** One turn of the inner loop: the next character takes the next digit of the whole number. */
  lemma DrainDigit(key: string, n: nat, bits: nat)
    requires bits < 8 && Canonical(key) && FromDigits(key) == n / Pow2(bits + 5)
    ensures var digit := ((n % 0x1_0000) / Pow2(bits)) % 32;
            var longer := key + [ALPHABET[digit]];
            Canonical(longer) && FromDigits(longer) == n / Pow2(bits)
  {
    NextDigit(n, bits);
    AppendDigit(key, ((n % 0x1_0000) / Pow2(bits)) % 32);
  }

  /** One byte shifted into the register: low bits exact, digits already out unaffected. */
  lemma TakeByte(entropy: seq<byte>, i: nat, bits: nat, acc: nat)
    requires i < |entropy| && bits < 5 && acc == FromBytes(entropy[..i]) % 0x1_0000
    ensures FromBytes(entropy[..i + 1]) / Pow2(bits + 8) == FromBytes(entropy[..i]) / Pow2(bits)
    ensures (acc * 256 + entropy[i] as int) % 0x1_0000 == FromBytes(entropy[..i + 1]) % 0x1_0000
  {
    var n, b := FromBytes(entropy[..i]), entropy[i] as int;
    AppendByte(entropy, i);
    WrapStep(n, b);
    ShiftInByte(n, b, bits);
  }

  /** The inner loop: whole digits leave the register while it holds five bits or more. */
  method Drain(start: string, acc: nat, held: nat, ghost n: nat) returns (key: string, bits: nat)
    requires held < 13 && Canonical(start) && acc == n % 0x1_0000 && FromDigits(start) == n / Pow2(held)
    ensures bits < 5 && Canonical(key) && |key| * 5 + bits == |start| * 5 + held
    ensures FromDigits(key) == n / Pow2(bits)
  {
    key, bits := start, held;
    while bits >= 5
      invariant bits < 13 && Canonical(key)
      invariant |key| * 5 + bits == |start| * 5 + held
      invariant FromDigits(key) == n / Pow2(bits)
    {
      bits := bits - 5;
      var digit := (acc / Pow2(bits)) % 32;
      DrainDigit(key, n, bits);
      key := key + [ALPHABET[digit]];
    }
  }

  /**
   The accumulator loop. The sixteen-bit register overflows on every byte after
   the second; the key is nevertheless exactly the base-32 numeral of the
   160-bit number the entropy spells.
   */
  method EncodeRecoveryKey(entropy: seq<byte>) returns (key: string)
    ensures |entropy| != KEY_BYTES ==> key == ""
    ensures |entropy| == KEY_BYTES ==> |key| == KEY_LENGTH && Canonical(key)
    ensures |entropy| == KEY_BYTES ==> FromDigits(key) == FromBytes(entropy)
  {
    if |entropy| != KEY_BYTES {
      return "";
    }
    key := [];
    var acc, bits: nat := 0, 0;
    for i := 0 to |entropy|
      invariant bits < 5 && Canonical(key)
      invariant |key| * 5 + bits == i * 8
      invariant acc == FromBytes(entropy[..i]) % 0x1_0000
      invariant FromDigits(key) == FromBytes(entropy[..i]) / Pow2(bits)
    {
      ghost var n := FromBytes(entropy[..i + 1]);
      TakeByte(entropy, i, bits, acc);
      acc := (acc * 256 + entropy[i] as int) % 0x1_0000;
      bits := bits + 8;
      key, bits := Drain(key, acc, bits, n);
    }
    assert entropy[..|entropy|] == entropy;
    assert bits == 0;
  }

  // ----- injectivity --------------------------------------------------------------

  lemma DigitValueInjective(c: char, d: char)
    requires InAlphabet(c) && InAlphabet(d) && DigitValue(c) == DigitValue(d)
    ensures c == d
  {
  }

  lemma LastDigitIs(m: nat, d: nat, n: nat, e: nat)
    requires d < 32 && e < 32 && m * 32 + d == n * 32 + e
    ensures m == n && d == e
  {
  }

  lemma {:induction false} DigitsInjective(a: string, b: string)
    requires Canonical(a) && Canonical(b) && |a| == |b| && FromDigits(a) == FromDigits(b)
    ensures a == b
    decreases |a|
  {
    if a != [] {
      var m := |a| - 1;
      LastDigitIs(FromDigits(a[..m]), DigitValue(a[m]), FromDigits(b[..m]), DigitValue(b[m]));
      DigitValueInjective(a[m], b[m]);
      DigitsInjective(a[..m], b[..m]);
      assert a == a[..m] + [a[m]] && b == b[..m] + [b[m]];
    }
  }

  lemma {:induction false} BytesInjective(a: seq<byte>, b: seq<byte>)
    requires |a| == |b| && FromBytes(a) == FromBytes(b)
    ensures a == b
    decreases |a|
  {
    if a != [] {
      var m := |a| - 1;
      assert a[m] == b[m] && FromBytes(a[..m]) == FromBytes(b[..m]);
      BytesInjective(a[..m], b[..m]);
      assert a == a[..m] + [a[m]] && b == b[..m] + [b[m]];
    }
  }

  /** What EncodeRecoveryKey promises, as a relation between entropy and key. */
  ghost predicate Encodes(key: string, entropy: seq<byte>) {
    && |entropy| == KEY_BYTES && |key| == KEY_LENGTH && Canonical(key)
    && FromDigits(key) == FromBytes(entropy)
  }

  /** Encoding is a function and it is one-to-one: a key determines its entropy and back. */
  lemma EncodingIsBijective(key: string, key': string, entropy: seq<byte>, entropy': seq<byte>)
    requires Encodes(key, entropy) && Encodes(key', entropy')
    ensures key == key' <==> entropy == entropy'
  {
    if key == key' {
      BytesInjective(entropy, entropy');
    }
    if entropy == entropy' {
      DigitsInjective(key, key');
    }
  }

  // ----- reading a typed key ---------------------------------------------------------

  /** What is discarded between characters: the display dashes and pasted white space. */
  predicate Separator(c: char) {
    c == '-' || c == ' ' || c == '\t' || c == '\n' || c == '\r'
  }

  /**
   strings.ToUpper, rune by rune. Besides the ASCII letters exactly two runes
   have an ASCII upper case: dotless i (U+0131) and long s (U+017F). Any other
   rune stays outside the alphabet, whatever it is mapped to.
   */
  function Upper(c: char): char {
    if 'a' <= c <= 'z' then c - 'a' + 'A'
    else if c == '\U{131}' then 'I'
    else if c == '\U{17F}' then 'S'
    else c
  }

  function Fold(c: char): char {
    if c == 'O' then '0' else if c == 'I' || c == 'L' then '1' else c
  }

  /** Everything a person may write for the alphabet character k. */
  predicate LooksLike(c: char, k: char) {
    && InAlphabet(k)
    && (|| c == k
        || ('A' <= k && c == k - 'A' + 'a')
        || (k == '0' && (c == 'O' || c == 'o'))
        || (k == '1' && (c == 'I' || c == 'i' || c == 'L' || c == 'l' || c == '\U{131}'))
        || (k == 'S' && c == '\U{17F}'))
  }

  lemma FoldingMeansLooking(c: char, k: char)
    requires !Separator(c)
    ensures InAlphabet(k) && Fold(Upper(c)) == k <==> LooksLike(c, k)
  {
  }

  /** typed is key, with separators anywhere and any look-alike for each character. */
  predicate Spells(typed: string, key: string) {
    if typed == [] then key == []
    else
      var n := |typed| - 1;
      if Separator(typed[n]) then Spells(typed[..n], key)
      else key != [] && LooksLike(typed[n], key[|key| - 1]) && Spells(typed[..n], key[..|key| - 1])
  }

  /** A typed string spells at most one key. */
  lemma {:induction false} SpellsOneKey(typed: string, key: string, key': string)
    requires Spells(typed, key) && Spells(typed, key')
    ensures key == key'
    decreases |typed|
  {
    if typed != [] {
      var n := |typed| - 1;
      if Separator(typed[n]) {
        SpellsOneKey(typed[..n], key, key');
      } else {
        var m, m' := |key| - 1, |key'| - 1;
        SpellsOneKey(typed[..n], key[..m], key'[..m']);
        FoldingMeansLooking(typed[n], key[m]);
        FoldingMeansLooking(typed[n], key'[m']);
        assert key == key[..m] + [key[m]] && key' == key'[..m'] + [key'[m']];
      }
    }
  }

  /** If the whole spells a key, every beginning of it spells a beginning of that key. */
  lemma {:induction false} BeginningSpells(typed: string, key: string, i: nat) returns (j: nat)
    requires Spells(typed, key) && i <= |typed|
    ensures j <= |key| && Spells(typed[..i], key[..j])
    decreases |typed|
  {
    if i == |typed| {
      assert typed[..i] == typed && key[..|key|] == key;
      return |key|;
    }
    var n := |typed| - 1;
    assert typed[..n][..i] == typed[..i];
    if Separator(typed[n]) {
      j := BeginningSpells(typed[..n], key, i);
    } else {
      j := BeginningSpells(typed[..n], key[..|key| - 1], i);
      assert key[..|key| - 1][..j] == key[..j];
    }
  }

  /** Succeeds exactly on the spellings of a key of the right length, and returns that key. */
  method NormalizeRecoveryKey(input: string) returns (r: Option<string>)
    ensures r.Some? ==> |r.value| == KEY_LENGTH && Canonical(r.value) && Spells(input, r.value)
    ensures r.None? ==> forall key :: Spells(input, key) ==> |key| != KEY_LENGTH
  {
    var key := [];
    for i := 0 to |input|
      invariant Canonical(key) && Spells(input[..i], key)
    {
      var r := Upper(input[i]);
      assert input[..i + 1][..i] == input[..i];
      if !Separator(r) {
        var folded := Fold(r);
        FoldingMeansLooking(input[i], folded);
        if !InAlphabet(folded) {
          forall full
            ensures !Spells(input, full)
          {
            RefusedSpellsNothing(input, i, full);
          }
          return None;
        }
        assert (key + [folded])[..|key|] == key;
        key := key + [folded];
      }
    }
    assert input[..|input|] == input;
    if |key| != KEY_LENGTH {
      forall full | Spells(input, full)
        ensures |full| != KEY_LENGTH
      {
        SpellsOneKey(input, key, full);
      }
      return None;
    }
    return Some(key);
  }

  lemma RefusedSpellsNothing(input: string, i: nat, key: string)
    requires i < |input| && !Separator(input[i]) && !InAlphabet(Fold(Upper(input[i])))
    ensures !Spells(input, key)
  {
    if Spells(input, key) {
      var j := BeginningSpells(input, key, i + 1);
      var k := key[..j];
      FoldingMeansLooking(input[..i + 1][i], k[|k| - 1]);
      assert false;
    }
  }

  lemma {:induction false} CanonicalSpellsItself(key: string)
    requires Canonical(key)
    ensures Spells(key, key)
    decreases |key|
  {
    if key != [] {
      CanonicalSpellsItself(key[..|key| - 1]);
    }
  }

  /** Regrouping: a separator may be put in or taken out anywhere. */
  lemma {:induction false} RegroupingIsFree(a: string, b: string, c: char, key: string)
    requires Separator(c)
    ensures Spells(a + [c] + b, key) <==> Spells(a + b, key)
    decreases |b|
  {
    if b == [] {
      assert a + [c] + b == a + [c] && (a + [c])[..|a|] == a && a + b == a;
    } else {
      var n := |b| - 1;
      assert (a + [c] + b)[..|a| + 1 + n] == a + [c] + b[..n];
      assert (a + b)[..|a| + n] == a + b[..n];
      RegroupingIsFree(a, b[..n], c, key);
      if key != [] {
        RegroupingIsFree(a, b[..n], c, key[..|key| - 1]);
      }
    }
  }

  /** The grouped form shown to the user reads back as the key; anything else is left alone. */
  method FormatRecoveryKey(key: string) returns (shown: string)
    ensures |key| != KEY_LENGTH ==> shown == key
    ensures |key| == KEY_LENGTH && Canonical(key) ==> Spells(shown, key)
    ensures |key| == KEY_LENGTH ==> |shown| == KEY_LENGTH + KEY_LENGTH / GROUP_SIZE - 1
  {
    if |key| != KEY_LENGTH {
      return key;
    }
    shown := [];
    var i := 0;
    while i < KEY_LENGTH
      invariant 0 <= i <= KEY_LENGTH && i % GROUP_SIZE == 0
      invariant |shown| == i + if i == 0 then 0 else i / GROUP_SIZE - 1
      invariant Canonical(key) ==> Spells(shown, key[..i])
    {
      if i > 0 {
        assert (shown + ['-'])[..|shown|] == shown;
        shown := shown + ['-'];
      }
      if Canonical(key) {
        AppendSpelled(shown, key[..i], key[i..i + GROUP_SIZE]);
        assert key[..i] + key[i..i + GROUP_SIZE] == key[..i + GROUP_SIZE];
      }
      shown := shown + key[i..i + GROUP_SIZE];
      i := i + GROUP_SIZE;
    }
    assert key[..KEY_LENGTH] == key;
  }

  lemma {:induction false} AppendSpelled(typed: string, key: string, more: string)
    requires Spells(typed, key) && Canonical(more)
    ensures Spells(typed + more, key + more)
    decreases |more|
  {
    if more == [] {
      assert typed + more == typed && key + more == key;
    } else {
      var n := |more| - 1;
      AppendSpelled(typed, key, more[..n]);
      assert (typed + more)[..|typed| + n] == typed + more[..n];
      assert (key + more)[..|key| + n] == key + more[..n];
    }
  }

  /** Encode, show, and type back in any spelling: the entropy is recovered. */
  lemma TypedKeyDeterminesEntropy(key: string, key': string, entropy: seq<byte>, entropy': seq<byte>, typed: string)
    requires Encodes(key, entropy) && Encodes(key', entropy')
    requires Spells(typed, key) && Spells(typed, key')
    ensures entropy == entropy' && key == key'
  {
    SpellsOneKey(typed, key, key');
    EncodingIsBijective(key, key', entropy, entropy');
  }
}
