/** PBKDF2 with HMAC-SHA-256 (section 5.2 of RFC 8018) and the text a password hash is stored as. */
module Passwords {
  import opened Base64
  import opened Text

  type Block = b: Bytes | |b| == 32 witness seq(32, _ => 0)

  /** HMAC-SHA-256: key and message to a block. */
  type Prf = (Bytes, Bytes) -> Block

  function Xor(a: Byte, b: Byte): Byte {
    ((a as bv8) ^ (b as bv8)) as int
  }

  function XorBlocks(a: Block, b: Block): Block {
    seq(32, k requires 0 <= k < 32 => Xor(a[k], b[k]))
  }

  // ---- RFC 8018: the key is the first keyLen bytes of T_1 || T_2 || ... ----

  /** INT (i): four bytes, most significant first, of the low 32 bits. */
  function Int(i: nat): Bytes {
    [i / 0x100_0000 % 0x100, i / 0x1_0000 % 0x100, i / 0x100 % 0x100, i % 0x100]
  }

  function U(hmac: Prf, password: Bytes, salt: Bytes, i: nat, j: nat): Block
    requires j >= 1
  {
    if j == 1 then hmac(password, salt + Int(i)) else hmac(password, U(hmac, password, salt, i, j - 1))
  }

  /** T_i = U_1 xor ... xor U_c */
  function T(hmac: Prf, password: Bytes, salt: Bytes, i: nat, c: nat): Block
    requires c >= 1
  {
    if c == 1 then U(hmac, password, salt, i, 1)
    else XorBlocks(T(hmac, password, salt, i, c - 1), U(hmac, password, salt, i, c))
  }

  function Blocks(hmac: Prf, password: Bytes, salt: Bytes, c: nat, n: nat): (b: Bytes)
    requires c >= 1
    ensures |b| == 32 * n
  {
    if n == 0 then [] else Blocks(hmac, password, salt, c, n - 1) + T(hmac, password, salt, n, c)
  }

  /** An iteration count below one counts as one. */
  function DerivedKey(hmac: Prf, password: Bytes, salt: Bytes, iter: int, keyLen: nat): (key: Bytes)
    ensures |key| == keyLen
  {
    Blocks(hmac, password, salt, if iter < 1 then 1 else iter, (keyLen + 31) / 32)[..keyLen]
  }

  lemma FirstBlock(hmac: Prf, password: Bytes, salt: Bytes, i: nat)
    ensures U(hmac, password, salt, i, 1) == T(hmac, password, salt, i, 1) == hmac(password, salt + Int(i))
  {
  }

  lemma NextBlock(hmac: Prf, password: Bytes, salt: Bytes, i: nat, c: nat)
    requires c > 1
    ensures U(hmac, password, salt, i, c) == hmac(password, U(hmac, password, salt, i, c - 1))
    ensures T(hmac, password, salt, i, c) == XorBlocks(T(hmac, password, salt, i, c - 1), U(hmac, password, salt, i, c))
  {
  }

  // ---- the implementation ----

  method Pbkdf2Sha256(hmac: Prf, password: Bytes, salt: Bytes, iter: int, keyLen: nat) returns (out: Bytes)
    ensures out == DerivedKey(hmac, password, salt, iter, keyLen)
  {
    hide T;
    var numBlocks := (keyLen + 31) / 32;
    ghost var c := if iter < 1 then 1 else iter;
    out := [];
    for block := 1 to numBlocks + 1
      invariant out == Blocks(hmac, password, salt, c, block - 1)
    {
      var t := OneBlock(hmac, password, salt, iter, block);
      out := out + t;
    }
    out := out[..keyLen];
  }

  /** The body of the outer loop: t is folded in place. */
  method OneBlock(hmac: Prf, password: Bytes, salt: Bytes, iter: int, block: nat) returns (r: Bytes)
    requires block >= 1
    ensures r == T(hmac, password, salt, block, if iter < 1 then 1 else iter)
  {
    hide U, T, Int, XorBlocks;
    var u := hmac(password, salt + Int(block));
    FirstBlock(hmac, password, salt, block);
    var t := new Byte[32](k requires 0 <= k < 32 => u[k]);
    assert t[..] == u;
    var i := 1;
    while i < iter
      invariant 1 <= i <= if iter < 1 then 1 else iter
      invariant u == U(hmac, password, salt, block, i)
      invariant t[..] == T(hmac, password, salt, block, i)
    {
      NextBlock(hmac, password, salt, block, i + 1);
      u := hmac(password, u);
      XorInto(t, u);
      i := i + 1;
    }
    r := t[..];
  }

  method XorInto(t: array<Byte>, u: Block)
    requires t.Length == 32
    modifies t
    ensures t[..] == XorBlocks(old(t[..]), u)
  {
    hide Xor;
    for j := 0 to 32
      invariant forall k :: 0 <= k < j ==> t[k] == Xor(old(t[k]), u[k])
      invariant forall k :: j <= k < 32 ==> t[k] == old(t[k])
    {
      t[j] := Xor(t[j], u[j]);
    }
  }

  // ---- what the key is ----

  /** mask is one of 1, 2, 4, ..., 0x80. */
  predicate OneBit(mask: bv8) {
    mask != 0 && mask & (mask - 1) == 0
  }

  function Bits(b: Byte): bv8 {
    b as bv8
  }

  predicate Has(b: bv8, mask: bv8) {
    b & mask != 0
  }

  predicate BitSet(b: Byte, mask: bv8) {
    Has(Bits(b), mask)
  }

  lemma XorBit(a: bv8, b: bv8, mask: bv8)
    requires OneBit(mask)
    ensures Has(a ^ b, mask) <==> Has(a, mask) != Has(b, mask)
  {
  }

  lemma XorAsBits(a: Byte, b: Byte)
    ensures Bits(Xor(a, b)) == Bits(a) ^ Bits(b)
  {
  }

  /** A bit of the exclusive or is set exactly if it is set in one of the two. */
  lemma XorSets(a: Byte, b: Byte, mask: bv8)
    requires OneBit(mask)
    ensures BitSet(Xor(a, b), mask) <==> BitSet(a, mask) != BitSet(b, mask)
  {
    hide Xor, OneBit, Bits, Has;
    XorAsBits(a, b);
    XorBit(Bits(a), Bits(b), mask);
  }

  /** In how many of U_1 ... U_c this bit of byte k is set. */
  function TimesSet(hmac: Prf, password: Bytes, salt: Bytes, i: nat, c: nat, k: nat, mask: bv8): nat
    requires k < 32
  {
    if c == 0 then 0
    else TimesSet(hmac, password, salt, i, c - 1, k, mask) +
         if BitSet(U(hmac, password, salt, i, c)[k], mask) then 1 else 0
  }

  /** A bit of T_i is set exactly if it is set in an odd number of U_1 ... U_c. */
  lemma {:induction false} BlockIsParity(hmac: Prf, password: Bytes, salt: Bytes, i: nat, c: nat, k: nat, mask: bv8)
    requires c >= 1 && k < 32 && OneBit(mask)
    ensures BitSet(T(hmac, password, salt, i, c)[k], mask) <==> TimesSet(hmac, password, salt, i, c, k, mask) % 2 == 1
  {
    hide BitSet, OneBit, Xor, U;
    if c > 1 {
      BlockIsParity(hmac, password, salt, i, c - 1, k, mask);
      XorSets(T(hmac, password, salt, i, c - 1)[k], U(hmac, password, salt, i, c)[k], mask);
    } else {
      assert TimesSet(hmac, password, salt, i, 0, k, mask) == 0;
    }
  }

  /** After one iteration the first block is the HMAC of the salt and a one; each further iteration takes the HMAC
      of the last and folds it in. */
  lemma FirstIterations(hmac: Prf, password: Bytes, salt: Bytes, k: nat)
    requires k < 32
    ensures var first := hmac(password, salt + [0, 0, 0, 1]);
      var second := hmac(password, first);
      var third := hmac(password, second);
      && DerivedKey(hmac, password, salt, 1, 32)[k] == first[k]
      && DerivedKey(hmac, password, salt, 2, 32)[k] == Xor(first[k], second[k])
      && DerivedKey(hmac, password, salt, 3, 32)[k] == Xor(Xor(first[k], second[k]), third[k])
  {
    hide Xor, XorBlocks, DerivedKey, T, U, Int;
    KeyByte(hmac, password, salt, 1, 32, k);
    KeyByte(hmac, password, salt, 2, 32, k);
    KeyByte(hmac, password, salt, 3, 32, k);
    IntOfOne();
    FirstBlock(hmac, password, salt, 1);
    NextBlock(hmac, password, salt, 1, 2);
    NextBlock(hmac, password, salt, 1, 3);
    var first := hmac(password, salt + [0, 0, 0, 1]);
    var second := hmac(password, first);
    XorAt(first, second, k);
    XorAt(XorBlocks(first, second), hmac(password, second), k);
  }

  lemma IntOfOne()
    ensures Int(1) == [0, 0, 0, 1]
  {
  }

  lemma XorAt(a: Block, b: Block, k: nat)
    requires k < 32
    ensures XorBlocks(a, b)[k] == Xor(a[k], b[k])
  {
  }

  /** Byte k of the key is byte k mod 32 of block k / 32 + 1, whatever the length asked for. */
  lemma KeyByte(hmac: Prf, password: Bytes, salt: Bytes, iter: int, keyLen: nat, k: nat)
    requires k < keyLen
    ensures DerivedKey(hmac, password, salt, iter, keyLen)[k]
         == T(hmac, password, salt, k / 32 + 1, if iter < 1 then 1 else iter)[k % 32]
  {
    BlocksByte(hmac, password, salt, if iter < 1 then 1 else iter, (keyLen + 31) / 32, k);
  }

  lemma {:induction false} BlocksByte(hmac: Prf, password: Bytes, salt: Bytes, c: nat, n: nat, k: nat)
    requires c >= 1 && k < 32 * n
    ensures Blocks(hmac, password, salt, c, n)[k] == T(hmac, password, salt, k / 32 + 1, c)[k % 32]
  {
    hide T;
    if k < 32 * (n - 1) {
      BlocksByte(hmac, password, salt, c, n - 1, k);
    } else {
      assert k / 32 == n - 1 && k % 32 == k - 32 * (n - 1);
    }
  }

  /** A shorter key is the beginning of a longer one. */
  lemma ShorterKeyIsPrefix(hmac: Prf, password: Bytes, salt: Bytes, iter: int, m: nat, n: nat)
    requires m <= n
    ensures DerivedKey(hmac, password, salt, iter, m) == DerivedKey(hmac, password, salt, iter, n)[..m]
  {
    hide DerivedKey, T;
    forall k | 0 <= k < m
      ensures DerivedKey(hmac, password, salt, iter, m)[k] == DerivedKey(hmac, password, salt, iter, n)[k]
    {
      KeyByte(hmac, password, salt, iter, m, k);
      KeyByte(hmac, password, salt, iter, n, k);
    }
  }

  function BigEndian(b: Bytes): nat {
    if b == [] then 0 else BigEndian(b[..|b| - 1]) * 0x100 + b[|b| - 1]
  }

  lemma BigEndianOfFour(b: Bytes)
    requires |b| == 4
    ensures BigEndian(b) == (b[0] as int) * 0x100_0000 + (b[1] as int) * 0x1_0000 + (b[2] as int) * 0x100 + b[3]
  {
    assert b[..3][..2] == b[..2] && b[..2][..1] == b[..1] && b[..1][..0] == [];
    assert BigEndian(b[..1]) == b[0];
    assert BigEndian(b[..2]) == BigEndian(b[..1]) * 0x100 + b[1];
    assert BigEndian(b[..3]) == BigEndian(b[..2]) * 0x100 + b[2];
    assert BigEndian(b) == BigEndian(b[..3]) * 0x100 + b[3];
  }

  lemma DivideTwice(i: nat)
    ensures i / 0x1_0000 == i / 0x100 / 0x100 && i / 0x100_0000 == i / 0x1_0000 / 0x100
  {
  }

  /** INT is the block number exactly while it fits 32 bits. */
  lemma IntIsBlockNumberIff(i: nat)
    ensures BigEndian(Int(i)) == i <==> i < 0x1_0000_0000
  {
    hide BigEndian;
    BigEndianOfFour(Int(i));
    DivideTwice(i);
    var top := i / 0x100_0000;
    assert i == top * 0x100_0000 + Int(i)[1] * 0x1_0000 + Int(i)[2] * 0x100 + Int(i)[3];
  }

  // ---- stored password hashes ----

  /** The digits at the head of s. */
  function LeadingDigits(s: string): string {
    if s != [] && '0' <= s[0] <= '9' then [s[0]] + LeadingDigits(s[1..]) else ""
  }

  function DecimalValue(digits: string): nat
    requires forall i :: 0 <= i < |digits| ==> '0' <= digits[i] <= '9'
  {
    if digits == [] then 0
    else DecimalValue(digits[..|digits| - 1]) * 10 + (digits[|digits| - 1] as int - '0' as int)
  }

  lemma {:induction false} LeadingDigitsAreDigits(s: string)
    ensures forall i :: 0 <= i < |LeadingDigits(s)| ==> '0' <= LeadingDigits(s)[i] <= '9'
  {
    if s != [] && '0' <= s[0] <= '9' {
      LeadingDigitsAreDigits(s[1..]);
    }
  }

  /** fmt.Sscanf(s, "%d", &n): blanks, a sign, digits; what follows is not looked at. */
  function ScanInt(s: string): Option<int> {
    if s == [] || s[0] == '\n' then None
    else if IsSpace(s[0]) then ScanInt(s[1..])
    else
      var digits := LeadingDigits(if s[0] == '+' || s[0] == '-' then s[1..] else s);
      LeadingDigitsAreDigits(if s[0] == '+' || s[0] == '-' then s[1..] else s);
      var n: int := if s[0] == '-' then 0 - DecimalValue(digits) else DecimalValue(digits);
      if digits == [] || !(-0x8000_0000_0000_0000 <= n < 0x8000_0000_0000_0000) then None else Some(n)
  }

  const ITERATIONS := 120000

  /** passwordHash; random is what the system's source of randomness gave */
  function PasswordHash(hmac: Prf, password: string, random: Bytes): string {
    var salt := Encode(random);
    "pbkdf2-sha256" + "$" + ("120000" + "$" + (salt + "$" +
      Encode(DerivedKey(hmac, Utf8(password), Utf8(salt), ITERATIONS, 32))))
  }

  predicate VerifyPassword(hmac: Prf, password: string, encoded: string) {
    var parts := Split(encoded, "$");
    && |parts| == 4 && parts[0] == "pbkdf2-sha256"
    && var iterations := ScanInt(parts[1]);
    && iterations.Some? && iterations.value >= 10000
    && var want := Decode(parts[3]);
    && want.Some?
    && DerivedKey(hmac, Utf8(password), Utf8(parts[2]), iterations.value, |want.value|) == want.value
  }

  lemma NoCut(c: char, s: string)
    requires c != '$'
    ensures !("$" <= [c] + s)
  {
    assert ([c] + s)[0] == c && "$"[0] == '$';
  }

  lemma {:induction false} SplitFirst(a: string, rest: string)
    requires '$' !in a
    ensures Split(a + "$" + rest, "$") == [a] + Split(rest, "$")
  {
    hide Split;
    if a == [] {
      SplitCut(rest, "$");
      assert a + "$" + rest == "$" + rest;
    } else {
      var tail := a[1..] + "$" + rest;
      assert a + "$" + rest == [a[0]] + tail;
      SplitFirst(a[1..], rest);
      NoCut(a[0], tail);
      SplitSkip(a[0], tail, "$");
      assert [a[0]] + a[1..] == a;
    }
  }

  lemma {:induction false} SplitNone(a: string)
    requires '$' !in a
    ensures Split(a, "$") == [a]
  {
    if a != [] {
      SplitNone(a[1..]);
      NoCut(a[0], a[1..]);
      SplitSkip(a[0], a[1..], "$");
      assert [a[0]] + a[1..] == a;
    }
  }

  lemma EncodedIsBare(b: Bytes)
    ensures '$' !in Encode(b)
  {
    assert Value('$').None?;
  }

  lemma OneMoreDigit(s: string, k: nat)
    requires k < |s| && forall i :: 0 <= i < |s| ==> '0' <= s[i] <= '9'
    ensures DecimalValue(s[..k + 1]) == DecimalValue(s[..k]) * 10 + (s[k] as int - '0' as int)
  {
    assert s[..k + 1][..k] == s[..k];
  }

  lemma {:induction false} AllLeading(s: string)
    requires forall i :: 0 <= i < |s| ==> '0' <= s[i] <= '9'
    ensures LeadingDigits(s) == s
  {
    if s != [] {
      AllLeading(s[1..]);
    }
  }

  lemma ScansIterations()
    ensures ScanInt("120000") == Some(ITERATIONS)
  {
    hide LeadingDigits, DecimalValue;
    var s := "120000";
    AllLeading(s);
    assert DecimalValue(s[..0]) == 0 by { NoDigits(); }
    OneMoreDigit(s, 0);
    OneMoreDigit(s, 1);
    OneMoreDigit(s, 2);
    OneMoreDigit(s, 3);
    OneMoreDigit(s, 4);
    OneMoreDigit(s, 5);
    assert s[..6] == s;
  }

  lemma NoDigits()
    ensures DecimalValue("") == 0
  {
  }

  /** A stored hash splits back into its four parts. */
  lemma PartsOfHash(hmac: Prf, password: string, random: Bytes)
    ensures var salt := Encode(random);
      Split(PasswordHash(hmac, password, random), "$") ==
        ["pbkdf2-sha256", "120000", salt, Encode(DerivedKey(hmac, Utf8(password), Utf8(salt), ITERATIONS, 32))]
  {
    hide Encode, Split, DerivedKey, Utf8;
    var salt := Encode(random);
    var sum := Encode(DerivedKey(hmac, Utf8(password), Utf8(salt), ITERATIONS, 32));
    EncodedIsBare(random);
    EncodedIsBare(DerivedKey(hmac, Utf8(password), Utf8(salt), ITERATIONS, 32));
    SplitNone(sum);
    SplitFirst(salt, sum);
    SplitFirst("120000", salt + "$" + sum);
    SplitFirst("pbkdf2-sha256", "120000" + "$" + (salt + "$" + sum));
  }

  lemma {:induction false} ValueOfDecimal(n: nat)
    ensures DecimalValue(Decimal(n)) == n
  {
    if n < 10 {
      assert Decimal(n)[..0] == "";
    } else {
      ValueOfDecimal(n / 10);
      var s := Decimal(n);
      assert s[..|s| - 1] == Decimal(n / 10);
    }
  }

  lemma {:induction false} LeadingStop(digits: string, rest: string)
    requires forall i :: 0 <= i < |digits| ==> '0' <= digits[i] <= '9'
    requires rest == "" || !('0' <= rest[0] <= '9')
    ensures LeadingDigits(digits + rest) == digits
  {
    if digits == "" {
      assert digits + rest == rest;
    } else {
      LeadingStop(digits[1..], rest);
      assert (digits + rest)[1..] == digits[1..] + rest;
      assert digits == [digits[0]] + digits[1..];
    }
  }

  /** A count written in decimal is read back, as long as it fits an int, whatever but a digit follows; a minus
      negates it, and a blank before it does not matter. */
  lemma ScanOfDecimal(n: nat, rest: string, blank: char)
    requires rest == "" || !('0' <= rest[0] <= '9')
    requires IsSpace(blank) && blank != '\n'
    ensures ScanInt(Decimal(n) + rest) == if n < 0x8000_0000_0000_0000 then Some(n) else None
    ensures ScanInt("-" + (Decimal(n) + rest)) == if n <= 0x8000_0000_0000_0000 then Some(0 - n) else None
    ensures ScanInt([blank] + (Decimal(n) + rest)) == ScanInt(Decimal(n) + rest)
  {
    hide DecimalValue, Decimal, LeadingDigits;
    var s := Decimal(n) + rest;
    LeadingStop(Decimal(n), rest);
    ValueOfDecimal(n);
    assert s[0] == Decimal(n)[0];
    assert ("-" + s)[1..] == s && ([blank] + s)[1..] == s;
  }

  /** A stored text of four parts verifies a password exactly if it names the scheme, asks for at least 10000
      iterations, and holds the key that the password and the salt derive. */
  lemma VerifiesIff(hmac: Prf, password: string, scheme: string, iterations: nat, salt: string, key: Bytes)
    requires '$' !in scheme && '$' !in salt && iterations < 0x8000_0000_0000_0000
    ensures VerifyPassword(hmac, password, scheme + "$" + (Decimal(iterations) + "$" + (salt + "$" + Encode(key))))
      <==> scheme == "pbkdf2-sha256" && iterations >= 10000
           && DerivedKey(hmac, Utf8(password), Utf8(salt), iterations, |key|) == key
  {
    hide Encode, Split, DerivedKey, Utf8, Decode, ScanInt, Decimal;
    EncodedIsBare(key);
    assert '$' !in Decimal(iterations);
    SplitNone(Encode(key));
    SplitFirst(salt, Encode(key));
    SplitFirst(Decimal(iterations), salt + "$" + Encode(key));
    SplitFirst(scheme, Decimal(iterations) + "$" + (salt + "$" + Encode(key)));
    ScanOfDecimal(iterations, "", ' ');
    assert Decimal(iterations) + "" == Decimal(iterations);
    DecodeOfEncode(key);
  }

  /** A text of fewer or more parts verifies nothing. */
  lemma FourParts(hmac: Prf, password: string, encoded: string)
    requires VerifyPassword(hmac, password, encoded)
    ensures exists scheme, iterations, salt, sum ::
      encoded == scheme + "$" + (iterations + "$" + (salt + "$" + sum)) && scheme == "pbkdf2-sha256"
  {
    hide Split, DerivedKey, Decode, ScanInt;
    var parts := Split(encoded, "$");
    JoinOfSplit(encoded, "$");
    assert parts[1..][1..] == parts[2..] && parts[1..][1..][1..] == [parts[3]];
    assert Join(parts[2..], "$") == parts[2] + "$" + parts[3];
    assert Join(parts[1..], "$") == parts[1] + "$" + Join(parts[2..], "$");
    var rest := parts[1] + "$" + (parts[2] + "$" + parts[3]);
    assert Join(parts, "$") == parts[0] + "$" + rest;
    assert encoded == parts[0] + "$" + (parts[1] + "$" + (parts[2] + "$" + parts[3]));
  }

  /** What passwordHash stored for one password verifies another exactly when both derive the same key:
      so always the same password. */
  lemma VerifyOfHashIff(hmac: Prf, password: string, other: string, random: Bytes)
    ensures var salt := Utf8(Encode(random));
      VerifyPassword(hmac, other, PasswordHash(hmac, password, random)) <==>
        DerivedKey(hmac, Utf8(other), salt, ITERATIONS, 32) == DerivedKey(hmac, Utf8(password), salt, ITERATIONS, 32)
    ensures VerifyPassword(hmac, password, PasswordHash(hmac, password, random))
  {
    hide Encode, Split, DerivedKey, Utf8, PasswordHash, Decode, ScanInt;
    PartsOfHash(hmac, password, random);
    ScansIterations();
    DecodeOfEncode(DerivedKey(hmac, Utf8(password), Utf8(Encode(random)), ITERATIONS, 32));
  }
}
