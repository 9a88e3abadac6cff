/** String operations of the Go standard library that the resolver's rules are built from.
    Strings are sequences of Unicode scalar values; lower-casing folds the ASCII letters. */
module Text {

  datatype Option<+T> = None | Some(value: T)

  function LowerChar(c: char): char {
    if 'A' <= c <= 'Z' then (c as int + 32) as char else c
  }

  function Lower(s: string): (r: string)
    ensures |r| == |s|
    ensures forall i :: 0 <= i < |s| ==> r[i] == LowerChar(s[i])
  {
    seq(|s|, i requires 0 <= i < |s| => LowerChar(s[i]))
  }

  const UINT32_SIZE: nat := 0x1_0000_0000

  type Uint32 = n: nat | n < UINT32_SIZE

  ghost predicate NoRepeats<T>(s: seq<T>) {
    forall i, j :: 0 <= i < j < |s| ==> s[i] != s[j]
  }

  /** What is left of a list without an item. */
  function Without(items: seq<string>, item: string): seq<string> {
    if items == [] then []
    else
      var last := items[|items| - 1];
      Without(items[..|items| - 1], item) + if last == item then [] else [last]
  }

  type Byte = x: int | 0 <= x < 256
  type Bytes = seq<Byte>

  /** []byte(s): UTF-8 (RFC 3629) */
  function Utf8(s: string): Bytes {
    if s == [] then [] else Utf8(s[..|s| - 1]) + Utf8Char(s[|s| - 1])
  }

  function Utf8Char(ch: char): Bytes {
    var c := ch as int;
    if c < 0x80 then [c]
    else if c < 0x800 then [0xC0 + c / 0x40, 0x80 + c % 0x40]
    else if c < 0x1_0000 then [0xE0 + c / 0x1000, 0x80 + c / 0x40 % 0x40, 0x80 + c % 0x40]
    else [0xF0 + c / 0x4_0000, 0x80 + c / 0x1000 % 0x40, 0x80 + c / 0x40 % 0x40, 0x80 + c % 0x40]
  }

  /** Every byte of a character but the first is a continuation byte, and the first is none. */
  lemma Utf8Heads(c: char, k: nat)
    requires k < |Utf8Char(c)|
    ensures 0x80 <= Utf8Char(c)[k] < 0xC0 <==> k > 0
  {
    var n := c as int;
    if n >= 0x1_0000 {
      assert n / 0x4_0000 < 8;
    }
  }

  lemma SixBits(n: nat)
    ensures n == n / 0x40 * 0x40 + n % 0x40
    ensures n / 0x40 == n / 0x1000 * 0x40 + n / 0x40 % 0x40
    ensures n / 0x1000 == n / 0x4_0000 * 0x40 + n / 0x1000 % 0x40
  {
    assert n / 0x40 / 0x40 == n / 0x1000;
    assert n / 0x1000 / 0x40 == n / 0x4_0000;
  }

  function CodePoint(b: Bytes): nat
    requires 1 <= |b| <= 4
    requires forall k :: 0 < k < |b| ==> b[k] >= 0x80
    requires |b| == 2 ==> b[0] >= 0xC0
    requires |b| == 3 ==> b[0] >= 0xE0
    requires |b| == 4 ==> b[0] >= 0xF0
  {
    match |b|
    case 1 => b[0] as int
    case 2 => (b[0] as int - 0xC0) * 0x40 + (b[1] as int - 0x80)
    case 3 => (b[0] as int - 0xE0) * 0x1000 + (b[1] as int - 0x80) * 0x40 + (b[2] as int - 0x80)
    case _ =>
      (b[0] as int - 0xF0) * 0x4_0000 + (b[1] as int - 0x80) * 0x1000 + (b[2] as int - 0x80) * 0x40 +
      (b[3] as int - 0x80)
  }

  lemma CodePointOfUtf8(c: char)
    ensures CodePoint(Utf8Char(c)) == c as int
  {
    SixBits(c as int);
  }

  lemma Utf8Unfolds(s: string)
    ensures s != [] ==> Utf8(s) != [] && Utf8(s) == Utf8(s[..|s| - 1]) + Utf8Char(s[|s| - 1])
    ensures s == [] ==> Utf8(s) == []
  {
  }

  /** Different strings are different bytes. */
  lemma {:induction false} Utf8Injective(s: string, t: string)
    requires Utf8(s) == Utf8(t)
    ensures s == t
  {
    hide Utf8, Utf8Char;
    Utf8Unfolds(s);
    Utf8Unfolds(t);
    if s != [] && t != [] {
      var x, y := s[|s| - 1], t[|t| - 1];
      SameTail(Utf8(s[..|s| - 1]), x, Utf8(t[..|t| - 1]), y);
      Utf8Injective(s[..|s| - 1], t[..|t| - 1]);
      assert s == s[..|s| - 1] + [x] && t == t[..|t| - 1] + [y];
    }
  }

  lemma SameTail(a: Bytes, x: char, b: Bytes, y: char)
    requires a + Utf8Char(x) == b + Utf8Char(y)
    ensures a == b && x == y
  {
    hide Utf8Char;
    var whole, m, n := a + Utf8Char(x), |Utf8Char(x)|, |Utf8Char(y)|;
    if m < n {
      HeadInside(a, x, b, y);
    } else if n < m {
      HeadInside(b, y, a, x);
    }
    assert a == whole[..|a|] && b == whole[..|b|];
    assert Utf8Char(x) == whole[|a|..] && Utf8Char(y) == whole[|b|..];
    CodePointOfUtf8(x);
    CodePointOfUtf8(y);
  }

  /** A character cannot end another one's bytes. */
  lemma HeadInside(a: Bytes, x: char, b: Bytes, y: char)
    requires a + Utf8Char(x) == b + Utf8Char(y)
    ensures |Utf8Char(x)| >= |Utf8Char(y)|
  {
    var whole, m, n := a + Utf8Char(x), |Utf8Char(x)|, |Utf8Char(y)|;
    if m < n {
      assert whole[|a|] == Utf8Char(x)[0] == Utf8Char(y)[n - m];
      Utf8Heads(x, 0);
      Utf8Heads(y, n - m);
      assert false;
    }
  }

  predicate IsSpace(c: char) {
    || '\t' <= c <= '\r' || c == ' ' || c == '\U{85}' || c == '\U{A0}' || c == '\U{1680}'
    || '\U{2000}' <= c <= '\U{200A}' || c == '\U{2028}' || c == '\U{2029}'
    || c == '\U{202F}' || c == '\U{205F}' || c == '\U{3000}'
  }

  function TrimLeft(s: string): string {
    if s != [] && IsSpace(s[0]) then TrimLeft(s[1..]) else s
  }

  function TrimRight(s: string): string {
    if s != [] && IsSpace(s[|s| - 1]) then TrimRight(s[..|s| - 1]) else s
  }

  function TrimSpace(s: string): string {
    TrimRight(TrimLeft(s))
  }

  lemma {:induction false} TrimmedHasNoEdgeSpace(s: string)
    ensures TrimSpace(s) == s <==> s == "" || (!IsSpace(s[0]) && !IsSpace(s[|s| - 1]))
  {
    TrimLeftShorter(s);
    TrimRightShorter(TrimLeft(s));
    if s != [] && !IsSpace(s[0]) {
      assert TrimLeft(s) == s;
    }
  }

  lemma {:induction false} TrimLeftShorter(s: string)
    ensures |TrimLeft(s)| <= |s| && (s != [] && IsSpace(s[0]) ==> |TrimLeft(s)| < |s|)
  {
    if s != [] && IsSpace(s[0]) { TrimLeftShorter(s[1..]); }
  }

  lemma {:induction false} TrimRightShorter(s: string)
    ensures |TrimRight(s)| <= |s| && (s != [] && IsSpace(s[|s| - 1]) ==> |TrimRight(s)| < |s|)
  {
    if s != [] && IsSpace(s[|s| - 1]) { TrimRightShorter(s[..|s| - 1]); }
  }

  lemma TrimSpaceShorter(s: string)
    ensures |TrimSpace(s)| <= |s|
    ensures |TrimSpace(s)| == |s| ==> TrimSpace(s) == s
  {
    TrimLeftShorter(s);
    TrimRightShorter(TrimLeft(s));
  }

  predicate HasSuffix(s: string, suffix: string) {
    |suffix| <= |s| && s[|s| - |suffix|..] == suffix
  }

  /** strings.TrimSuffix(s, ".") */
  function TrimDot(s: string): string {
    if HasSuffix(s, ".") then s[..|s| - 1] else s
  }

  function Concat(parts: seq<string>): string {
    if parts == [] then "" else parts[0] + Concat(parts[1..])
  }

  /** strings.Join */
  function Join(parts: seq<string>, sep: string): string {
    if parts == [] then ""
    else if |parts| == 1 then parts[0]
    else parts[0] + sep + Join(parts[1..], sep)
  }

  /** strings.Index; |s| stands for "not found" */
  function Index(s: string, sep: string): (i: nat)
    requires sep != []
    ensures i <= |s|
    ensures i < |s| ==> i + |sep| <= |s|
  {
    if |s| < |sep| then |s|
    else if sep <= s then 0
    else 1 + Index(s[1..], sep)
  }

  /** strings.Split: cuts at the leftmost, non-overlapping occurrences */
  function Split(s: string, sep: string): (parts: seq<string>)
    requires sep != []
    ensures |parts| >= 1
    decreases |s|
  {
    var i := Index(s, sep);
    if i == |s| then [s] else [s[..i]] + Split(s[i + |sep|..], sep)
  }

  lemma JoinOne(part: string, sep: string)
    ensures Join([part], sep) == part
  {
  }

  lemma IndexUnfolds(s: string, sep: string)
    requires sep != [] && Index(s, sep) < |s|
    ensures |sep| <= |s|
    ensures if sep <= s then Index(s, sep) == 0 else Index(s, sep) == 1 + Index(s[1..], sep)
  {
  }

  lemma {:induction false} CutAtIndex(s: string, sep: string)
    requires sep != [] && Index(s, sep) < |s|
    ensures s == s[..Index(s, sep)] + sep + s[Index(s, sep) + |sep|..]
  {
    hide Index;
    IndexUnfolds(s, sep);
    if sep <= s {
      assert s[..0] == "";
    } else {
      CutAtIndex(s[1..], sep);
    }
  }

  lemma {:induction false} SplitUnfolds(s: string, sep: string)
    requires sep != []
    ensures var i := Index(s, sep);
      Split(s, sep) == if i == |s| then [s] else [s[..i]] + Split(s[i + |sep|..], sep)
  {
    hide Index;
  }

  lemma {:induction false} JoinOfSplit(s: string, sep: string)
    requires sep != []
    ensures Join(Split(s, sep), sep) == s
    decreases |s|
  {
    hide Index, Join, Split;
    var i := Index(s, sep);
    SplitUnfolds(s, sep);
    if i == |s| {
      JoinOne(s, sep);
    } else {
      var tail := s[i + |sep|..];
      JoinOne(s[..i], sep);
      JoinOfSplit(tail, sep);
      JoinAppend([s[..i]], Split(tail, sep), sep);
      CutAtIndex(s, sep);
    }
  }

  lemma {:induction false} JoinAppend(a: seq<string>, b: seq<string>, sep: string)
    requires a != [] && b != []
    ensures Join(a + b, sep) == Join(a, sep) + sep + Join(b, sep)
  {
    assert (a + b)[1..] == a[1..] + b;
    if |a| > 1 {
      JoinAppend(a[1..], b, sep);
    }
  }

  /** A character no cut can start at stays at the head of the first part. */
  lemma SplitSkip(c: char, s: string, sep: string)
    requires sep != [] && !(sep <= [c] + s)
    ensures Split([c] + s, sep) == [[c] + Split(s, sep)[0]] + Split(s, sep)[1..]
  {
    var t, i := [c] + s, Index(s, sep);
    assert t[1..] == s;
    hide Index;
    if i < |s| {
      assert t[1 + i + |sep|..] == s[i + |sep|..];
      assert t[..1 + i] == [c] + s[..i];
    }
  }

  /** A separator at the head cuts off an empty first part. */
  lemma SplitCut(s: string, sep: string)
    requires sep != []
    ensures Split(sep + s, sep) == [""] + Split(s, sep)
  {
    var t := sep + s;
    assert sep <= t;
    assert t[|sep|..] == s;
    assert t[..0] == "";
  }

  // ---- byte-wise string order (sort.Strings): code points compare as their UTF-8 bytes do ----

  predicate Less(a: string, b: string) {
    b != [] && (a == [] || a[0] < b[0] || (a[0] == b[0] && Less(a[1..], b[1..])))
  }

  lemma {:induction false} LessTotal(a: string, b: string)
    ensures Less(a, b) || a == b || Less(b, a)
  {
    if a != [] && b != [] && a[0] == b[0] {
      LessTotal(a[1..], b[1..]);
      assert a == [a[0]] + a[1..] && b == [b[0]] + b[1..];
    }
  }

  lemma {:induction false} LessIrreflexive(a: string)
    ensures !Less(a, a)
  {
    if a != [] {
      LessIrreflexive(a[1..]);
    }
  }

  lemma {:induction false} LessAsymmetric(a: string, b: string)
    requires Less(a, b)
    ensures !Less(b, a) && a != b
  {
    if a != [] && a[0] == b[0] {
      LessAsymmetric(a[1..], b[1..]);
    }
  }

  lemma {:induction false} LessTransitive(a: string, b: string, c: string)
    requires Less(a, b) && Less(b, c)
    ensures Less(a, c)
  {
    if a != [] && a[0] == b[0] == c[0] {
      LessTransitive(a[1..], b[1..], c[1..]);
    }
  }

  // ---- decimal rendering (fmt %d of a natural number) ----

  function Digit(n: nat): (c: char)
    requires n < 10
    ensures '0' <= c <= '9' && c as int - '0' as int == n
  {
    ('0' as int + n) as char
  }

  function Decimal(n: nat): (s: string)
    ensures s != []
    ensures forall i :: 0 <= i < |s| ==> '0' <= s[i] <= '9'
  {
    if n < 10 then [Digit(n)] else Decimal(n / 10) + [Digit(n % 10)]
  }

  lemma {:induction false} DecimalInjective(m: nat, n: nat)
    requires Decimal(m) == Decimal(n)
    ensures m == n
  {
    var s, t := Decimal(m), Decimal(n);
    assert s[|s| - 1] == Digit(m % 10) && t[|t| - 1] == Digit(n % 10);
    if m < 10 || n < 10 {
    } else {
      assert s[..|s| - 1] == Decimal(m / 10) && t[..|t| - 1] == Decimal(n / 10);
      DecimalInjective(m / 10, n / 10);
    }
  }
}
