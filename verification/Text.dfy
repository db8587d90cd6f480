/** Byte-string primitives of the Go standard library that the modelled code calls.
    A `string` models a Go string or byte slice, one `char` for one byte; nothing is
    assumed about the range of a char, so every statement covers all byte values. */
module Text {

  datatype Option<+T> = None | Some(value: T)

  const MIN_INT: int := -0x8000_0000_0000_0000
  const MAX_INT: int := 0x7FFF_FFFF_FFFF_FFFF

  // ---------- characters ----------

  predicate IsDigit(c: char) {
    '0' <= c <= '9'
  }

  predicate IsUpper(c: char) {
    'A' <= c <= 'Z'
  }

  /** The ASCII part of what strings.TrimSpace strips. */
  predicate IsSpace(c: char) {
    c == ' ' || '\t' <= c <= '\r'
  }

  predicate AllDigits(s: string) {
    forall i :: 0 <= i < |s| ==> IsDigit(s[i])
  }

  function DigitValue(c: char): (d: nat)
    requires IsDigit(c)
    ensures d < 10
  {
    c as int - '0' as int
  }

  function DigitChar(d: nat): (c: char)
    requires d < 10
    ensures IsDigit(c) && DigitValue(c) == d
  {
    (d + '0' as int) as char
  }

  // ---------- searching ----------

  /** bytes.IndexByte: the first position of c, or -1. */
  function IndexOf(s: string, c: char): (i: int)
    ensures i == -1 || (0 <= i < |s| && s[i] == c)
    ensures forall k :: 0 <= k < (if i < 0 then |s| else i) ==> s[k] != c
  {
    IndexFrom(s, c, 0)
  }

  function IndexFrom(s: string, c: char, from: nat): (i: int)
    requires from <= |s|
    ensures i == -1 || (from <= i < |s| && s[i] == c)
    ensures forall k :: from <= k < (if i < 0 then |s| else i) ==> s[k] != c
    decreases |s| - from
  {
    if from == |s| then -1
    else if s[from] == c then from
    else IndexFrom(s, c, from + 1)
  }

  lemma IndexOfIsFirst(s: string, c: char, i: nat)
    requires i < |s| && s[i] == c && c !in s[..i]
    ensures IndexOf(s, c) == i
  {
    var r := IndexOf(s, c);
    assert 0 <= r <= i;
    assert s[r] == c;
    assert forall k :: 0 <= k < i ==> s[..i][k] != c && s[..i][k] == s[k];
  }

  predicate OccursAt(s: string, sub: string, i: nat) {
    i + |sub| <= |s| && s[i..i + |sub|] == sub
  }

  /** bytes.Contains. */
  predicate Contains(s: string, sub: string) {
    exists i :: 0 <= i <= |s| && OccursAt(s, sub, i)
  }

  lemma ContainsNeedsChar(s: string, sub: string, c: char)
    requires c in sub && c !in s
    ensures !Contains(s, sub)
  {
    var k :| 0 <= k < |sub| && sub[k] == c;
    forall i | 0 <= i <= |s|
      ensures !OccursAt(s, sub, i)
    {
      assert i + |sub| <= |s| ==> s[i..i + |sub|][k] == s[i + k];
    }
  }

  // ---------- trimming ----------

  /** bytes.TrimRight(s, "\r"). */
  function TrimRightCR(s: string): string
  {
    if s != "" && s[|s| - 1] == '\r' then TrimRightCR(s[..|s| - 1]) else s
  }

  function TrimLeftSpace(s: string): string
  {
    if s != "" && IsSpace(s[0]) then TrimLeftSpace(s[1..]) else s
  }

  function TrimRightSpace(s: string): string
  {
    if s != "" && IsSpace(s[|s| - 1]) then TrimRightSpace(s[..|s| - 1]) else s
  }

  /** strings.TrimSpace, on ASCII whitespace. */
  function TrimSpace(s: string): string {
    TrimRightSpace(TrimLeftSpace(s))
  }

  /** A string that trimming leaves alone. */
  predicate Trimmed(s: string) {
    s != "" ==> !IsSpace(s[0]) && !IsSpace(s[|s| - 1])
  }

  lemma TrimmedIsFixed(s: string)
    requires Trimmed(s)
    ensures TrimSpace(s) == s && TrimSpace(" " + s) == s
  {
    assert (" " + s)[1..] == s;
    assert TrimLeftSpace(" " + s) == TrimLeftSpace(s);
  }

  // ---------- decimal numbers ----------

  function Value(s: string): nat
    requires AllDigits(s)
  {
    if s == "" then 0 else 10 * Value(s[..|s| - 1]) + DigitValue(s[|s| - 1])
  }

  /** fmt's %d on a non-negative number. */
  function Decimal(n: nat): (s: string)
    ensures s != "" && AllDigits(s)
    ensures Value(s) == n
    ensures n < 10 ==> |s| == 1
    ensures 10 <= n < 100 ==> |s| == 2
  {
    if n < 10 then [DigitChar(n)]
    else
      var s := Decimal(n / 10) + [DigitChar(n % 10)];
      assert s[..|s| - 1] == Decimal(n / 10);
      s
  }

  /** fmt's %d. */
  function Signed(n: int): string {
    if n < 0 then "-" + Decimal(-n) else Decimal(n)
  }

  /** strconv.Atoi on a 64-bit int; None for a syntax or range error. */
  function Atoi(s: string): Option<int> {
    var signed := s != "" && (s[0] == '-' || s[0] == '+');
    var digits := if signed then s[1..] else s;
    if digits == "" || !AllDigits(digits) then None
    else
      var n: int := Value(digits);
      var v := if signed && s[0] == '-' then -n else n;
      if MIN_INT <= v <= MAX_INT then Some(v) else None
  }

  /** Printing a number with %d and reading it with Atoi gives it back. */
  lemma AtoiOfDecimal(n: nat)
    requires n <= MAX_INT
    ensures Atoi(Decimal(n)) == Some(n)
  {
    assert IsDigit(Decimal(n)[0]);
  }

  lemma {:induction false} ValueOfFront(s: string)
    requires AllDigits(s) && s != "" && s[0] == '0'
    ensures Value(s) == Value(s[1..])
  {
    if |s| > 1 {
      assert s[..|s| - 1][1..] == s[1..][..|s| - 2];
      ValueOfFront(s[..|s| - 1]);
    }
  }

  lemma {:induction false} ValueBound(s: string)
    requires AllDigits(s) && s != ""
    ensures s[0] != '0' ==> Value(s) > 0
    ensures |s| <= 4 ==> Value(s) <= 9999
    ensures |s| <= 2 ==> Value(s) <= 99
  {
    if |s| > 1 {
      ValueBound(s[..|s| - 1]);
      if |s| <= 4 {
        SmallValue(s);
      }
    }
  }

  lemma SmallValue(s: string)
    requires AllDigits(s) && 1 <= |s| <= 4
    ensures |s| == 1 ==> Value(s) <= 9
    ensures |s| == 2 ==> Value(s) <= 99
    ensures |s| == 3 ==> Value(s) <= 999
    ensures |s| == 4 ==> Value(s) <= 9999
    decreases |s|
  {
    if |s| > 1 {
      SmallValue(s[..|s| - 1]);
    }
  }

  /** Without a leading zero the decimal form is unique. */
  lemma {:induction false} DecimalOfValue(s: string)
    requires AllDigits(s) && s != "" && s[0] != '0'
    ensures Decimal(Value(s)) == s
  {
    hide Decimal;
    if |s| == 1 {
      DecimalOfDigit(s);
    } else {
      var f := s[..|s| - 1];
      DecimalOfValue(f);
      ValueBound(f);
      assert s == f + [s[|s| - 1]];
      DecimalOfMore(Value(f), s[|s| - 1]);
    }
  }

  lemma DecimalOfDigit(s: string)
    requires AllDigits(s) && |s| == 1
    ensures Decimal(Value(s)) == s
  {
    assert s[..0] == "" && Value(s) == DigitValue(s[0]);
  }

  lemma LastDigit(n: nat, d: nat)
    requires d < 10
    ensures (10 * n + d) / 10 == n && (10 * n + d) % 10 == d
  {}

  lemma DecimalOfMore(n: nat, c: char)
    requires n > 0 && IsDigit(c)
    ensures Decimal(10 * n + DigitValue(c)) == Decimal(n) + [c]
  {
    LastDigit(n, DigitValue(c));
    assert DigitChar(DigitValue(c)) == c;
  }

  function Zeros(n: nat): (s: string)
    ensures |s| == n && forall i :: 0 <= i < n ==> s[i] == '0'
  {
    seq(n, _ => '0')
  }

  /** fmt's %0wd on a non-negative number. */
  function Padded(n: nat, w: nat): string {
    var d := Decimal(n);
    if |d| < w then Zeros(w - |d|) + d else d
  }

  /** A w-digit string is what %0wd prints for its own value. */
  lemma {:induction false} PaddedOfValue(s: string, w: nat)
    requires AllDigits(s) && |s| == w > 0
    ensures Padded(Value(s), w) == s
  {
    if s[0] != '0' {
      DecimalOfValue(s);
    } else if w > 1 {
      ValueOfFront(s);
      PaddedOfValue(s[1..], w - 1);
      assert s == "0" + s[1..];
      var d := Decimal(Value(s));
      assert |d| < w;
      assert Zeros(w - |d|) + d == "0" + Padded(Value(s[1..]), w - 1);
    } else {
      assert s == "0" && s[..0] == "";
      assert Value(s) == 0;
    }
  }

  lemma {:induction false} ValueOfZeros(k: nat, d: string)
    requires AllDigits(d)
    ensures AllDigits(Zeros(k) + d) && Value(Zeros(k) + d) == Value(d)
  {
    if k == 0 {
      assert Zeros(0) + d == d;
    } else {
      ValueOfZeros(k - 1, d);
      var s := Zeros(k) + d;
      assert s[1..] == Zeros(k - 1) + d;
      ValueOfFront(s);
    }
  }

  lemma DecimalLength(n: nat)
    requires n < 10000
    ensures |Decimal(n)| == if n < 10 then 1 else if n < 100 then 2 else if n < 1000 then 3 else 4
  {
    if n >= 100 {
      DecimalLength(n / 10);
    }
  }

  /** %0wd prints a number of at most w <= 4 digits in exactly w digits. */
  lemma PaddedPrints(n: nat, w: nat)
    requires 1 <= w <= 4
    requires n < if w == 1 then 10 else if w == 2 then 100 else if w == 3 then 1000 else 10000
    ensures |Padded(n, w)| == w && AllDigits(Padded(n, w)) && Value(Padded(n, w)) == n
  {
    var d := Decimal(n);
    DecimalLength(n);
    if |d| < w {
      ValueOfZeros(w - |d|, d);
    }
  }

  lemma DecimalInjective(m: nat, n: nat)
    requires Decimal(m) == Decimal(n)
    ensures m == n
  {
    assert Value(Decimal(m)) == m;
  }

  // ---------- writes ----------

  /** What the environment makes of a write: it goes through, or it fails after some bytes. */
  datatype Fate = Sent | Broken(after: nat)

  /** The bytes of a write that reach the connection. */
  function Delivered(msg: string, fate: Fate): string {
    match fate
    case Sent => msg
    case Broken(n) => if n < |msg| then msg[..n] else msg
  }

  // ---------- sequences of strings ----------

  function Concat<T>(xs: seq<seq<T>>): seq<T> {
    if xs == [] then [] else xs[0] + Concat(xs[1..])
  }

  lemma {:induction false} ConcatAppend<T>(lists: seq<seq<T>>, l: seq<T>)
    ensures Concat(lists + [l]) == Concat(lists) + l
  {
    if lists == [] {
      assert [l][1..] == [];
    } else {
      assert (lists + [l])[1..] == lists[1..] + [l];
      ConcatAppend(lists[1..], l);
    }
  }

  function Flatten(parts: seq<string>): string {
    if parts == [] then "" else parts[0] + Flatten(parts[1..])
  }

  /** Where the k-th part begins. */
  function Offset(parts: seq<string>, k: nat): nat
    requires k <= |parts|
  {
    if k == 0 then 0 else Offset(parts, k - 1) + |parts[k - 1]|
  }

  lemma OffsetNext(parts: seq<string>, k: nat)
    requires k < |parts|
    ensures Offset(parts, k + 1) == Offset(parts, k) + |parts[k]|
  {}

  lemma {:induction false} OffsetOfTail(parts: seq<string>, k: nat)
    requires 0 < k <= |parts|
    ensures Offset(parts, k) == |parts[0]| + Offset(parts[1..], k - 1)
  {
    if k > 1 {
      OffsetOfTail(parts, k - 1);
    }
  }

  lemma {:induction false} PartOf(parts: seq<string>, k: nat)
    requires k < |parts|
    ensures Offset(parts, k) + |parts[k]| <= |Flatten(parts)|
    ensures Flatten(parts)[Offset(parts, k)..Offset(parts, k) + |parts[k]|] == parts[k]
  {
    if k > 0 {
      PartOf(parts[1..], k - 1);
      OffsetOfTail(parts, k);
    }
  }

  lemma {:induction false} LengthOf(parts: seq<string>)
    ensures |Flatten(parts)| == Offset(parts, |parts|)
  {
    if parts != [] {
      LengthOf(parts[1..]);
      OffsetOfTail(parts, |parts|);
    }
  }

  /** Where every part of a text begins, and that it stands there. */
  lemma AllOffsets(parts: seq<string>)
    ensures Offset(parts, 0) == 0 && |Flatten(parts)| == Offset(parts, |parts|)
    ensures forall k {:trigger parts[k]} :: 0 <= k < |parts| ==>
              Offset(parts, k + 1) == Offset(parts, k) + |parts[k]|
  {
    LengthOf(parts);
    forall k | 0 <= k < |parts|
      ensures Offset(parts, k + 1) == Offset(parts, k) + |parts[k]|
    {
      OffsetNext(parts, k);
    }
  }

  lemma AllParts(parts: seq<string>)
    ensures forall k {:trigger Offset(parts, k)} :: 0 <= k < |parts| ==>
              && Offset(parts, k) + |parts[k]| <= |Flatten(parts)|
              && Flatten(parts)[Offset(parts, k)..Offset(parts, k) + |parts[k]|] == parts[k]
  {
    forall k | 0 <= k < |parts|
      ensures Offset(parts, k) + |parts[k]| <= |Flatten(parts)|
      ensures Flatten(parts)[Offset(parts, k)..Offset(parts, k) + |parts[k]|] == parts[k]
    {
      PartOf(parts, k);
    }
  }
}
