module LogStream {
  import opened CInt
  import opened Seqs

  const SMALL_BUFFER := 4000
  const MAX_NUMERIC_SIZE := 32
  const DIGITS := "9876543210123456789"
  const HEX_DIGITS := "0123456789ABCDEF"
  const NUL := '\0'

  // ---- What numbers look like ----

  function Digit(d: nat): char
    requires d < 16
  {
    HEX_DIGITS[d]
  }

  /** The positional notation of n, most significant digit first. */
  function Numeral(n: nat, base: nat): (s: string)
    requires 2 <= base <= 16
    ensures |s| > 0
    decreases n
  {
    if n < base then [Digit(n)]
    else
      Smaller(n, base);
      Numeral(n / base, base) + [Digit(n % base)]
  }

  lemma Smaller(n: nat, base: nat)
    requires 2 <= base <= n
    ensures 0 < n / base < n
  {
    var q := n / base;
    assert n == q * base + n % base;
    assert q * base >= q * 2;
  }

  function Decimal(v: int): string {
    if v < 0 then "-" + Numeral(-v, 10) else Numeral(v, 10)
  }

  function Pointer(v: nat): string {
    "0x" + Numeral(v, 16)
  }

  /** The value a digit stands for, 16 when it is none. */
  function DigitValue(c: char): nat {
    if '0' <= c <= '9' then c as nat - '0' as nat
    else if 'A' <= c <= 'F' then c as nat - 'A' as nat + 10
    else 16
  }

  predicate AreDigits(s: string, base: nat) {
    forall i :: 0 <= i < |s| ==> DigitValue(s[i]) < base
  }

  /** Reading a numeral, one digit after the other. */
  function ReadNumeral(s: string, base: nat): nat {
    if |s| == 0 then 0 else Shift(ReadNumeral(s[..|s| - 1], base), base, DigitValue(s[|s| - 1]))
  }

  /** The number whose last digit is d, and n without it. */
  function Shift(n: nat, base: nat, d: nat): nat {
    n * base + d
  }

  function ReadDecimal(s: string): int {
    if |s| > 0 && s[0] == '-' then -(ReadNumeral(s[1..], 10) as int) else ReadNumeral(s, 10)
  }

  /** Canonical: digits only, and a leading zero only in "0" itself. */
  predicate IsCanonical(s: string, base: nat) {
    |s| > 0 && AreDigits(s, base) && (|s| > 1 ==> DigitValue(s[0]) != 0)
  }

  predicate IsCanonicalDecimal(s: string) {
    |s| > 0 && if s[0] == '-' then IsCanonical(s[1..], 10) && s != "-0" else IsCanonical(s, 10)
  }

  lemma DigitRoundTrip(d: nat)
    requires d < 16
    ensures DigitValue(Digit(d)) == d
  {
  }

  lemma DigitOfValue(c: char)
    requires DigitValue(c) < 16
    ensures Digit(DigitValue(c)) == c
  {
  }

  lemma ShiftParts(n: nat, base: nat)
    requires base > 0
    ensures Shift(0, base, n) == n && Shift(n / base, base, n % base) == n
  {
  }

  lemma {:induction false} NumeralReadsBack(n: nat, base: nat)
    requires 2 <= base <= 16
    ensures IsCanonical(Numeral(n, base), base)
    ensures ReadNumeral(Numeral(n, base), base) == n
    ensures n > 0 ==> DigitValue(Numeral(n, base)[0]) != 0
    decreases n
  {
    var s := Numeral(n, base);
    var q, r := n / base, n % base;
    ShiftParts(n, base);
    hide Digit, DigitValue, Shift;
    if n < base {
      DigitRoundTrip(n);
      assert s[..|s| - 1] == [];
    } else {
      Smaller(n, base);
      NumeralReadsBack(q, base);
      DigitRoundTrip(r);
      assert s == Numeral(q, base) + [Digit(r)];
      hide Numeral;
      assert s[..|s| - 1] == Numeral(q, base);
    }
  }

  /** A canonical numeral is the one `Numeral` writes. */
  lemma {:induction false} NumeralIsUnique(s: string, base: nat)
    requires 2 <= base <= 16 && IsCanonical(s, base)
    ensures s == Numeral(ReadNumeral(s, base), base)
    ensures |s| > 1 ==> ReadNumeral(s, base) >= base
    decreases |s|
  {
    var t, c := s[..|s| - 1], s[|s| - 1];
    var n := ReadNumeral(t, base);
    DigitOfValue(c);
    assert Shift(0, base, DigitValue(c)) == DigitValue(c);
    hide Digit, DigitValue, Shift;
    assert s == t + [c];
    assert AreDigits(t, base);
    if |s| == 1 {
      assert t == [];
    } else {
      NumeralIsUnique(t, base);
      if |t| == 1 {
        assert t[..0] == [];
        ShiftZero(base, DigitValue(t[0]));
      }
      assert n >= 1;
      Recompose(n, base, DigitValue(c));
    }
  }

  lemma ShiftZero(base: nat, d: nat)
    ensures Shift(0, base, d) == d
  {
  }

  lemma Recompose(n: nat, base: nat, d: nat)
    requires d < base && n >= 1
    ensures Shift(n, base, d) >= base
    ensures Shift(n, base, d) / base == n && Shift(n, base, d) % base == d
  {
    assert n * base >= base;
    Remainder(n * base + d, base, n, d);
  }

  /** Reading a printed integer gives it back, and it was printed canonically. */
  lemma DecimalReadsBack(v: int)
    ensures IsCanonicalDecimal(Decimal(v)) && ReadDecimal(Decimal(v)) == v
  {
    hide Numeral, ReadNumeral;
    if v < 0 {
      NumeralReadsBack(-v, 10);
      assert Decimal(v)[1..] == Numeral(-v, 10);
      assert Decimal(v)[1] == Numeral(-v, 10)[0];
    } else {
      NumeralReadsBack(v, 10);
      assert DigitValue(Numeral(v, 10)[0]) < 10;
    }
  }

  lemma ZeroReadsZero(t: string)
    requires IsCanonical(t, 10) && t != "0"
    ensures ReadNumeral(t, 10) != 0
  {
    NumeralIsUnique(t, 10);
    if |t| == 1 {
      assert t[..0] == [];
      DigitOfValue(t[0]);
      assert t == [t[0]];
    }
  }

  /** And the canonical text of an integer is unique. */
  lemma DecimalIsUnique(s: string)
    requires IsCanonicalDecimal(s)
    ensures s == Decimal(ReadDecimal(s))
  {
    if s[0] == '-' {
      NumeralIsUnique(s[1..], 10);
      var t := s[1..];
      assert s == "-" + t;
      ZeroReadsZero(t);
    } else {
      NumeralIsUnique(s, 10);
    }
  }

  function Power(base: nat, k: nat): nat {
    if k == 0 then 1 else base * Power(base, k - 1)
  }

  lemma QuotientBelow(n: nat, base: nat, p: nat)
    requires base > 0 && n < base * p
    ensures n / base < p
  {
    assert n == (n / base) * base + n % base;
    if p <= n / base {
      TimesMonotone(p, n / base, base);
    }
  }

  lemma TimesMonotone(p: nat, q: nat, k: nat)
    requires p <= q
    ensures p * k <= q * k
  {
  }

  lemma {:induction false} NumeralLength(n: nat, base: nat, k: nat)
    requires 2 <= base <= 16 && k >= 1 && n < Power(base, k)
    ensures |Numeral(n, base)| <= k
    decreases k
  {
    if n >= base {
      assert k == 1 ==> Power(base, k) == base;
      var p := Power(base, k - 1);
      assert n < base * p;
      QuotientBelow(n, base, p);
      NumeralLength(n / base, base, k - 1);
    }
  }

  const TWO_64 := 0x1_0000_0000_0000_0000

  lemma NumeralFits(n: nat)
    requires n < TWO_64
    ensures |Numeral(n, 10)| <= 20 && |Numeral(n, 16)| <= 16
  {
    assert Power(10, 20) == 100000000000000000000 by {
      assert Power(10, 5) == 100000;
      assert Power(10, 10) == 10000000000;
      assert Power(10, 15) == 1000000000000000;
    }
    assert Power(16, 16) == TWO_64 by {
      assert Power(16, 4) == 65536;
      assert Power(16, 8) == 4294967296;
      assert Power(16, 12) == 281474976710656;
    }
    NumeralLength(n, 10, 20);
    NumeralLength(n, 16, 16);
  }

  // ---- The digit loops ----

  /** Digits come out last first; C's remainder is negative for a negative value, and the table serves both. */
  function TableDigit(lsd: int): char
    requires -10 < lsd < 10
  {
    DIGITS[9 + lsd]
  }

  lemma TableDigitIsDigit(lsd: int)
    requires -10 < lsd < 10
    ensures TableDigit(lsd) == Digit(if lsd < 0 then -lsd else lsd)
  {
  }

  function Abs(x: int): nat {
    if x < 0 then -x else x
  }

  /** C's quotient and remainder by 10 are those of the absolute value, up to sign. */
  lemma TruncatedByTen(i: int)
    ensures Abs(Div(i, 10)) == Abs(i) / 10 && Abs(Rem(i, 10)) == Abs(i) % 10
    ensures -10 < Rem(i, 10) < 10
  {
  }

  lemma BackwardSnoc<T>(s: seq<T>, x: T)
    ensures Backward(s + [x]) == [x] + Backward(s)
  {
  }

  /** One round of the digit loop moves the last digit of what is left behind the digits written so far. */
  lemma DigitStep(n: nat, base: nat, written: string)
    requires 2 <= base <= 16
    ensures Backward(written + [Digit(n % base)]) == [Digit(n % base)] + Backward(written)
    ensures Numeral(n, base) + Backward(written)
         == (if n / base == 0 then "" else Numeral(n / base, base)) + Backward(written + [Digit(n % base)])
  {
    hide Digit;
    BackwardSnoc(written, Digit(n % base));
    if n >= base {
      Smaller(n, base);
    } else {
      assert n / base == 0;
    }
  }

  /** `std::reverse` on buf[lo..hi). */
  method ReverseRange(buf: array<char>, lo: nat, hi: nat)
    requires lo <= hi <= buf.Length
    modifies buf
    ensures buf[lo..hi] == Backward(old(buf[lo..hi]))
    ensures buf[..lo] == old(buf[..lo]) && buf[hi..] == old(buf[hi..])
  {
    var i, j := lo, hi;
    while j - i > 1
      invariant lo <= i <= j + 1 && j <= hi && i - lo == hi - j
      invariant forall k :: lo <= k < i || j <= k < hi ==> buf[k] == old(buf[lo + hi - 1 - k])
      invariant forall k :: (0 <= k < lo || i <= k < j || hi <= k < buf.Length) ==> buf[k] == old(buf[k])
    {
      buf[i], buf[j - 1] := buf[j - 1], buf[i];
      i, j := i + 1, j - 1;
    }
    Mirrored(old(buf[..]), buf[..], lo, hi);
  }

  lemma Mirrored(s: string, t: string, lo: nat, hi: nat)
    requires lo <= hi <= |s| == |t|
    requires forall k :: lo <= k < hi ==> t[k] == s[lo + hi - 1 - k]
    ensures t[lo..hi] == Backward(s[lo..hi])
  {
  }

  /** The digit loop of `convert`: the digits of |value|, last one first; returns the position behind them. */
  method PutDigits(buf: array<char>, at: nat, value: int) returns (p: nat)
    requires Abs(value) < TWO_64
    requires at + MAX_NUMERIC_SIZE <= buf.Length
    modifies buf
    ensures at < p <= at + 20 && Backward(buf[at..p]) == Numeral(Abs(value), 10)
    ensures buf[..at] == old(buf[..at])
  {
    var i := value;
    p := at;
    NumeralFits(Abs(value));
    ghost var whole := Numeral(Abs(value), 10);
    while true
      invariant at <= p < at + |whole| <= at + 20
      invariant whole == Numeral(Abs(i), 10) + Backward(buf[at..p])
      invariant buf[..at] == old(buf[..at])
      decreases Abs(i)
    {
      ghost var written, n := buf[at..p], Abs(i);
      TruncatedByTen(i);
      var lsd := Rem(i, 10);
      i := Div(i, 10);
      TableDigitIsDigit(lsd);
      DigitStep(n, 10, written);
      buf[p] := TableDigit(lsd);
      p := p + 1;
      assert buf[at..p] == written + [Digit(n % 10)];
      if i == 0 {
        break;
      }
    }
  }

  /** `convert`: the decimal text of value at buf + at, NUL-terminated; returns its length. */
  method Convert(buf: array<char>, at: nat, value: int) returns (len: nat)
    requires -0x8000_0000_0000_0000 <= value < TWO_64
    requires at + MAX_NUMERIC_SIZE <= buf.Length
    modifies buf
    ensures len == |Decimal(value)| < MAX_NUMERIC_SIZE
    ensures buf[at..at + len] == Decimal(value) && buf[at + len] == NUL
    ensures buf[..at] == old(buf[..at])
  {
    var p := PutDigits(buf, at, value);
    hide Numeral;
    if value < 0 {
      ghost var written := buf[at..p];
      buf[p] := '-';
      p := p + 1;
      assert buf[at..p] == written + ['-'];
      BackwardSnoc(written, '-');
    }
    buf[p] := NUL;
    assert Backward(buf[at..p]) == Decimal(value);
    assert buf[p..][0] == NUL;
    ReverseRange(buf, at, p);
    assert buf[p..][0] == NUL;
    len := p - at;
  }

  /** The digit loop of `convertHex`. */
  method PutHexDigits(buf: array<char>, at: nat, value: nat) returns (p: nat)
    requires value < TWO_64
    requires at + 17 <= buf.Length
    modifies buf
    ensures at < p <= at + 16 && Backward(buf[at..p]) == Numeral(value, 16)
    ensures buf[..at] == old(buf[..at])
  {
    var i := value;
    p := at;
    NumeralFits(value);
    ghost var whole := Numeral(value, 16);
    while true
      invariant at <= p < at + |whole| <= at + 16
      invariant whole == Numeral(i, 16) + Backward(buf[at..p])
      invariant buf[..at] == old(buf[..at])
      decreases i
    {
      ghost var written := buf[at..p];
      DigitStep(i, 16, written);
      var lsd := i % 16;
      i := i / 16;
      buf[p] := Digit(lsd);
      p := p + 1;
      assert buf[at..p] == written + [Digit(lsd)];
      if i == 0 {
        break;
      }
    }
  }

  /** `convertHex`: the text of an address in base 16, NUL-terminated; returns its length. */
  method ConvertHex(buf: array<char>, at: nat, value: nat) returns (len: nat)
    requires value < TWO_64
    requires at + 17 <= buf.Length
    modifies buf
    ensures len == |Numeral(value, 16)| <= 16
    ensures buf[at..at + len] == Numeral(value, 16) && buf[at + len] == NUL
    ensures buf[..at] == old(buf[..at])
  {
    var p := PutHexDigits(buf, at, value);
    hide Numeral;
    buf[p] := NUL;
    assert buf[p..][0] == NUL;
    ReverseRange(buf, at, p);
    assert buf[p..][0] == NUL;
    len := p - at;
  }

  /** "0x" and the hexadecimal text. */
  method PutHex(buf: array<char>, at: nat, v: nat) returns (len: nat)
    requires v < TWO_64 && at + MAX_NUMERIC_SIZE <= buf.Length
    modifies buf
    ensures |Pointer(v)| == len + 2 <= 18
    ensures buf[at..at + len + 2] == Pointer(v) && buf[..at] == old(buf[..at])
  {
    hide Numeral, Digit;
    buf[at] := '0';
    buf[at + 1] := 'x';
    assert buf[..at + 2] == old(buf[..at]) + "0x";
    len := ConvertHex(buf, at + 2, v);
    assert buf[at..at + 2] == buf[..at + 2][at..];
    assert buf[at..at + len + 2] == buf[at..at + 2] + buf[at + 2..at + 2 + len];
    assert buf[..at] == buf[..at + 2][..at];
  }

  // ---- Buffers and streams ----

  /** A character array of fixed size and a write position. */
  class FixedBuffer {
    const data: array<char>
    var cur: nat

    ghost predicate Valid()
      reads this
    {
      cur <= data.Length
    }

    /** The bytes written so far. */
    function Contents(): string
      requires Valid()
      reads this, data
    {
      data[..cur]
    }

    constructor (size: nat)
      ensures Valid() && fresh(data) && data.Length == size && Contents() == ""
    {
      data := new char[size];
      cur := 0;
    }

    method Append(buf: string)
      requires Valid()
      modifies this, data
      ensures Valid()
      ensures Contents() == if |old(Contents())| + |buf| < data.Length then old(Contents()) + buf else old(Contents())
    {
      if Avail() > |buf| {
        forall k | 0 <= k < |buf| {
          data[cur + k] := buf[k];
        }
        cur := cur + |buf|;
      }
    }

    function Length(): nat
      reads this
    {
      cur
    }

    function Avail(): int
      reads this
    {
      data.Length - cur
    }

    /** Takes in len bytes that were written behind the write position directly. */
    method Add(len: nat)
      requires Valid() && len <= Avail()
      modifies this
      ensures Valid() && data[..] == old(data[..]) && cur == old(cur) + len
      ensures Contents() == old(Contents()) + data[old(cur)..cur]
    {
      cur := cur + len;
    }

    method Reset()
      requires Valid()
      modifies this
      ensures Valid() && Contents() == ""
    {
      cur := 0;
    }
  }

  /** What can be put into a stream. A null C string prints as "(null)". */
  datatype Item = Str(s: string) | Null | Bool(b: bool) | Int(v: int) | Ptr(p: nat)

  predicate IsItem(item: Item) {
    match item
    case Int(v) => -0x8000_0000_0000_0000 <= v < TWO_64
    case Ptr(p) => p < TWO_64
    case _ => true
  }

  function Text(item: Item): string {
    match item
    case Str(s) => s
    case Null => "(null)"
    case Bool(b) => if b then "1" else "0"
    case Int(v) => Decimal(v)
    case Ptr(p) => Pointer(p)
  }

  /** The text of a number, a pointer or a truth value gives it back. */
  lemma TextReadsBack(item: Item)
    ensures item.Int? ==> ReadDecimal(Text(item)) == item.v
    ensures item.Ptr? ==> Text(item)[..2] == "0x" && ReadNumeral(Text(item)[2..], 16) == item.p
    ensures item.Bool? ==> ReadDecimal(Text(item)) == if item.b then 1 else 0
  {
    match item
    case Int(v) => DecimalReadsBack(v);
    case Ptr(p) =>
      NumeralReadsBack(p, 16);
      assert Text(item)[2..] == Numeral(p, 16);
    case Bool(b) =>
      NumeralReadsBack(if b then 1 else 0, 10);
    case _ =>
  }

  /** Numbers ask for room for the longest number, text for its own length and one byte more. */
  predicate HasRoom(used: nat, item: Item) {
    if item.Int? || item.Ptr? then used + MAX_NUMERIC_SIZE <= SMALL_BUFFER
    else used + |Text(item)| < SMALL_BUFFER
  }

  /** An insertion appends the whole text or nothing. */
  function Insert(contents: string, item: Item): string {
    if HasRoom(|contents|, item) then contents + Text(item) else contents
  }

  class LogStream {
    const buffer: FixedBuffer

    ghost predicate Valid()
      reads this, buffer
    {
      buffer.Valid() && buffer.data.Length == SMALL_BUFFER && buffer.cur < SMALL_BUFFER
    }

    function Contents(): string
      requires Valid()
      reads this, buffer, buffer.data
    {
      buffer.Contents()
    }

    constructor ()
      ensures Valid() && fresh(buffer) && fresh(buffer.data) && Contents() == ""
    {
      buffer := new FixedBuffer(SMALL_BUFFER);
    }

    method PutText(item: Item)
      requires Valid() && !item.Int? && !item.Ptr?
      modifies buffer, buffer.data
      ensures Valid() && Contents() == Insert(old(Contents()), item)
    {
      match item {
        case Str(s) => buffer.Append(s);
        case Null => buffer.Append("(null)");
        case Bool(b) => buffer.Append(if b then "1" else "0");
      }
    }

    method FormatInteger(v: int)
      requires Valid() && IsItem(Int(v))
      modifies buffer, buffer.data
      ensures Valid() && Contents() == Insert(old(Contents()), Int(v))
    {
      if buffer.Avail() >= MAX_NUMERIC_SIZE {
        var len := Convert(buffer.data, buffer.cur, v);
        buffer.Add(len);
      }
    }

    method PutPointer(v: nat)
      requires Valid() && IsItem(Ptr(v))
      modifies buffer, buffer.data
      ensures Valid() && Contents() == Insert(old(Contents()), Ptr(v))
    {
      hide Numeral, Digit;
      if buffer.Avail() >= MAX_NUMERIC_SIZE {
        var at := buffer.cur;
        var len := PutHex(buffer.data, at, v);
        Joined(buffer.data[..], buffer.data[..at], Pointer(v));
        buffer.Add(len + 2);
      }
    }

    method ResetBuffer()
      requires Valid()
      modifies buffer
      ensures Valid() && Contents() == ""
    {
      buffer.Reset();
    }
  }

  lemma Joined<T>(s: seq<T>, a: seq<T>, b: seq<T>)
    requires |a| + |b| <= |s| && s[..|a|] == a && s[|a|..|a| + |b|] == b
    ensures s[..|a| + |b|] == a + b
  {
    assert s[..|a| + |b|] == s[..|a|] + s[|a|..|a| + |b|];
  }

  function InsertAll(contents: string, items: seq<Item>): string {
    if |items| == 0 then contents else Insert(InsertAll(contents, items[..|items| - 1]), items[|items| - 1])
  }

  lemma ItemTextFits(item: Item)
    requires IsItem(item) && (item.Int? || item.Ptr?)
    ensures |Text(item)| < MAX_NUMERIC_SIZE
  {
    match item
    case Int(v) => NumeralFits(Abs(v));
    case Ptr(p) => NumeralFits(p);
    case _ =>
  }

  /** contents is made of the whole texts of some of the items, in order. */
  predicate IsWoven(contents: string, items: seq<Item>)
    decreases |items|
  {
    if |items| == 0 then contents == ""
    else
      var init, text := items[..|items| - 1], Text(items[|items| - 1]);
      var cut := |contents| - |text|;
      IsWoven(contents, init) || (cut >= 0 && contents[cut..] == text && IsWoven(contents[..cut], init))
  }

  /** After any insertions at least one byte is free, and no text is cut or reordered. */
  lemma {:induction false} InsertAllFits(items: seq<Item>)
    requires forall item :: item in items ==> IsItem(item)
    ensures |InsertAll("", items)| < SMALL_BUFFER
    ensures IsWoven(InsertAll("", items), items)
  {
    if |items| > 0 {
      var init, last := items[..|items| - 1], items[|items| - 1];
      InsertAllFits(init);
      if last.Int? || last.Ptr? {
        ItemTextFits(last);
      }
      hide Text;
      var before := InsertAll("", init);
      if HasRoom(|before|, last) {
        assert (before + Text(last))[|before|..] == Text(last);
        assert (before + Text(last))[..|before|] == before;
      }
    }
  }

  function Texts(items: seq<Item>): seq<string> {
    if |items| == 0 then [] else Texts(items[..|items| - 1]) + [Text(items[|items| - 1])]
  }

  /** While there is room for one more number nothing is dropped. */
  lemma {:induction false} InsertAllKeepsAll(items: seq<Item>)
    requires |Flatten(Texts(items))| + MAX_NUMERIC_SIZE <= SMALL_BUFFER
    ensures InsertAll("", items) == Flatten(Texts(items))
  {
    if |items| > 0 {
      var init, last := items[..|items| - 1], items[|items| - 1];
      FlattenOne(Texts(init), Text(last));
      hide Text;
      InsertAllKeepsAll(init);
    }
  }
}
