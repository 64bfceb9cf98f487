/** The text form of a UUID (RFC 9562, section 4), and why comparing texts is comparing UUIDs. */
module Uuid {
  import opened Schema

  const UUIDS := 0x1_0000_0000_0000_0000_0000_0000_0000_0000

  /** A UUID as the number its sixteen bytes spell, most significant byte first. */
  type UUID = n: nat | n < UUIDS

  function Pow256(n: nat): nat {
    if n == 0 then 1 else 256 * Pow256(n - 1)
  }

  /** The last len base-256 digits of n: the byte array. */
  function BigEndian(n: nat, len: nat): (bytes: seq<nat>)
    ensures |bytes| == len
    ensures forall k :: 0 <= k < len ==> bytes[k] < 256
  {
    if len == 0 then [] else BigEndian(n / 256, len - 1) + [n % 256]
  }

  function HexDigit(d: nat): char
    requires d < 16
  {
    "0123456789abcdef"[d]
  }

  /** `%x` of a byte slice: two lower-case digits a byte. */
  function Hex(bytes: seq<nat>): (text: string)
    requires forall k :: 0 <= k < |bytes| ==> bytes[k] < 256
    ensures |text| == 2 * |bytes|
  {
    if bytes == [] then [] else [HexDigit(bytes[0] / 16), HexDigit(bytes[0] % 16)] + Hex(bytes[1..])
  }

  function Format(b: seq<nat>): (text: string)
    requires |b| == 16 && forall k :: 0 <= k < |b| ==> b[k] < 256
    ensures |text| == 36
  {
    Hex(b[0..4]) + "-" + Hex(b[4..6]) + "-" + Hex(b[6..8]) + "-" + Hex(b[8..10]) + "-" + Hex(b[10..16])
  }

  /** UUIDToString; None is a pgtype value that is not Valid. */
  function UUIDToString(id: Option<UUID>): string {
    if id.None? then "" else Format(BigEndian(id.value, 16))
  }

  function Text(id: UUID): string {
    UUIDToString(Some(id))
  }

  // ---------- lexicographic order ----------

  /** Go's `<` on strings, which is also memcmp on byte arrays. */
  predicate LexLess(a: seq<int>, b: seq<int>) {
    b != [] && (a == [] || a[0] < b[0] || (a[0] == b[0] && LexLess(a[1..], b[1..])))
  }

  function Codes(text: string): (codes: seq<int>)
    ensures |codes| == |text|
    ensures forall k :: 0 <= k < |text| ==> codes[k] == text[k] as int
  {
    seq(|text|, k requires 0 <= k < |text| => text[k] as int)
  }

  predicate TextLess(a: string, b: string) {
    LexLess(Codes(a), Codes(b))
  }

  lemma {:induction false} LexConcat(a: seq<int>, b: seq<int>, x: seq<int>, y: seq<int>)
    requires |a| == |b|
    ensures LexLess(a + x, b + y) <==> LexLess(a, b) || (a == b && LexLess(x, y))
  {
    if a == [] {
      assert a + x == x && b + y == y;
    } else {
      assert (a + x)[1..] == a[1..] + x && (b + y)[1..] == b[1..] + y;
      assert a == [a[0]] + a[1..] && b == [b[0]] + b[1..];
      LexConcat(a[1..], b[1..], x, y);
    }
  }

  lemma {:induction false} LexIrreflexive(a: seq<int>)
    ensures !LexLess(a, a)
  {
    if a != [] { LexIrreflexive(a[1..]); }
  }

  /** Big-endian byte arrays are ordered, and distinguished, as the numbers they spell. */
  lemma {:induction false} BytesOrder(m: nat, n: nat, len: nat)
    requires m < Pow256(len) && n < Pow256(len)
    ensures LexLess(BigEndian(m, len), BigEndian(n, len)) <==> m < n
    ensures BigEndian(m, len) == BigEndian(n, len) <==> m == n
  {
    if len > 0 {
      BytesOrder(m / 256, n / 256, len - 1);
      LexConcat(BigEndian(m / 256, len - 1), BigEndian(n / 256, len - 1), [m % 256], [n % 256]);
      assert BigEndian(m, len)[..len - 1] == BigEndian(m / 256, len - 1) && BigEndian(m, len)[len - 1] == m % 256;
      assert BigEndian(n, len)[..len - 1] == BigEndian(n / 256, len - 1) && BigEndian(n, len)[len - 1] == n % 256;
      assert m == 256 * (m / 256) + m % 256 && n == 256 * (n / 256) + n % 256;
    }
  }

  lemma CodesConcat(a: string, b: string)
    ensures Codes(a + b) == Codes(a) + Codes(b)
  {
  }

  /** The texts of two byte arrays of one length compare as the arrays do. */
  predicate SameOrder(a: seq<nat>, b: seq<nat>, s: string, t: string) {
    && |a| == |b| && |s| == |t|
    && (TextLess(s, t) <==> LexLess(a, b))
    && (s == t <==> a == b)
  }

  lemma ConcatEqual<T>(a: seq<T>, b: seq<T>, x: seq<T>, y: seq<T>)
    requires |a| == |b|
    ensures a + x == b + y <==> a == b && x == y
  {
    if a + x == b + y {
      assert a == (a + x)[..|a|] && b == (b + y)[..|b|];
      assert x == (a + x)[|a|..] && y == (b + y)[|b|..];
    }
  }

  lemma CodesEqual(s: string, t: string)
    ensures Codes(s) == Codes(t) <==> s == t
  {
    if Codes(s) == Codes(t) {
      assert |s| == |Codes(s)| == |Codes(t)| == |t|;
      forall k | 0 <= k < |s| ensures s[k] == t[k] { assert Codes(s)[k] == Codes(t)[k]; }
    }
  }

  lemma SameOrderConcat(a: seq<nat>, b: seq<nat>, s: string, t: string, a': seq<nat>, b': seq<nat>, s': string,
                        t': string)
    requires SameOrder(a, b, s, t) && SameOrder(a', b', s', t')
    ensures SameOrder(a + a', b + b', s + s', t + t')
  {
    hide Codes, LexLess;
    CodesConcat(s, s');
    CodesConcat(t, t');
    CodesEqual(s, t);
    LexConcat(Codes(s), Codes(t), Codes(s'), Codes(t'));
    LexConcat(a, b, a', b');
    ConcatEqual(s, t, s', t');
    ConcatEqual(a, b, a', b');
  }

  lemma HexDigitOrder(d: nat, e: nat)
    requires d < 16 && e < 16
    ensures HexDigit(d) < HexDigit(e) <==> d < e
    ensures HexDigit(d) == HexDigit(e) <==> d == e
  {
  }

  lemma LexShort(p: int, q: int, x: int, y: int)
    ensures LexLess([p], [q]) <==> p < q
    ensures LexLess([p, x], [q, y]) <==> p < q || (p == q && x < y)
  {
    assert [p][1..] == [] && [q][1..] == [];
    assert [p, x][1..] == [x] && [q, y][1..] == [y];
    assert [x][1..] == [] && [y][1..] == [];
  }

  lemma HexByteOrder(x: nat, y: nat)
    requires x < 256 && y < 256
    ensures SameOrder([x], [y], [HexDigit(x / 16), HexDigit(x % 16)], [HexDigit(y / 16), HexDigit(y % 16)])
  {
    hide HexDigit, LexLess;
    var s, t := [HexDigit(x / 16), HexDigit(x % 16)], [HexDigit(y / 16), HexDigit(y % 16)];
    HexDigitOrder(x / 16, y / 16);
    HexDigitOrder(x % 16, y % 16);
    assert Codes(s) == [s[0] as int, s[1] as int] && Codes(t) == [t[0] as int, t[1] as int];
    LexShort(x, y, 0, 0);
    LexShort(s[0] as int, t[0] as int, s[1] as int, t[1] as int);
    assert x == 16 * (x / 16) + x % 16 && y == 16 * (y / 16) + y % 16;
    assert s == t <==> s[0] == t[0] && s[1] == t[1];
    assert [x] == [y] <==> x == y by { if [x] == [y] { assert [x][0] == [y][0]; } }
  }

  lemma {:induction false} HexOrder(a: seq<nat>, b: seq<nat>)
    requires |a| == |b|
    requires forall k :: 0 <= k < |a| ==> a[k] < 256 && b[k] < 256
    ensures SameOrder(a, b, Hex(a), Hex(b))
  {
    if a == [] {
      LexIrreflexive([]);
      assert Codes(Hex(a)) == [];
    } else {
      HexByteOrder(a[0], b[0]);
      HexOrder(a[1..], b[1..]);
      assert a == [a[0]] + a[1..] && b == [b[0]] + b[1..];
      SameOrderConcat([a[0]], [b[0]], [HexDigit(a[0] / 16), HexDigit(a[0] % 16)],
                      [HexDigit(b[0] / 16), HexDigit(b[0] % 16)],
                      a[1..], b[1..], Hex(a[1..]), Hex(b[1..]));
    }
  }

  lemma DashOrder()
    ensures SameOrder([], [], "-", "-")
  {
    LexIrreflexive(Codes("-"));
    LexIrreflexive([]);
  }

  /** One more dash and group. */
  lemma GroupOrder(a: seq<nat>, b: seq<nat>, s: string, t: string, a': seq<nat>, b': seq<nat>)
    requires SameOrder(a, b, s, t) && |a'| == |b'|
    requires forall k :: 0 <= k < |a'| ==> a'[k] < 256 && b'[k] < 256
    ensures SameOrder(a + a', b + b', s + "-" + Hex(a'), t + "-" + Hex(b'))
  {
    DashOrder();
    SameOrderConcat(a, b, s, t, [], [], "-", "-");
    HexOrder(a', b');
    assert a + [] == a && b + [] == b;
    SameOrderConcat(a, b, s + "-", t + "-", a', b', Hex(a'), Hex(b'));
  }

  lemma FormatOrder(a: seq<nat>, b: seq<nat>)
    requires |a| == |b| == 16
    requires forall k :: 0 <= k < 16 ==> a[k] < 256 && b[k] < 256
    ensures SameOrder(a, b, Format(a), Format(b))
  {
    hide SameOrder, Hex;
    HexOrder(a[0..4], b[0..4]);
    GroupOrder(a[0..4], b[0..4], Hex(a[0..4]), Hex(b[0..4]), a[4..6], b[4..6]);
    assert a[0..4] + a[4..6] == a[0..6] && b[0..4] + b[4..6] == b[0..6];
    var s, t := Hex(a[0..4]) + "-" + Hex(a[4..6]), Hex(b[0..4]) + "-" + Hex(b[4..6]);
    GroupOrder(a[0..6], b[0..6], s, t, a[6..8], b[6..8]);
    assert a[0..6] + a[6..8] == a[0..8] && b[0..6] + b[6..8] == b[0..8];
    GroupOrder(a[0..8], b[0..8], s + "-" + Hex(a[6..8]), t + "-" + Hex(b[6..8]), a[8..10], b[8..10]);
    assert a[0..8] + a[8..10] == a[0..10] && b[0..8] + b[8..10] == b[0..10];
    GroupOrder(a[0..10], b[0..10], s + "-" + Hex(a[6..8]) + "-" + Hex(a[8..10]),
               t + "-" + Hex(b[6..8]) + "-" + Hex(b[8..10]), a[10..16], b[10..16]);
    assert a[0..10] + a[10..16] == a && b[0..10] + b[10..16] == b;
  }

  lemma SixteenBytes()
    ensures Pow256(16) == UUIDS
  {
    assert Pow256(4) == 0x1_0000_0000;
    assert Pow256(8) == 0x1_0000_0000 * 0x1_0000_0000;
    assert Pow256(12) == 0x1_0000_0000_0000_0000 * 0x1_0000_0000;
  }

  /**
   Go's string order on texts, PostgreSQL's order on the sixteen bytes, and the order of the numbers are one
   order.
   */
  lemma TextOrder(m: UUID, n: UUID)
    ensures TextLess(Text(m), Text(n)) <==> m < n
    ensures LexLess(BigEndian(m, 16), BigEndian(n, 16)) <==> m < n
    ensures Text(m) == Text(n) <==> m == n
  {
    SixteenBytes();
    BytesOrder(m, n, 16);
    FormatOrder(BigEndian(m, 16), BigEndian(n, 16));
  }

  /** Also against values that are not Valid. */
  lemma UUIDToStringInjective(a: Option<UUID>, b: Option<UUID>)
    ensures UUIDToString(a) == UUIDToString(b) <==> a == b
  {
    if a.Some? && b.Some? { TextOrder(a.value, b.value); }
  }

  // ---------- the text spells the number ----------

  /** What a lower-case hexadecimal digit stands for. */
  function DigitValue(c: char): Option<nat> {
    if '0' <= c <= '9' then Some(c as int - '0' as int)
    else if 'a' <= c <= 'f' then Some(10 + c as int - 'a' as int)
    else None
  }

  /** Reading a text from the left: digits are added on, dashes are passed over, and nothing else is allowed. */
  function Read(text: string, before: nat): Option<nat> {
    if text == "" then Some(before)
    else if text[0] == '-' then Read(text[1..], before)
    else match DigitValue(text[0])
         case Some(d) => Read(text[1..], 16 * before + d)
         case None => None
  }

  /** Reading bytes from the left, most significant first. */
  function ReadBytes(bytes: seq<nat>, before: nat): nat {
    if bytes == [] then before else ReadBytes(bytes[1..], 256 * before + bytes[0])
  }

  lemma {:induction false} ReadConcat(a: string, b: string, before: nat)
    requires Read(a, before).Some?
    ensures Read(a + b, before) == Read(b, Read(a, before).value)
  {
    if a == "" {
      assert a + b == b;
    } else {
      assert (a + b)[1..] == a[1..] + b;
      ReadConcat(a[1..], b, if a[0] == '-' then before else 16 * before + DigitValue(a[0]).value);
    }
  }

  lemma {:induction false} ReadBytesConcat(a: seq<nat>, b: seq<nat>, before: nat)
    ensures ReadBytes(a + b, before) == ReadBytes(b, ReadBytes(a, before))
  {
    if a == [] {
      assert a + b == b;
    } else {
      assert (a + b)[1..] == a[1..] + b;
      ReadBytesConcat(a[1..], b, 256 * before + a[0]);
    }
  }

  lemma HexDigitReads(d: nat)
    requires d < 16
    ensures HexDigit(d) != '-' && DigitValue(HexDigit(d)) == Some(d)
  {
  }

  /** The two digits of one byte. */
  lemma PairReads(x: nat, before: nat)
    requires x < 256
    ensures Read([HexDigit(x / 16), HexDigit(x % 16)], before) == Some(256 * before + x)
  {
    hide HexDigit, DigitValue;
    HexDigitReads(x / 16);
    HexDigitReads(x % 16);
    var high, low := [HexDigit(x / 16)], [HexDigit(x % 16)];
    assert high[1..] == "" && low[1..] == "";
    assert Read(high, before) == Some(16 * before + x / 16);
    assert Read(low, 16 * before + x / 16) == Some(256 * before + x);
    ReadConcat(high, low, before);
    assert high + low == [HexDigit(x / 16), HexDigit(x % 16)];
  }

  lemma {:induction false} HexReads(bytes: seq<nat>, before: nat)
    requires forall k :: 0 <= k < |bytes| ==> bytes[k] < 256
    ensures Read(Hex(bytes), before) == Some(ReadBytes(bytes, before))
  {
    hide HexDigit, Read;
    if bytes == [] {
      ReadNothing(before);
    } else {
      PairReads(bytes[0], before);
      ReadConcat([HexDigit(bytes[0] / 16), HexDigit(bytes[0] % 16)], Hex(bytes[1..]), before);
      HexReads(bytes[1..], 256 * before + bytes[0]);
    }
  }

  lemma ReadNothing(before: nat)
    ensures Read("", before) == Some(before)
  {
  }

  lemma {:induction false} HexHasNoDash(bytes: seq<nat>)
    requires forall k :: 0 <= k < |bytes| ==> bytes[k] < 256
    ensures '-' !in Hex(bytes)
  {
    hide HexDigit;
    if bytes != [] {
      HexDigitReads(bytes[0] / 16);
      HexDigitReads(bytes[0] % 16);
      HexHasNoDash(bytes[1..]);
    }
  }

  /** One more dash and group, read after what has been read so far. */
  lemma GroupReads(text: string, a: seq<nat>, b: seq<nat>)
    requires Read(text, 0) == Some(ReadBytes(a, 0)) && forall k :: 0 <= k < |b| ==> b[k] < 256
    ensures Read(text + "-" + Hex(b), 0) == Some(ReadBytes(a + b, 0))
  {
    hide Hex;
    var group := "-" + Hex(b);
    assert text + "-" + Hex(b) == text + group && group[1..] == Hex(b);
    ReadConcat(text, group, 0);
    HexReads(b, ReadBytes(a, 0));
    ReadBytesConcat(a, b, 0);
  }

  lemma {:induction false} BigEndianReads(n: nat, len: nat)
    requires n < Pow256(len)
    ensures ReadBytes(BigEndian(n, len), 0) == n
  {
    if len > 0 {
      BigEndianReads(n / 256, len - 1);
      ReadBytesConcat(BigEndian(n / 256, len - 1), [n % 256], 0);
    }
  }

  lemma FormatDashes(b: seq<nat>)
    requires |b| == 16 && forall k :: 0 <= k < 16 ==> b[k] < 256
    ensures forall k :: 0 <= k < 36 ==> (Format(b)[k] == '-' <==> k in {8, 13, 18, 23})
  {
    hide Hex;
    HexHasNoDash(b[0..4]);
    HexHasNoDash(b[4..6]);
    HexHasNoDash(b[6..8]);
    HexHasNoDash(b[8..10]);
    HexHasNoDash(b[10..16]);
  }

  lemma FormatReads(b: seq<nat>)
    requires |b| == 16 && forall k :: 0 <= k < 16 ==> b[k] < 256
    ensures Read(Format(b), 0) == Some(ReadBytes(b, 0))
  {
    hide Hex, Read, ReadBytes;
    HexReads(b[0..4], 0);
    var s := Hex(b[0..4]);
    GroupReads(s, b[0..4], b[4..6]);
    assert b[0..4] + b[4..6] == b[0..6];
    GroupReads(s + "-" + Hex(b[4..6]), b[0..6], b[6..8]);
    assert b[0..6] + b[6..8] == b[0..8];
    GroupReads(s + "-" + Hex(b[4..6]) + "-" + Hex(b[6..8]), b[0..8], b[8..10]);
    assert b[0..8] + b[8..10] == b[0..10];
    GroupReads(s + "-" + Hex(b[4..6]) + "-" + Hex(b[6..8]) + "-" + Hex(b[8..10]), b[0..10], b[10..16]);
    assert b[0..10] + b[10..16] == b;
  }

  /** The text of a UUID reads back as that UUID: 32 lower-case digits, and dashes at 8, 13, 18 and 23 only. */
  lemma TextReadsBack(id: UUID)
    ensures |Text(id)| == 36
    ensures forall k :: 0 <= k < 36 ==> (Text(id)[k] == '-' <==> k in {8, 13, 18, 23})
    ensures Read(Text(id), 0) == Some(id)
  {
    SixteenBytes();
    FormatDashes(BigEndian(id, 16));
    FormatReads(BigEndian(id, 16));
    BigEndianReads(id, 16);
  }
}
