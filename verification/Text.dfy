/** Decimal and hexadecimal spelling: what `to_string` prints for the numbers and digests that
    become directory names and file names. */
module Text {
  import opened Prelude

  predicate IsDigit(c: char) { '0' <= c <= '9' }

  /** The lower-case hexadecimal digit of value `d`. */
  function Digit(d: nat): char
    requires d < 16
  {
    if d < 10 then ('0' as int + d) as char else ('a' as int + d - 10) as char
  }

  function Decimal(n: nat): (s: string)
    ensures |s| >= 1
    ensures forall i | 0 <= i < |s| :: IsDigit(s[i])
  {
    if n < 10 then [Digit(n)] else Decimal(n / 10) + [Digit(n % 10)]
  }

  function ParseDecimal(s: string): nat
    requires forall i | 0 <= i < |s| :: IsDigit(s[i])
  {
    if s == [] then 0
    else
      assert IsDigit(s[|s| - 1]);
      var last := s[|s| - 1];
      ParseDecimal(s[..|s| - 1]) * 10 + (last as int - '0' as int)
  }

  lemma {:induction false} ParseDecimalInverts(n: nat)
    ensures ParseDecimal(Decimal(n)) == n
  {
    if n < 10 {
      assert ParseDecimal([]) == 0;
    } else {
      ParseDecimalInverts(n / 10);
      assert Decimal(n)[..|Decimal(n)| - 1] == Decimal(n / 10);
    }
  }

  lemma DecimalInjective(m: nat, n: nat)
    requires Decimal(m) == Decimal(n)
    ensures m == n
  {
    ParseDecimalInverts(m);
    ParseDecimalInverts(n);
  }

  /** No leading zeros. */
  lemma {:induction false} DecimalStarts(n: nat)
    ensures if n == 0 then Decimal(n) == "0" else Decimal(n)[0] != '0'
  {
    if n >= 10 {
      DecimalStarts(n / 10);
      assert Decimal(n)[0] == Decimal(n / 10)[0];
    }
  }

  /** Two digits per byte, most significant first. */
  function HexBytes(b: Bytes): (s: string)
    ensures |s| == 2 * |b|
  {
    if b == [] then "" else [Digit(b[0] / 16), Digit(b[0] % 16)] + HexBytes(b[1..])
  }

  function HexValue(c: char): (r: Option<nat>)
    ensures r.Some? ==> r.value < 16
  {
    if '0' <= c <= '9' then Some(c as nat - '0' as nat)
    else if 'a' <= c <= 'f' then Some(c as nat - 'a' as nat + 10)
    else if 'A' <= c <= 'F' then Some(c as nat - 'A' as nat + 10)
    else None
  }

  /** One byte from two characters; a leading `+` is accepted, as Rust's radix parser does. */
  function ParseHexByte(a: char, b: char): Option<Byte> {
    match (HexValue(a), HexValue(b))
    case (Some(hi), Some(lo)) => Some(hi * 16 + lo)
    case (None, Some(lo)) => if a == '+' then Some(lo) else None
    case _ => None
  }

  function ParseHex(s: string): (r: Option<Bytes>)
    requires |s| % 2 == 0
    ensures r.Some? ==> |r.value| * 2 == |s|
    decreases |s|
  {
    if s == "" then Some([])
    else
      match (ParseHexByte(s[0], s[1]), ParseHex(s[2..]))
      case (Some(b), Some(rest)) => Some([b] + rest)
      case _ => None
  }

  lemma ParseHexByteInverts(b: Byte)
    ensures ParseHexByte(Digit(b / 16), Digit(b % 16)) == Some(b)
  {
    assert HexValue(Digit(b / 16)) == Some(b / 16);
    assert HexValue(Digit(b % 16)) == Some(b % 16);
  }

  lemma {:induction false} ParseHexInverts(b: Bytes)
    ensures ParseHex(HexBytes(b)) == Some(b)
  {
    if b != [] {
      hide ParseHexByte;
      ParseHexInverts(b[1..]);
      ParseHexByteInverts(b[0]);
      var s := HexBytes(b);
      assert s[0] == Digit(b[0] / 16) && s[1] == Digit(b[0] % 16) && s[2..] == HexBytes(b[1..]);
      assert [b[0]] + b[1..] == b;
    } else {
      assert b == [] && HexBytes(b) == "";
    }
  }

  // ---- What the spellings are ----

  /** `c` is a hexadecimal digit of value `v`, in either case. */
  ghost predicate HexDigit(c: char, v: nat) {
    v < 16 && (c == "0123456789abcdef"[v] || c == "0123456789ABCDEF"[v])
  }

  /** `a` and `b` spell the byte `v`; a plus sign may stand for the first digit of a small one. */
  ghost predicate SpellByte(a: char, b: char, v: Byte) {
    (HexDigit(a, v / 16) || (a == '+' && v < 16)) && HexDigit(b, v % 16)
  }

  lemma HexValueIs(c: char, v: nat)
    ensures HexValue(c) == Some(v) <==> HexDigit(c, v)
  {}

  lemma NoPlus(v: nat)
    ensures HexValue('+') == None && !HexDigit('+', v)
  {}

  lemma ParseHexByteIs(a: char, b: char, v: Byte)
    ensures ParseHexByte(a, b) == Some(v) <==> SpellByte(a, b, v)
  {
    hide HexValue, HexDigit;
    HexValueIs(a, v / 16);
    HexValueIs(b, v % 16);
    NoPlus(v / 16);
  }

  /** Exactly which strings parse, and to what. */
  lemma {:induction false} ParseHexIff(s: string, b: Bytes)
    requires |s| == 2 * |b|
    ensures ParseHex(s) == Some(b) <==> forall i | 0 <= i < |b| :: SpellByte(s[2 * i], s[2 * i + 1], b[i])
    decreases |s|
  {
    hide ParseHexByte, SpellByte;
    if b != [] {
      ParseHexByteIs(s[0], s[1], b[0]);
      ParseHexIff(s[2..], b[1..]);
      assert b == [b[0]] + b[1..];
      assert forall i | 0 <= i < |b| - 1 ::
        s[2..][2 * i] == s[2 * (i + 1)] && s[2..][2 * i + 1] == s[2 * (i + 1) + 1] && b[1..][i] == b[i + 1];
    }
  }

  /** A digest prints as its bytes in order, in lower case, the high half of each first. */
  lemma {:induction false} HexAt(b: Bytes, i: nat)
    requires i < |b|
    ensures HexBytes(b)[2 * i] == "0123456789abcdef"[b[i] / 16]
    ensures HexBytes(b)[2 * i + 1] == "0123456789abcdef"[b[i] % 16]
  {
    if i > 0 {
      HexAt(b[1..], i - 1);
    }
  }
}
