/** `base64EncodeSafe`: the "base64" encoding of section 4 of RFC 4648, with
    padding, followed by the swaps '/' to '_' and '+' to '-', which leaves text in
    the "base64url" alphabet of section 5 of RFC 4648 with its '=' padding kept.
    `Decode` is the standard section 4 decoder, an independent reference used to
    show that the encoding loses nothing. */
module Base64 {
  import opened Wrappers
  import Text

  /** An octet, as the value 0 to 255. */
  type Byte = x: int | 0 <= x < 256

  /** A six-bit group, the value of one encoded character. */
  type Sextet = v: int | 0 <= v < 64

  predicate IsStdChar(c: char) {
    'A' <= c <= 'Z' || 'a' <= c <= 'z' || '0' <= c <= '9' || c == '+' || c == '/'
  }

  predicate IsUrlChar(c: char) {
    'A' <= c <= 'Z' || 'a' <= c <= 'z' || '0' <= c <= '9' || c == '-' || c == '_'
  }

  /** The section 4 alphabet: A-Z, a-z, 0-9, '+', '/' for the values 0 to 63. */
  function StdChar(v: Sextet): (c: char)
    ensures IsStdChar(c) && StdValue(c) == v
  {
    if v < 26 then ('A' as int + v) as char
    else if v < 52 then ('a' as int + (v - 26)) as char
    else if v < 62 then ('0' as int + (v - 52)) as char
    else if v == 62 then '+'
    else '/'
  }

  function StdValue(c: char): (v: Sextet)
    requires IsStdChar(c)
  {
    if 'A' <= c <= 'Z' then c as int - 'A' as int
    else if 'a' <= c <= 'z' then c as int - 'a' as int + 26
    else if '0' <= c <= '9' then c as int - '0' as int + 52
    else if c == '+' then 62
    else 63
  }

  /** The number of '=' characters that end the encoding of `n` bytes. */
  function Padding(n: nat): (p: nat) {
    if n % 3 == 0 then 0 else 3 - n % 3
  }

  /** Four characters for every started group of three bytes. */
  function EncodedLength(n: nat): (len: nat) {
    4 * ((n + 2) / 3)
  }

  /** Three bytes, as 24 bits, become four sextets. */
  function EncodeQuantum(b0: Byte, b1: Byte, b2: Byte): (q: string)
    ensures |q| == 4 && forall i :: 0 <= i < 4 ==> IsStdChar(q[i])
  {
    [ StdChar(b0 / 4),
      StdChar(b0 % 4 * 16 + b1 / 16),
      StdChar(b1 % 16 * 4 + b2 / 64),
      StdChar(b2 % 64) ]
  }

  /** A last single byte: two characters and "==". */
  function EncodeOne(b0: Byte): (q: string)
    ensures |q| == 4 && IsStdChar(q[0]) && IsStdChar(q[1]) && q[2] == '=' && q[3] == '='
  {
    [StdChar(b0 / 4), StdChar(b0 % 4 * 16), '=', '=']
  }

  /** Two last bytes: three characters and "=". */
  function EncodeTwo(b0: Byte, b1: Byte): (q: string)
    ensures |q| == 4 && IsStdChar(q[0]) && IsStdChar(q[1]) && IsStdChar(q[2]) && q[3] == '='
  {
    [StdChar(b0 / 4), StdChar(b0 % 4 * 16 + b1 / 16), StdChar(b1 % 16 * 4), '=']
  }

  function EncodeTail(b: seq<Byte>): (s: string)
    requires |b| < 3
    ensures |s| == EncodedLength(|b|)
    ensures forall i :: 0 <= i < |s| ==> (s[i] == '=' <==> |s| - Padding(|b|) <= i)
    ensures forall i :: 0 <= i < |s| ==> s[i] == '=' || IsStdChar(s[i])
  {
    if |b| == 0 then ""
    else if |b| == 1 then EncodeOne(b[0])
    else EncodeTwo(b[0], b[1])
  }

  /** `Base64.getEncoder().encode`: whole groups of three bytes, then one or
      two remaining bytes padded with "==" or "=". */
  function Encode(b: seq<Byte>): (s: string)
    ensures |s| == EncodedLength(|b|)
    ensures forall i :: 0 <= i < |s| ==> (s[i] == '=' <==> |s| - Padding(|b|) <= i)
    ensures forall i :: 0 <= i < |s| ==> s[i] == '=' || IsStdChar(s[i])
    ensures |b| % 3 == 1 ==> IsStdChar(s[|s| - 3]) && StdValue(s[|s| - 3]) % 16 == 0
    ensures |b| % 3 == 2 ==> IsStdChar(s[|s| - 2]) && StdValue(s[|s| - 2]) % 4 == 0
    decreases |b|
  {
    if |b| < 3 then EncodeTail(b)
    else
      var q, rest := EncodeQuantum(b[0], b[1], b[2]), Encode(b[3..]);
      assert |b[3..]| % 3 == |b| % 3;
      assert Padding(|b|) == Padding(|b| - 3) <= |rest|;
      assert EncodedLength(|b|) == 4 + |rest|;
      PaddedConcat(q, rest, Padding(|b|));
      q + rest
  }

  /** Prefixing a full quantum keeps the padding at the end. */
  lemma PaddedConcat(q: string, rest: string, p: nat)
    requires |q| == 4 && forall i :: 0 <= i < 4 ==> IsStdChar(q[i])
    requires p <= |rest|
    requires forall i :: 0 <= i < |rest| ==> (rest[i] == '=' <==> |rest| - p <= i)
    requires forall i :: 0 <= i < |rest| ==> rest[i] == '=' || IsStdChar(rest[i])
    ensures forall i :: 0 <= i < |q + rest| ==> ((q + rest)[i] == '=' <==> |q + rest| - p <= i)
    ensures forall i :: 0 <= i < |q + rest| ==> (q + rest)[i] == '=' || IsStdChar((q + rest)[i])
  {
    forall i | 0 <= i < |q + rest|
      ensures ((q + rest)[i] == '=' <==> |q + rest| - p <= i)
      ensures (q + rest)[i] == '=' || IsStdChar((q + rest)[i])
    {
      if i >= 4 {
        assert (q + rest)[i] == rest[i - 4];
      }
    }
  }

  /** The library's sanitiser: the standard encoding with '/' and '+' swapped out. */
  function EncodeSafe(b: seq<Byte>): (s: string)
    ensures |s| == EncodedLength(|b|)
    ensures |b| == 0 <==> s == ""
    ensures forall i :: 0 <= i < |s| ==> (s[i] == '=' <==> |s| - Padding(|b|) <= i)
    ensures forall i :: 0 <= i < |s| ==> s[i] == '=' || IsUrlChar(s[i])
    ensures '/' !in s && '+' !in s && ',' !in s
  {
    Text.Replace(Text.Replace(Encode(b), '/', '_'), '+', '-')
  }

  /** Undoes the swaps: '_' back to '/' and '-' back to '+'. */
  function Unsanitize(s: string): (t: string) {
    Text.Replace(Text.Replace(s, '_', '/'), '-', '+')
  }

  /** Four characters of the section 4 alphabet become three bytes. */
  function DecodeQuantum(q: string): (r: Option<seq<Byte>>)
    requires |q| == 4
  {
    if IsStdChar(q[0]) && IsStdChar(q[1]) && IsStdChar(q[2]) && IsStdChar(q[3]) then
      var v0, v1, v2, v3 := StdValue(q[0]), StdValue(q[1]), StdValue(q[2]), StdValue(q[3]);
      Some([v0 * 4 + v1 / 16, v1 % 16 * 16 + v2 / 4, v2 % 4 * 64 + v3])
    else
      None
  }

  /** The last quantum may carry one or two '=' of padding. */
  function DecodeFinalQuantum(q: string): (r: Option<seq<Byte>>)
    requires |q| == 4
  {
    if IsStdChar(q[0]) && IsStdChar(q[1]) && q[2] == '=' && q[3] == '=' then
      Some([StdValue(q[0]) * 4 + StdValue(q[1]) / 16])
    else if IsStdChar(q[0]) && IsStdChar(q[1]) && IsStdChar(q[2]) && q[3] == '=' then
      var v0, v1, v2 := StdValue(q[0]), StdValue(q[1]), StdValue(q[2]);
      Some([v0 * 4 + v1 / 16, v1 % 16 * 16 + v2 / 4])
    else
      DecodeQuantum(q)
  }

  /** Standard section 4 decoding of padded text; `None` for text that is not such an encoding. */
  function Decode(s: string): (r: Option<seq<Byte>>)
    decreases |s|
  {
    if |s| == 0 then Some([])
    else if |s| < 4 then None
    else if |s| == 4 then DecodeFinalQuantum(s)
    else
      match DecodeQuantum(s[..4])
      case None => None
      case Some(q) =>
        match Decode(s[4..])
        case None => None
        case Some(rest) => Some(q + rest)
  }

  lemma QuantumRoundTrip(b0: Byte, b1: Byte, b2: Byte)
    ensures DecodeQuantum(EncodeQuantum(b0, b1, b2)) == Some([b0, b1, b2])
  {
    var q := EncodeQuantum(b0, b1, b2);
    var v1: Sextet, v2: Sextet := b0 % 4 * 16 + b1 / 16, b1 % 16 * 4 + b2 / 64;
    assert StdValue(q[0]) == b0 / 4 && StdValue(q[1]) == v1;
    assert StdValue(q[2]) == v2 && StdValue(q[3]) == b2 % 64;
    assert v1 / 16 == b0 % 4 && v1 % 16 == b1 / 16;
    assert v2 / 4 == b1 % 16 && v2 % 4 == b2 / 64;
  }

  /** A full quantum is also decoded as such when it is the last one. */
  lemma FinalQuantumRoundTrip(b0: Byte, b1: Byte, b2: Byte)
    ensures Decode(EncodeQuantum(b0, b1, b2)) == Some([b0, b1, b2])
  {
    var q := EncodeQuantum(b0, b1, b2);
    assert DecodeFinalQuantum(q) == DecodeQuantum(q);
    QuantumRoundTrip(b0, b1, b2);
  }

  lemma OneRoundTrip(b0: Byte)
    ensures Decode(EncodeOne(b0)) == Some([b0])
  {
    var q := EncodeOne(b0);
    var v0: Sextet, v1: Sextet := b0 / 4, b0 % 4 * 16;
    assert StdValue(q[0]) == v0 && StdValue(q[1]) == v1;
    assert v0 * 4 + v1 / 16 == b0;
    assert Decode(q) == DecodeFinalQuantum(q);
  }

  lemma TwoRoundTrip(b0: Byte, b1: Byte)
    ensures Decode(EncodeTwo(b0, b1)) == Some([b0, b1])
  {
    var q := EncodeTwo(b0, b1);
    assert Decode(q) == DecodeFinalQuantum(q);
    assert DecodeFinalQuantum(q) == Some([b0, b1]) by {
      var v0: Sextet, v1: Sextet, v2: Sextet := b0 / 4, b0 % 4 * 16 + b1 / 16, b1 % 16 * 4;
      assert StdValue(q[0]) == v0 && StdValue(q[1]) == v1 && StdValue(q[2]) == v2;
      assert v0 * 4 + v1 / 16 == b0;
      assert v1 % 16 * 16 + v2 / 4 == b1;
    }
  }

  lemma TailRoundTrip(b: seq<Byte>)
    requires |b| < 3
    ensures Decode(EncodeTail(b)) == Some(b)
  {
    if |b| == 1 {
      OneRoundTrip(b[0]);
      assert [b[0]] == b;
    } else if |b| == 2 {
      TwoRoundTrip(b[0], b[1]);
      assert [b[0], b[1]] == b;
    }
  }

  /** A leading full quantum decodes on its own, ahead of the rest. */
  lemma DecodeLeadingQuantum(q: string, rest: string)
    requires |q| == 4 && |rest| >= 4
    ensures Decode(q + rest) ==
      match DecodeQuantum(q)
      case None => None
      case Some(x) =>
        match Decode(rest)
        case None => None
        case Some(y) => Some(x + y)
  {
    assert (q + rest)[..4] == q && (q + rest)[4..] == rest;
  }

  /** Standard decoding inverts the standard encoding. */
  lemma {:induction false} EncodeRoundTrip(b: seq<Byte>)
    ensures Decode(Encode(b)) == Some(b)
    decreases |b|
  {
    if |b| < 3 {
      TailRoundTrip(b);
    } else if |b| == 3 {
      assert Encode(b) == EncodeQuantum(b[0], b[1], b[2]) by {
        assert b[3..] == [];
      }
      FinalQuantumRoundTrip(b[0], b[1], b[2]);
      assert [b[0], b[1], b[2]] == b;
    } else {
      var q, rest := EncodeQuantum(b[0], b[1], b[2]), Encode(b[3..]);
      assert Encode(b) == q + rest;
      assert Decode(q + rest) == Some([b[0], b[1], b[2]] + b[3..]) by {
        DecodeLeadingQuantum(q, rest);
        QuantumRoundTrip(b[0], b[1], b[2]);
        EncodeRoundTrip(b[3..]);
      }
      assert [b[0], b[1], b[2]] + b[3..] == b;
    }
  }

  /** The sanitised text turns back into the standard encoding once the swaps are undone. */
  lemma UnsanitizeEncodeSafe(b: seq<Byte>)
    ensures Unsanitize(EncodeSafe(b)) == Encode(b)
  {
    var s := Encode(b);
    var u := Unsanitize(EncodeSafe(b));
    assert |u| == |s|;
    forall i | 0 <= i < |s|
      ensures u[i] == s[i]
    {
      assert s[i] == '=' || IsStdChar(s[i]);
    }
  }

  /** Round trip of the sanitiser: undoing the swaps and decoding returns the bytes. */
  lemma SafeRoundTrip(b: seq<Byte>)
    ensures Decode(Unsanitize(EncodeSafe(b))) == Some(b)
  {
    UnsanitizeEncodeSafe(b);
    EncodeRoundTrip(b);
  }

  /** Distinct byte strings are never sanitised to the same text. */
  lemma EncodeSafeInjective(a: seq<Byte>, b: seq<Byte>)
    requires EncodeSafe(a) == EncodeSafe(b)
    ensures a == b
  {
    SafeRoundTrip(a);
    SafeRoundTrip(b);
  }
}
