/**
 * The identity's base64url codec: URL-safe base64 (section 5 of RFC 4648)
 * with the trailing '=' padding stripped on encoding and restored on
 * decoding. Decoding follows Python's non-strict `base64.urlsafe_b64decode`:
 * characters outside the alphabet are skipped, a complete pad run ends the
 * input, and a dangling data character or missing padding is an error.
 */
module Base64Url {
  import opened Wrappers
  import Text

  newtype byte = x: int | 0 <= x < 256

  datatype DecodeError = NonAscii | DanglingCharacter | IncorrectPadding

  /** The URL-safe alphabet: A-Z, a-z, 0-9, '-' and '_'. */
  function Alphabet(i: nat): char
    requires i < 64
  {
    if i < 26 then ('A' as int + i) as char
    else if i < 52 then ('a' as int + (i - 26)) as char
    else if i < 62 then ('0' as int + (i - 52)) as char
    else if i == 62 then '-'
    else '_'
  }

  predicate IsUrlSafe(c: char)
  {
    ('A' <= c <= 'Z') || ('a' <= c <= 'z') || ('0' <= c <= '9') || c == '-' || c == '_'
  }

  /** Value of a data character. The decoder first maps '-' to '+' and '_' to
      '/', so both the URL-safe and the standard characters 62 and 63 count. */
  function SextetOf(c: char): (r: Option<nat>)
    ensures r.Some? ==> r.value < 64 && c != '='
  {
    if 'A' <= c <= 'Z' then Some(c as int - 'A' as int)
    else if 'a' <= c <= 'z' then Some(c as int - 'a' as int + 26)
    else if '0' <= c <= '9' then Some(c as int - '0' as int + 52)
    else if c == '-' || c == '+' then Some(62)
    else if c == '_' || c == '/' then Some(63)
    else None
  }

  lemma AlphabetSextet(i: nat)
    requires i < 64
    ensures IsUrlSafe(Alphabet(i)) && SextetOf(Alphabet(i)) == Some(i)
  {
  }

  /** The four characters of three bytes. */
  function Group(b0: byte, b1: byte, b2: byte): string
  {
    [Alphabet(b0 as int / 4), Alphabet(b0 as int % 4 * 16 + b1 as int / 16),
     Alphabet(b1 as int % 16 * 4 + b2 as int / 64), Alphabet(b2 as int % 64)]
  }

  /** Four characters for three bytes, fewer for a short tail, no padding. */
  function EncodeBody(b: seq<byte>): string
    decreases |b|
  {
    if |b| == 0 then ""
    else if |b| == 1 then
      [Alphabet(b[0] as int / 4), Alphabet(b[0] as int % 4 * 16)]
    else if |b| == 2 then
      [Alphabet(b[0] as int / 4), Alphabet(b[0] as int % 4 * 16 + b[1] as int / 16),
       Alphabet(b[1] as int % 16 * 4)]
    else
      Group(b[0], b[1], b[2]) + EncodeBody(b[3..])
  }

  /** The '=' characters the padded encoding ends with. */
  function Padding(n: nat): string
  {
    if n % 3 == 1 then "==" else if n % 3 == 2 then "=" else ""
  }

  /** `base64.urlsafe_b64encode(data)` */
  function StandardEncode(b: seq<byte>): string
  {
    EncodeBody(b) + Padding(|b|)
  }

  lemma {:induction false} EncodeBodyAlphabet(b: seq<byte>)
    ensures forall i :: 0 <= i < |EncodeBody(b)| ==> IsUrlSafe(EncodeBody(b)[i])
    decreases |b|
  {
    if |b| >= 3 {
      EncodeBodyAlphabet(b[3..]);
    }
  }

  lemma {:induction false} EncodeBodyLength(b: seq<byte>)
    ensures |EncodeBody(b)| % 4 == (if |b| % 3 == 1 then 2 else if |b| % 3 == 2 then 3 else 0)
    decreases |b|
  {
    if |b| >= 3 {
      EncodeBodyLength(b[3..]);
      var k, m := |EncodeBody(b[3..])|, |b[3..]|;
      assert |EncodeBody(b)| == k + 4 && |b| == m + 3;
      GroupShift(k, m);
    }
  }

  lemma GroupShift(k: int, m: int)
    ensures (k + 4) % 4 == k % 4 && (m + 3) % 3 == m % 3
  {
  }

  /** Padding characters are '=' throughout. */
  lemma PaddingIsPad(n: nat)
    ensures forall i :: 0 <= i < |Padding(n)| ==> Padding(n)[i] == '='
  {
  }

  /** `rstrip('=')` removes exactly an appended run of '='. */
  lemma {:induction false} RStripPadding(u: string, p: string)
    requires u == [] || u[|u| - 1] != '='
    requires forall i :: 0 <= i < |p| ==> p[i] == '='
    ensures Text.RStripChar(u + p, '=') == u
    decreases |p|
  {
    if p == [] {
      assert u + p == u;
    } else {
      var q := p[..|p| - 1];
      assert (u + p)[..|u + p| - 1] == u + q;
      RStripPadding(u, q);
    }
  }

  /** `_b64url(data)`: the padded encoding with its trailing '=' stripped. */
  function Encode(b: seq<byte>): (s: string)
    ensures s == EncodeBody(b)
    ensures '=' !in s
    ensures forall i :: 0 <= i < |s| ==> IsUrlSafe(s[i])
  {
    EncodeBodyAlphabet(b);
    PaddingIsPad(|b|);
    RStripPadding(EncodeBody(b), Padding(|b|));
    Text.RStripChar(StandardEncode(b), '=')
  }

  function Repeat(c: char, n: nat): (s: string)
    ensures |s| == n && forall i :: 0 <= i < n ==> s[i] == c
  {
    if n == 0 then "" else [c] + Repeat(c, n - 1)
  }

  /** Python's non-strict base64 decoding loop. `quad` is the position within
      the current group of four, `left` the bits not yet emitted and `pads` the
      length of the current run of '='. */
  function Run(s: string, quad: nat, left: nat, pads: nat, out: seq<byte>): Result<seq<byte>, DecodeError>
    requires quad < 4 && left < 64
    decreases |s|
  {
    if s == [] then
      if quad == 0 then Ok(out) else if quad == 1 then Err(DanglingCharacter) else Err(IncorrectPadding)
    else if s[0] == '=' then
      if quad >= 2 && quad + pads + 1 >= 4 then Ok(out)
      else Run(s[1..], quad, left, if quad >= 2 then pads + 1 else pads, out)
    else
      match SextetOf(s[0])
      case None => Run(s[1..], quad, left, pads, out)
      case Some(v) =>
        if quad == 0 then Run(s[1..], 1, v, 0, out)
        else if quad == 1 then Run(s[1..], 2, v % 16, 0, out + [(left * 4 + v / 16) as byte])
        else if quad == 2 then Run(s[1..], 3, v % 4, 0, out + [(left % 16 * 16 + v / 4) as byte])
        else Run(s[1..], 0, 0, 0, out + [(left % 4 * 64 + v) as byte])
  }

  /** `base64.urlsafe_b64decode(s)`: a str argument must be ASCII. */
  function StandardDecode(s: string): Result<seq<byte>, DecodeError>
  {
    if exists i :: 0 <= i < |s| && s[i] as int >= 128 then Err(NonAscii)
    else Run(s, 0, 0, 0, [])
  }

  /** `_b64url_decode(s)`: pad to a multiple of four, then decode. */
  function Decode(s: string): Result<seq<byte>, DecodeError>
  {
    var padding := 4 - |s| % 4;
    var padded := if padding != 4 then s + Repeat('=', padding) else s;
    StandardDecode(padded)
  }

  /** The bytes three sextets and a fourth stand for, as the decoder emits them. */
  lemma Regroup(b0: int, b1: int, b2: int)
    requires 0 <= b0 < 256 && 0 <= b1 < 256 && 0 <= b2 < 256
    ensures b0 / 4 < 64 && b0 % 4 * 16 + b1 / 16 < 64 && b1 % 16 * 4 + b2 / 64 < 64 && b2 % 64 < 64
    ensures b0 / 4 * 4 + (b0 % 4 * 16 + b1 / 16) / 16 == b0
    ensures (b0 % 4 * 16 + b1 / 16) % 16 == b1 / 16
    ensures b1 / 16 * 16 + (b1 % 16 * 4 + b2 / 64) / 4 == b1
    ensures (b1 % 16 * 4 + b2 / 64) % 4 == b2 / 64
    ensures b2 / 64 * 64 + b2 % 64 == b2
  {
  }

  /** One data character advances the decoder by one position. */
  lemma RunData(c: char, rest: string, quad: nat, left: nat, pads: nat, out: seq<byte>)
    requires quad < 4 && left < 64 && SextetOf(c).Some?
    ensures var v := SextetOf(c).value;
      Run([c] + rest, quad, left, pads, out) ==
        if quad == 0 then Run(rest, 1, v, 0, out)
        else if quad == 1 then Run(rest, 2, v % 16, 0, out + [(left * 4 + v / 16) as byte])
        else if quad == 2 then Run(rest, 3, v % 4, 0, out + [(left % 16 * 16 + v / 4) as byte])
        else Run(rest, 0, 0, 0, out + [(left % 4 * 64 + v) as byte])
  {
    assert ([c] + rest)[0] == c && ([c] + rest)[1..] == rest;
  }

  /** The first two characters of a group emit its first byte. */
  lemma RunFirstPair(a0: char, a1: char, rest: string, out: seq<byte>)
    requires SextetOf(a0).Some? && SextetOf(a1).Some?
    ensures var v0, v1 := SextetOf(a0).value, SextetOf(a1).value;
      Run([a0] + ([a1] + rest), 0, 0, 0, out) == Run(rest, 2, v1 % 16, 0, out + [(v0 * 4 + v1 / 16) as byte])
  {
    var v0 := SextetOf(a0).value;
    RunData(a0, [a1] + rest, 0, 0, 0, out);
    RunData(a1, rest, 1, v0, 0, out);
  }

  /** The last two characters of a group emit its other two bytes. */
  lemma RunSecondPair(a2: char, a3: char, rest: string, left: nat, out: seq<byte>)
    requires left < 16 && SextetOf(a2).Some? && SextetOf(a3).Some?
    ensures var v2, v3 := SextetOf(a2).value, SextetOf(a3).value;
      Run([a2] + ([a3] + rest), 2, left, 0, out) ==
        Run(rest, 0, 0, 0, out + [(left * 16 + v2 / 4) as byte, (v2 % 4 * 64 + v3) as byte])
  {
    var v2, v3 := SextetOf(a2).value, SextetOf(a3).value;
    assert left % 16 == left;
    var o1 := out + [(left * 16 + v2 / 4) as byte];
    RunData(a2, [a3] + rest, 2, left, 0, out);
    RunData(a3, rest, 3, v2 % 4, 0, o1);
    assert o1 + [(v2 % 4 * 64 + v3) as byte] == out + [(left * 16 + v2 / 4) as byte, (v2 % 4 * 64 + v3) as byte];
  }

  /** Four data characters decode to three bytes. */
  lemma RunQuad(a0: char, a1: char, a2: char, a3: char, rest: string, out: seq<byte>)
    requires SextetOf(a0).Some? && SextetOf(a1).Some? && SextetOf(a2).Some? && SextetOf(a3).Some?
    ensures var v0, v1, v2, v3 := SextetOf(a0).value, SextetOf(a1).value, SextetOf(a2).value, SextetOf(a3).value;
      Run([a0, a1, a2, a3] + rest, 0, 0, 0, out) ==
        Run(rest, 0, 0, 0, out + [(v0 * 4 + v1 / 16) as byte, (v1 % 16 * 16 + v2 / 4) as byte, (v2 % 4 * 64 + v3) as byte])
  {
    var v0, v1 := SextetOf(a0).value, SextetOf(a1).value;
    var tail := [a2] + ([a3] + rest);
    assert [a0, a1, a2, a3] + rest == [a0] + ([a1] + tail);
    var o1 := out + [(v0 * 4 + v1 / 16) as byte];
    RunFirstPair(a0, a1, tail, out);
    RunSecondPair(a2, a3, rest, v1 % 16, o1);
    var v2, v3 := SextetOf(a2).value, SextetOf(a3).value;
    assert o1 + [(v1 % 16 * 16 + v2 / 4) as byte, (v2 % 4 * 64 + v3) as byte] ==
      out + [(v0 * 4 + v1 / 16) as byte, (v1 % 16 * 16 + v2 / 4) as byte, (v2 % 4 * 64 + v3) as byte];
  }

  /** The three bytes of one group of input. */
  predicate GroupOf(a0: char, a1: char, a2: char, a3: char, x: seq<byte>)
  {
    && SextetOf(a0).Some? && SextetOf(a1).Some? && SextetOf(a2).Some? && SextetOf(a3).Some?
    && var v0, v1, v2, v3 := SextetOf(a0).value, SextetOf(a1).value, SextetOf(a2).value, SextetOf(a3).value;
    && |x| == 3
    && x[0] as int == v0 * 4 + v1 / 16 && x[1] as int == v1 % 16 * 16 + v2 / 4 && x[2] as int == v2 % 4 * 64 + v3
  }

  /** The three bytes a group of input characters stands for. */
  lemma EncodeGroup(b: seq<byte>)
    requires |b| >= 3
    ensures var e := EncodeBody(b[..3]); |e| == 4 && GroupOf(e[0], e[1], e[2], e[3], b[..3])
  {
    var b0, b1, b2 := b[0] as int, b[1] as int, b[2] as int;
    Regroup(b0, b1, b2);
    var c0, c1, c2, c3 := b0 / 4, b0 % 4 * 16 + b1 / 16, b1 % 16 * 4 + b2 / 64, b2 % 64;
    AlphabetSextet(c0);
    AlphabetSextet(c1);
    AlphabetSextet(c2);
    AlphabetSextet(c3);
    assert EncodeBody(b[..3]) == [Alphabet(c0), Alphabet(c1), Alphabet(c2), Alphabet(c3)] by {
      assert b[..3][3..] == [];
    }
  }

  /** One full group of four characters decodes to its three bytes. */
  lemma RunGroup(b: seq<byte>, rest: string, out: seq<byte>)
    requires |b| >= 3
    ensures Run(EncodeBody(b[..3]) + rest, 0, 0, 0, out) == Run(rest, 0, 0, 0, out + b[..3])
  {
    var e := EncodeBody(b[..3]);
    EncodeGroup(b);
    RunQuad(e[0], e[1], e[2], e[3], rest, out);
    assert e == [e[0], e[1], e[2], e[3]];
    var x := b[..3];
    assert out + [x[0], x[1], x[2]] == out + x;
  }

  /** A one-byte tail: two characters and "==". */
  lemma RunTail1(b: seq<byte>, out: seq<byte>)
    requires |b| == 1
    ensures Run(StandardEncode(b), 0, 0, 0, out) == Ok(out + b)
  {
    var b0 := b[0] as int;
    Regroup(b0, 0, 0);
    AlphabetSextet(b0 / 4);
    AlphabetSextet(b0 % 4 * 16);
    var s0 := StandardEncode(b);
    assert s0 == [Alphabet(b0 / 4), Alphabet(b0 % 4 * 16), '=', '='];
    var o1 := out + [b[0]];
    assert o1 == out + b;
    assert Run(s0[3..], 2, 0, 1, o1) == Ok(o1);
    assert Run(s0[2..], 2, 0, 0, o1) == Ok(o1);
    assert Run(s0[1..], 1, b0 / 4, 0, out) == Ok(o1);
  }

  /** The two bytes three input characters stand for. */
  predicate PairOf(a0: char, a1: char, a2: char, x: seq<byte>)
  {
    && SextetOf(a0).Some? && SextetOf(a1).Some? && SextetOf(a2).Some?
    && var v0, v1, v2 := SextetOf(a0).value, SextetOf(a1).value, SextetOf(a2).value;
    && |x| == 2
    && x[0] as int == v0 * 4 + v1 / 16 && x[1] as int == v1 % 16 * 16 + v2 / 4
  }

  lemma EncodeTail2(b: seq<byte>)
    requires |b| == 2
    ensures var e := StandardEncode(b); |e| == 4 && e[3] == '=' && PairOf(e[0], e[1], e[2], b)
  {
    var b0, b1 := b[0] as int, b[1] as int;
    Regroup(b0, b1, 0);
    var c0, c1, c2 := b0 / 4, b0 % 4 * 16 + b1 / 16, b1 % 16 * 4;
    AlphabetSextet(c0);
    AlphabetSextet(c1);
    AlphabetSextet(c2);
    assert StandardEncode(b) == [Alphabet(c0), Alphabet(c1), Alphabet(c2), '='];
  }

  /** Three data characters and one '=' decode to two bytes. */
  lemma RunTriple(a0: char, a1: char, a2: char, out: seq<byte>)
    requires SextetOf(a0).Some? && SextetOf(a1).Some? && SextetOf(a2).Some?
    ensures var v0, v1, v2 := SextetOf(a0).value, SextetOf(a1).value, SextetOf(a2).value;
      Run([a0] + ([a1] + ([a2] + "=")), 0, 0, 0, out) ==
        Ok(out + [(v0 * 4 + v1 / 16) as byte, (v1 % 16 * 16 + v2 / 4) as byte])
  {
    var v0, v1, v2 := SextetOf(a0).value, SextetOf(a1).value, SextetOf(a2).value;
    RunFirstPair(a0, a1, [a2] + "=", out);
    var o1 := out + [(v0 * 4 + v1 / 16) as byte];
    RunData(a2, "=", 2, v1 % 16, 0, o1);
    var o2 := o1 + [(v1 % 16 * 16 + v2 / 4) as byte];
    assert Run("=", 3, v2 % 4, 0, o2) == Ok(o2);
    assert o2 == out + [(v0 * 4 + v1 / 16) as byte, (v1 % 16 * 16 + v2 / 4) as byte];
  }

  /** A two-byte tail: three characters and "=". */
  lemma RunTail2(b: seq<byte>, out: seq<byte>)
    requires |b| == 2
    ensures Run(StandardEncode(b), 0, 0, 0, out) == Ok(out + b)
  {
    var e := StandardEncode(b);
    EncodeTail2(b);
    RunTriple(e[0], e[1], e[2], out);
    assert e == [e[0]] + ([e[1]] + ([e[2]] + "="));
    assert out + [b[0], b[1]] == out + b;
  }

  /** The encoding of a long input is its first group's and the rest's. */
  lemma EncodeBodySplit(b: seq<byte>)
    requires |b| >= 3
    ensures EncodeBody(b) == EncodeBody(b[..3]) + EncodeBody(b[3..])
  {
    var g := b[..3];
    assert g[3..] == [] && g[0] == b[0] && g[1] == b[1] && g[2] == b[2];
    assert EncodeBody(g) == Group(b[0], b[1], b[2]) + "";
  }

  lemma PaddingShift(n: nat)
    requires n >= 3
    ensures Padding(n) == Padding(n - 3)
  {
  }

  /** Decoding the padded encoding of `b` after `out` yields `out + b`. */
  lemma {:induction false} RunStandardEncode(b: seq<byte>, out: seq<byte>)
    ensures Run(StandardEncode(b), 0, 0, 0, out) == Ok(out + b)
    decreases |b|
  {
    if |b| == 0 {
      assert StandardEncode(b) == "";
      assert out + b == out;
    } else if |b| == 1 {
      RunTail1(b, out);
    } else if |b| == 2 {
      RunTail2(b, out);
    } else {
      var rest := StandardEncode(b[3..]);
      EncodeBodySplit(b);
      PaddingShift(|b|);
      assert StandardEncode(b) == EncodeBody(b[..3]) + rest;
      RunGroup(b, rest, out);
      RunStandardEncode(b[3..], out + b[..3]);
      assert out + b[..3] + b[3..] == out + b;
    }
  }

  /** Restoring the padding of a stripped encoding gives the padded one. */
  lemma RepadEncode(b: seq<byte>)
    ensures var s := Encode(b);
      (if 4 - |s| % 4 != 4 then s + Repeat('=', 4 - |s| % 4) else s) == StandardEncode(b)
  {
    EncodeBodyLength(b);
    var s := Encode(b);
    if |b| % 3 == 1 {
      assert Repeat('=', 2) == "==";
    } else if |b| % 3 == 2 {
      assert Repeat('=', 1) == "=";
    }
  }

  /** The padded encoding is ASCII. */
  lemma StandardEncodeAscii(b: seq<byte>)
    ensures forall i :: 0 <= i < |StandardEncode(b)| ==> StandardEncode(b)[i] as int < 128
  {
    var s := StandardEncode(b);
    EncodeBodyAlphabet(b);
    PaddingIsPad(|b|);
    forall i | 0 <= i < |s| ensures s[i] as int < 128 {
      if i < |EncodeBody(b)| {
        assert IsUrlSafe(EncodeBody(b)[i]);
      } else {
        assert s[i] == Padding(|b|)[i - |EncodeBody(b)|];
      }
    }
  }

  /** Stripping the padding loses nothing: decoding restores every byte string. */
  lemma RoundTrip(b: seq<byte>)
    ensures Decode(Encode(b)) == Ok(b)
  {
    RepadEncode(b);
    StandardEncodeAscii(b);
    RunStandardEncode(b, []);
    assert [] + b == b;
  }
}
