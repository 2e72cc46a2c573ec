/** The percent-encoded form of a secret value (RFC 3986, section 2.1), which the redactor
    looks for besides the value itself. */
module PercentEncoding {
  import opened Common

  const PERCENT: byte := 0x25

  /** RFC 3986, section 2.3: ALPHA / DIGIT / "-" / "_" / "." / "~". */
  predicate IsUnreserved(b: byte) {
    || 0x30 <= b <= 0x39 || 0x41 <= b <= 0x5A || 0x61 <= b <= 0x7A
    || b == 0x2D || b == 0x5F || b == 0x2E || b == 0x7E
  }

  predicate AllUnreserved(bs: seq<byte>) {
    forall i :: 0 <= i < |bs| ==> IsUnreserved(bs[i])
  }

  /** "0123456789ABCDEF"[n] */
  function HexUpper(n: nat): (c: byte)
    requires n < 16
  {
    if n < 10 then 0x30 + n else 0x41 + (n - 10)
  }

  function EncodeByte(b: byte): seq<byte> {
    if IsUnreserved(b) then [b] else [PERCENT, HexUpper(b / 16), HexUpper(b % 16)]
  }

  function Encode(bs: seq<byte>): seq<byte> {
    if bs == [] then [] else EncodeByte(bs[0]) + Encode(bs[1..])
  }

  lemma {:induction false} EncodeAppend(xs: seq<byte>, ys: seq<byte>)
    ensures Encode(xs + ys) == Encode(xs) + Encode(ys)
  {
    if xs == [] {
      assert xs + ys == ys;
    } else {
      assert (xs + ys)[1..] == xs[1..] + ys;
      EncodeAppend(xs[1..], ys);
    }
  }

  method PercentEncode(bytes: seq<byte>) returns (out: seq<byte>)
    ensures out == Encode(bytes) && IsEncodingOf(out, bytes)
  {
    hide IsEncodingOf;
    out := [];
    for i := 0 to |bytes|
      invariant out == Encode(bytes[..i])
    {
      var b := bytes[i];
      EncodeAppend(bytes[..i], [b]);
      assert bytes[..i + 1] == bytes[..i] + [b];
      if IsUnreserved(b) {
        out := out + [b];
      } else {
        out := out + [PERCENT];
        out := out + [HexUpper(b / 16)];
        out := out + [HexUpper(b % 16)];
      }
    }
    assert bytes[..|bytes|] == bytes;
    EncodeIsEncoding(bytes);
  }

  /** The reader of RFC 3986, section 2.1: "%" HEXDIG HEXDIG stands for one byte, in either
      letter case; every other byte stands for itself. `None` on a malformed triplet. */
  function Decode(cs: seq<byte>): Option<seq<byte>> {
    if cs == [] then Some([])
    else if cs[0] != PERCENT then
      match Decode(cs[1..])
      case None => None
      case Some(rest) => Some([cs[0]] + rest)
    else if |cs| < 3 then None
    else
      match (HexValue(cs[1]), HexValue(cs[2]), Decode(cs[3..]))
      case (Some(hi), Some(lo), Some(rest)) => Some([hi * 16 + lo] + rest)
      case _ => None
  }

  function HexValue(c: byte): (v: Option<nat>)
    ensures v.Some? ==> v.value < 16
  {
    if 0x30 <= c <= 0x39 then Some(c - 0x30)
    else if 0x41 <= c <= 0x46 then Some(c - 0x41 + 10)
    else if 0x61 <= c <= 0x66 then Some(c - 0x61 + 10)
    else None
  }

  // ---- What the encoded form is, whoever computes it -----------------------------------------

  /** The characters of section 2.3. */
  predicate NeedsNoEscape(c: char) {
    'A' <= c <= 'Z' || 'a' <= c <= 'z' || '0' <= c <= '9' || c == '-' || c == '.' || c == '_' || c == '~'
  }

  /** The value of a digit of a normalised triplet (section 2.1): upper case only. */
  function DigitValue(c: char): Option<nat> {
    if '0' <= c <= '9' then Some(c as int - '0' as int)
    else if 'A' <= c <= 'F' then Some(c as int - 'A' as int + 10)
    else None
  }

  predicate IsTriplet(cs: seq<byte>, i: nat) {
    && i + 2 < |cs| && cs[i] == PERCENT
    && var hi, lo := DigitValue(cs[i + 1] as char), DigitValue(cs[i + 2] as char);
       hi.Some? && lo.Some? && hi.value * 16 + lo.value < 256 && !NeedsNoEscape((hi.value * 16 + lo.value) as char)
  }

  /** `cs` reads as `bs`, escapes no unreserved character and every other byte, with upper-case digits. */
  predicate IsEncodingOf(cs: seq<byte>, bs: seq<byte>) {
    && Decode(cs) == Some(bs)
    && forall i :: 0 <= i < |cs| ==> if cs[i] == PERCENT then IsTriplet(cs, i) else NeedsNoEscape(cs[i] as char)
  }

  lemma {:induction false} DecodeEncode(bs: seq<byte>)
    ensures Decode(Encode(bs)) == Some(bs)
  {
    if bs != [] {
      var b, rest := bs[0], Encode(bs[1..]);
      DecodeEncode(bs[1..]);
      assert bs == [b] + bs[1..];
      if IsUnreserved(b) {
        assert ([b] + rest)[1..] == rest;
      } else {
        var hi, lo := b / 16, b % 16;
        assert HexValue(HexUpper(hi)) == Some(hi) && HexValue(HexUpper(lo)) == Some(lo);
        assert ([PERCENT, HexUpper(hi), HexUpper(lo)] + rest)[3..] == rest;
        assert hi * 16 + lo == b;
      }
    }
  }

  /** Two different values never share an encoded form. */
  lemma {:induction false} EncodeInjective(xs: seq<byte>, ys: seq<byte>)
    requires Encode(xs) == Encode(ys)
    ensures xs == ys
  {
    DecodeEncode(xs);
    DecodeEncode(ys);
  }

  /** What the encoder emits: only unreserved bytes and "%", at least one byte for each input
      byte, and the input itself exactly when nothing in it needs escaping. */
  lemma {:induction false} EncodedForm(bs: seq<byte>)
    ensures |bs| <= |Encode(bs)| <= 3 * |bs|
    ensures forall i :: 0 <= i < |Encode(bs)| ==>
              IsUnreserved(Encode(bs)[i]) || Encode(bs)[i] == PERCENT
    ensures Encode(bs) == bs <==> AllUnreserved(bs)
    ensures |Encode(bs)| == |bs| <==> AllUnreserved(bs)
    ensures NEWLINE !in Encode(bs)
  {
    if bs != [] {
      EncodedForm(bs[1..]);
      var e := EncodeByte(bs[0]);
      assert forall i :: 0 <= i < |e| ==> IsUnreserved(e[i]) || e[i] == PERCENT;
      assert bs == [bs[0]] + bs[1..];
      assert AllUnreserved(bs) <==> IsUnreserved(bs[0]) && AllUnreserved(bs[1..]) by {
        assert forall i :: 0 <= i < |bs[1..]| ==> bs[1..][i] == bs[i + 1];
        if IsUnreserved(bs[0]) && AllUnreserved(bs[1..]) {
          forall i | 0 <= i < |bs| ensures IsUnreserved(bs[i]) {
            if i > 0 { assert bs[i] == bs[1..][i - 1]; }
          }
        }
      }
    }
  }

  lemma {:induction false} UnreservedIff(b: byte)
    ensures IsUnreserved(b) <==> NeedsNoEscape(b as char)
  {
  }

  lemma {:induction false} DigitIs(c: byte)
    requires DigitValue(c as char).Some?
    ensures var n := DigitValue(c as char).value; n < 16 && HexUpper(n) == c && HexValue(c) == Some(n)
  {
  }

  lemma {:induction false} UpperIsDigit(n: nat)
    requires n < 16
    ensures DigitValue(HexUpper(n) as char) == Some(n)
  {
  }

  lemma {:induction false} TripletIs(cs: seq<byte>)
    requires |cs| > 0 && IsTriplet(cs, 0)
    ensures HexValue(cs[1]).Some? && HexValue(cs[2]).Some?
    ensures EncodeByte(HexValue(cs[1]).value * 16 + HexValue(cs[2]).value) == cs[..3]
  {
    hide DigitValue, HexValue, HexUpper, NeedsNoEscape, IsUnreserved;
    DigitIs(cs[1]);
    DigitIs(cs[2]);
    var hi, lo := HexValue(cs[1]).value, HexValue(cs[2]).value;
    UnreservedIff(hi * 16 + lo);
    assert (hi * 16 + lo) / 16 == hi && (hi * 16 + lo) % 16 == lo;
  }

  lemma {:induction false} EncodingShifts(cs: seq<byte>, n: nat, bs: seq<byte>, rest: seq<byte>)
    requires n <= |cs| && IsEncodingOf(cs, bs) && Decode(cs[n..]) == Some(rest)
    ensures IsEncodingOf(cs[n..], rest)
  {
    hide Decode, DigitValue, NeedsNoEscape;
    forall i | 0 <= i < |cs[n..]|
      ensures if cs[n..][i] == PERCENT then IsTriplet(cs[n..], i) else NeedsNoEscape(cs[n..][i] as char)
    {
      assert cs[n..][i] == cs[n + i];
    }
  }

  lemma {:induction false} EncodingIsUnique(cs: seq<byte>, bs: seq<byte>)
    requires IsEncodingOf(cs, bs)
    ensures cs == Encode(bs)
    decreases |cs|
  {
    if cs != [] {
      hide IsTriplet, EncodeByte, IsEncodingOf;
      var n := FirstEncoded(cs, bs);
      EncodingShifts(cs, n, bs, bs[1..]);
      EncodingIsUnique(cs[n..], bs[1..]);
      assert cs == cs[..n] + cs[n..];
    } else {
      assert bs == [];
    }
  }

  /** An encoding starts with the encoding of the first byte. */
  lemma {:induction false} FirstEncoded(cs: seq<byte>, bs: seq<byte>) returns (n: nat)
    requires IsEncodingOf(cs, bs) && cs != []
    ensures 0 < n <= |cs| && bs != [] && cs[..n] == EncodeByte(bs[0]) && Decode(cs[n..]) == Some(bs[1..])
  {
    hide DigitValue, HexValue, HexUpper, NeedsNoEscape, IsUnreserved, IsTriplet;
    if cs[0] == PERCENT {
      n := 3;
      assert IsTriplet(cs, 0);
      TripletIs(cs);
    } else {
      n := 1;
      UnreservedIff(cs[0]);
    }
  }

  lemma {:induction false} FirstIsNormal(b: byte, rest: seq<byte>)
    ensures if IsUnreserved(b) then NeedsNoEscape(b as char) && b != PERCENT
            else IsTriplet(EncodeByte(b) + rest, 0) && (forall i :: 1 <= i < 3 ==>
                   EncodeByte(b)[i] != PERCENT && NeedsNoEscape(EncodeByte(b)[i] as char))
  {
    hide HexValue;
    UnreservedIff(b);
    UpperIsDigit(b / 16);
    UpperIsDigit(b % 16);
  }

  lemma {:induction false} EncodeIsEncoding(bs: seq<byte>)
    ensures IsEncodingOf(Encode(bs), bs)
  {
    DecodeEncode(bs);
    if bs != [] {
      EncodeIsEncoding(bs[1..]);
      hide Decode, DigitValue, HexUpper, NeedsNoEscape, IsUnreserved;
      var cs, rest := Encode(bs), Encode(bs[1..]);
      var n := |EncodeByte(bs[0])|;
      FirstIsNormal(bs[0], rest);
      forall i | 0 <= i < |cs|
        ensures if cs[i] == PERCENT then IsTriplet(cs, i) else NeedsNoEscape(cs[i] as char)
      {
        if i >= n {
          assert cs[i] == rest[i - n];
        }
      }
    }
  }

  /** The encoded form of a value is the one text that reads as it, escapes with upper-case digits, and escapes
      exactly the characters that section 2.3 does not call unreserved. */
  lemma {:induction false} EncodeIff(cs: seq<byte>, bs: seq<byte>)
    ensures cs == Encode(bs) <==> IsEncodingOf(cs, bs)
  {
    hide IsEncodingOf;
    EncodeIsEncoding(bs);
    if IsEncodingOf(cs, bs) {
      EncodingIsUnique(cs, bs);
    }
  }
}
