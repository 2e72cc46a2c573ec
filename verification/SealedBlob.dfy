/** The framing of TPM-sealed blobs (src/hsm/tpm2.rs) and the test that recognises them (src/hsm/mod.rs). */
module SealedBlob {
  import opened Common

  type Bytes = seq<byte>

  const WORD := 0x1_0000_0000

  datatype Error = TooShort | TruncatedPublic | TruncatedPrivate

  datatype Pair = Pair(public: Bytes, private: Bytes)

  // ---------------------------------------------------------------------------------------------
  // Little-endian words

  /** A length is cut to 32 bits before it is written. */
  function ToLe(n: nat): (b: Bytes)
    ensures |b| == 4
  {
    [n % 0x100, n / 0x100 % 0x100, n / 0x1_0000 % 0x100, n / 0x100_0000 % 0x100]
  }

  function FromLe(b: Bytes): (n: nat)
    requires |b| == 4
    ensures n < WORD
  {
    b[0] as int + 0x100 * b[1] as int + 0x1_0000 * b[2] as int + 0x100_0000 * b[3] as int
  }

  lemma {:induction false} WordRoundTrip(n: nat)
    ensures FromLe(ToLe(n)) == n % WORD
  {
    var a := n / 0x100;
    var b := a / 0x100;
    var c := b / 0x100;
    assert b == n / 0x1_0000 && c == n / 0x100_0000;
    assert n == n % 0x100 + 0x100 * (a % 0x100 + 0x100 * (b % 0x100 + 0x100 * (c % 0x100 + 0x100 * (c / 0x100))));
    assert n == FromLe(ToLe(n)) + WORD * (c / 0x100);
  }

  lemma {:induction false} BytesRoundTrip(b: Bytes)
    requires |b| == 4
    ensures ToLe(FromLe(b)) == b
  {
    var n := FromLe(b);
    var b1, b2, b3: int := b[1], b[2], b[3];
    assert n / 0x100 == b1 + 0x100 * b2 + 0x1_0000 * b3;
    assert n / 0x1_0000 == b2 + 0x100 * b3;
    assert n / 0x100_0000 == b3;
  }

  // ---------------------------------------------------------------------------------------------
  // Framing

  function Frame(p: Pair): Bytes {
    ToLe(|p.public|) + p.public + (ToLe(|p.private|) + p.private)
  }

  method SerialiseBlob(p: Pair) returns (blob: Bytes)
    ensures blob == Frame(p)
  {
    blob := [];
    blob := blob + ToLe(|p.public|);
    blob := blob + p.public;
    blob := blob + ToLe(|p.private|);
    blob := blob + p.private;
  }

  function DeserialiseBlob(data: Bytes): Result<Pair, Error> {
    if |data| < 8 then Err(TooShort)
    else
      var publicLength := FromLe(data[..4]);
      if |data| < 4 + publicLength + 4 then Err(TruncatedPublic)
      else
        var offset2 := 4 + publicLength;
        var privateLength := FromLe(data[offset2..offset2 + 4]);
        var offset3 := offset2 + 4;
        if |data| < offset3 + privateLength then Err(TruncatedPrivate)
        else Ok(Pair(data[4..offset2], data[offset3..offset3 + privateLength]))
  }

  predicate Short(p: Pair) {
    |p.public| < WORD && |p.private| < WORD
  }

  lemma {:induction false} SplitFrame(p: Pair, tail: Bytes)
    ensures
      var data, n := Frame(p) + tail, |p.public|;
      && |data| == 8 + n + |p.private| + |tail|
      && data[..4] == ToLe(n)
      && data[4..4 + n] == p.public
      && data[4 + n..8 + n] == ToLe(|p.private|)
      && data[8 + n..8 + n + |p.private|] == p.private
  {
  }

  lemma {:induction false} FrameIsRead(p: Pair, tail: Bytes)
    requires Short(p)
    ensures DeserialiseBlob(Frame(p) + tail) == Ok(p)
  {
    hide ToLe, FromLe, Frame;
    SplitFrame(p, tail);
    WordRoundTrip(|p.public|);
    WordRoundTrip(|p.private|);
  }

  lemma {:induction false} ReadIsFramed(data: Bytes, p: Pair)
    requires DeserialiseBlob(data) == Ok(p)
    ensures Short(p) && Frame(p) == data[..|p.public| + |p.private| + 8] <= data
  {
    hide ToLe, FromLe;
    var n, m := |p.public|, |p.private|;
    BytesRoundTrip(data[..4]);
    BytesRoundTrip(data[4 + n..4 + n + 4]);
    var parts := data[..4] + data[4..4 + n] + (data[4 + n..4 + n + 4] + data[4 + n + 4..4 + n + 4 + m]);
    assert Frame(p) == parts;
    forall i | 0 <= i < n + m + 8 ensures parts[i] == data[i] {
    }
    assert parts == data[..n + m + 8];
  }

  /** Reading accepts exactly the frames of pairs whose lengths fit a word, whatever follows them. */
  lemma {:induction false} DeserialisesIff(data: Bytes, p: Pair)
    ensures DeserialiseBlob(data) == Ok(p) <==> Short(p) && Frame(p) <= data
  {
    if Short(p) && Frame(p) <= data {
      hide DeserialiseBlob, Frame;
      assert data == Frame(p) + data[|Frame(p)|..];
      FrameIsRead(p, data[|Frame(p)|..]);
    }
    if DeserialiseBlob(data) == Ok(p) {
      hide DeserialiseBlob, Frame;
      ReadIsFramed(data, p);
    }
  }

  /** The round trip holds exactly for lengths below 2^32: beyond, the written length is cut. */
  lemma {:induction false} RoundTripIff(p: Pair)
    ensures DeserialiseBlob(Frame(p)) == Ok(p) <==> Short(p)
  {
    DeserialisesIff(Frame(p), p);
  }

  /** Each error names what is missing. */
  lemma {:induction false} ErrorsMean(data: Bytes)
    ensures DeserialiseBlob(data) == Err(TooShort) <==> |data| < 8
    ensures DeserialiseBlob(data) == Err(TruncatedPublic) <==> 8 <= |data| < 8 + FromLe(data[..4])
    ensures DeserialiseBlob(data).Ok? <==> exists p :: Short(p) && Frame(p) <= data
  {
    if DeserialiseBlob(data).Ok? {
      DeserialisesIff(data, DeserialiseBlob(data).value);
    }
    if p :| Short(p) && Frame(p) <= data {
      DeserialisesIff(data, p);
    }
  }

  // ---------------------------------------------------------------------------------------------
  // The recogniser

  /** Takes a non-empty length-prefixed string off the front, and gives what is left. */
  function TakeLen(b: Bytes): Option<Bytes> {
    if |b| < 4 then None
    else
      var n, rest := FromLe(b[..4]), b[4..];
      if n > 0 && |rest| >= n then Some(rest[n..]) else None
  }

  predicate LooksLikeTpm2Blob(blob: Bytes) {
    var rest := TakeLen(blob);
    rest.Some? && TakeLen(rest.value) == Some([])
  }

  /** `b` is the non-empty `s` behind its length, then `tail`. */
  predicate Prefixed(b: Bytes, s: Bytes, tail: Bytes) {
    0 < |s| < WORD && b == ToLe(|s|) + s + tail
  }

  lemma {:induction false} TakeLenIff(b: Bytes, tail: Bytes)
    ensures TakeLen(b) == Some(tail) <==> exists s :: Prefixed(b, s, tail)
  {
    hide Prefixed, TakeLen;
    if TakeLen(b) == Some(tail) {
      var s := TakenFrom(b, tail);
    }
    if s :| Prefixed(b, s, tail) {
      assert b == ToLe(|s|) + s + tail && 0 < |s| < WORD by { PrefixedMeans(b, s, tail); }
      TakeLenOf(s, tail);
    }
  }

  lemma {:induction false} PrefixedMeans(b: Bytes, s: Bytes, tail: Bytes)
    requires Prefixed(b, s, tail)
    ensures b == ToLe(|s|) + s + tail && 0 < |s| < WORD
  {
  }

  lemma {:induction false} TakenFrom(b: Bytes, tail: Bytes) returns (s: Bytes)
    requires TakeLen(b) == Some(tail)
    ensures Prefixed(b, s, tail)
  {
    hide ToLe, FromLe;
    var n := FromLe(b[..4]);
    BytesRoundTrip(b[..4]);
    s := b[4..4 + n];
    assert b[4..][n..] == b[4 + n..];
    assert b == ToLe(|s|) + s + tail;
  }

  lemma {:induction false} TakeLenOf(s: Bytes, tail: Bytes)
    requires 0 < |s| < WORD
    ensures TakeLen(ToLe(|s|) + s + tail) == Some(tail)
  {
    hide ToLe, FromLe;
    var b := ToLe(|s|) + s + tail;
    WordRoundTrip(|s|);
    assert b[..4] == ToLe(|s|);
    assert b[4..] == s + tail;
    assert (s + tail)[|s|..] == tail;
  }

  predicate Proper(p: Pair) {
    Short(p) && p.public != [] && p.private != []
  }

  lemma {:induction false} FrameInTwo(p: Pair, rest: Bytes)
    requires rest == ToLe(|p.private|) + p.private + []
    ensures Frame(p) == ToLe(|p.public|) + p.public + rest
  {
    hide ToLe;
    assert rest == ToLe(|p.private|) + p.private;
  }

  /** The recogniser accepts exactly the frames of two non-empty strings, with nothing after them. */
  lemma {:induction false} LooksLikeIff(blob: Bytes)
    ensures LooksLikeTpm2Blob(blob) <==> exists p :: Proper(p) && blob == Frame(p)
  {
    hide ToLe, FromLe, TakeLen, Frame;
    if LooksLikeTpm2Blob(blob) {
      var rest := TakeLen(blob).value;
      TakeLenIff(blob, rest);
      TakeLenIff(rest, []);
      var s :| Prefixed(blob, s, rest);
      var t :| Prefixed(rest, t, []);
      FrameInTwo(Pair(s, t), rest);
      assert Proper(Pair(s, t)) && blob == Frame(Pair(s, t));
    }
    if p :| Proper(p) && blob == Frame(p) {
      var rest := ToLe(|p.private|) + p.private + [];
      FrameInTwo(p, rest);
      assert Prefixed(blob, p.public, rest) && Prefixed(rest, p.private, []);
      TakeLenIff(blob, rest);
      TakeLenIff(rest, []);
    }
  }

  /** A blob is the frame of one pair only, and reading it gives that pair. */
  lemma {:induction false} FramesAreUnique(p: Pair, q: Pair)
    requires Short(p) && Short(q) && Frame(p) == Frame(q)
    ensures p == q
  {
    RoundTripIff(p);
    RoundTripIff(q);
  }

  /** What the recogniser accepts, the reader reads. */
  lemma {:induction false} RecognisedIsReadable(blob: Bytes)
    requires LooksLikeTpm2Blob(blob)
    ensures DeserialiseBlob(blob).Ok? && blob == Frame(DeserialiseBlob(blob).value)
  {
    LooksLikeIff(blob);
    var p :| Proper(p) && blob == Frame(p);
    RoundTripIff(p);
  }

  /** Text is never taken for a TPM blob: a fourth byte of at least 0x20 reads as a length of 2^29 or more. */
  lemma {:induction false} TextIsRejected(blob: Bytes)
    requires 4 <= |blob| < 0x2000_0000 && blob[3] >= 0x20
    ensures !LooksLikeTpm2Blob(blob)
  {
    assert FromLe(blob[..4]) >= 0x2000_0000;
  }
}
