/** UTF-8 as in section 3 of RFC 3629, and the packer's name clamp. */
module Utf8 {

  type byte = b: int | 0 <= b < 256

  function EncodeChar(c: char): (r: seq<byte>)
    ensures 1 <= |r| <= 4
  {
    var n := c as int;
    if n < 0x80 then [n]
    else if n < 0x800 then [0xC0 + n / 64, 0x80 + n % 64]
    else if n < 0x10000 then [0xE0 + n / 4096, 0x80 + n / 64 % 64, 0x80 + n % 64]
    else [0xF0 + n / 262144, 0x80 + n / 4096 % 64, 0x80 + n / 64 % 64, 0x80 + n % 64]
  }

  function Encode(s: string): seq<byte> {
    if s == "" then [] else EncodeChar(s[0]) + Encode(s[1..])
  }

  /** The two high bits `10`. */
  predicate IsContinuation(b: byte) { 0x80 <= b < 0xC0 }

  /** The byte syntax of section 4 of RFC 3629 for one character. */
  predicate IsChar(b: seq<byte>) {
    if |b| == 1 then b[0] < 0x80
    else if |b| == 2 then 0xC2 <= b[0] <= 0xDF && IsContinuation(b[1])
    else if |b| == 3 then
      && 0xE0 <= b[0] <= 0xEF && IsContinuation(b[1]) && IsContinuation(b[2])
      && (b[0] == 0xE0 ==> b[1] >= 0xA0) && (b[0] == 0xED ==> b[1] <= 0x9F)
    else
      && |b| == 4 && 0xF0 <= b[0] <= 0xF4 && IsContinuation(b[1]) && IsContinuation(b[2]) && IsContinuation(b[3])
      && (b[0] == 0xF0 ==> b[1] >= 0x90) && (b[0] == 0xF4 ==> b[1] <= 0x8F)
  }

  function Width(lead: byte): nat {
    if lead < 0x80 then 1 else if lead < 0xE0 then 2 else if lead < 0xF0 then 3 else 4
  }

  /** What the reader's text check accepts. */
  predicate WellFormed(b: seq<byte>) {
    b == [] || (var n := Width(b[0]); n <= |b| && IsChar(b[..n]) && WellFormed(b[n..]))
  }

  lemma EncodedCharIsChar(c: char)
    ensures IsChar(EncodeChar(c)) && Width(EncodeChar(c)[0]) == |EncodeChar(c)|
    ensures !IsContinuation(EncodeChar(c)[0])
    ensures forall i :: 0 < i < |EncodeChar(c)| ==> IsContinuation(EncodeChar(c)[i])
  {
  }

  lemma {:induction false} EncodedIsWellFormed(s: string)
    ensures WellFormed(Encode(s))
  {
    if s != "" {
      var e := EncodeChar(s[0]);
      EncodedCharIsChar(s[0]);
      EncodedIsWellFormed(s[1..]);
      assert Encode(s)[..|e|] == e && Encode(s)[|e|..] == Encode(s[1..]);
    }
  }

  /** How many whole characters fit in the first `limit` bytes. */
  function Fitting(s: string, limit: nat): (k: nat)
    ensures k <= |s|
  {
    if s == "" || |EncodeChar(s[0])| > limit then 0 else 1 + Fitting(s[1..], limit - |EncodeChar(s[0])|)
  }

  lemma EncodePrefix(s: string, k: nat)
    requires 0 < k <= |s|
    ensures Encode(s[..k]) == EncodeChar(s[0]) + Encode(s[1..][..k - 1])
  {
    assert s[..k][0] == s[0] && s[..k][1..] == s[1..][..k - 1];
  }

  /** `Fitting` is the longest prefix within the limit. */
  lemma {:induction false} FittingIsLongest(s: string, limit: nat, k: nat)
    requires k <= |s|
    ensures |Encode(s[..k])| <= limit <==> k <= Fitting(s, limit)
  {
    if k == 0 {
      assert s[..k] == "";
    } else {
      EncodePrefix(s, k);
      if |EncodeChar(s[0])| <= limit {
        FittingIsLongest(s[1..], limit - |EncodeChar(s[0])|, k - 1);
      }
    }
  }

  function Boundary(s: string, limit: nat): nat { |Encode(s[..Fitting(s, limit)])| }

  /** `n` is where the last character beginning within the first `limit` bytes starts. */
  ghost predicate LastStart(b: seq<byte>, n: nat, limit: nat) {
    && n <= limit < |b| && !IsContinuation(b[n])
    && forall q :: n < q <= limit ==> IsContinuation(b[q])
  }

  lemma LastStartShifts(e: seq<byte>, b: seq<byte>, n: nat, limit: nat)
    requires LastStart(b, n, limit)
    ensures LastStart(e + b, |e| + n, |e| + limit) && (e + b)[..|e| + n] == e + b[..n]
  {
    assert forall q :: |e| <= q < |e| + |b| ==> (e + b)[q] == b[q - |e|];
  }

  lemma CharIsLastStart(c: char, b: seq<byte>, limit: nat)
    requires limit < |EncodeChar(c)|
    ensures LastStart(EncodeChar(c) + b, 0, limit)
  {
    EncodedCharIsChar(c);
  }

  /** The last boundary within the limit starts a character; every byte after it up to the limit continues one. */
  lemma {:induction false} BoundaryIsLastStart(s: string, limit: nat)
    requires limit < |Encode(s)|
    ensures LastStart(Encode(s), Boundary(s, limit), limit)
    ensures Encode(s)[..Boundary(s, limit)] == Encode(s[..Fitting(s, limit)])
  {
    var e, rest := EncodeChar(s[0]), s[1..];
    if |e| > limit {
      CharIsLastStart(s[0], Encode(rest), limit);
      assert s[..Fitting(s, limit)] == "";
    } else {
      BoundaryIsLastStart(rest, limit - |e|);
      LastStartShifts(e, Encode(rest), Boundary(rest, limit - |e|), limit - |e|);
      EncodePrefix(s, Fitting(s, limit));
    }
  }

  const MAX_NAME := 255

  /** `clamp_name`: the encoding of the longest prefix of whole characters within 255 bytes. */
  method ClampName(name: string) returns (bytes: seq<byte>)
    ensures bytes == Encode(name[..Fitting(name, MAX_NAME)]) && |bytes| <= MAX_NAME
  {
    bytes := Encode(name);
    FittingIsLongest(name, MAX_NAME, |name|);
    FittingIsLongest(name, MAX_NAME, Fitting(name, MAX_NAME));
    assert name[..|name|] == name;
    if |bytes| <= MAX_NAME { return; }
    var end := MAX_NAME;
    BoundaryIsLastStart(name, MAX_NAME);
    while end > 0 && IsContinuation(bytes[end])
      invariant Boundary(name, MAX_NAME) <= end <= MAX_NAME
    {
      end := end - 1;
    }
    bytes := bytes[..end];
  }

  // --------------------------------------------------------------------- decoding

  /** The six low bits of a continuation byte. */
  function Payload(b: byte): int {
    var n: int := b;
    n - 0x80
  }

  /** The scalar value of one character's bytes, as section 3 of RFC 3629 lays them out. */
  function Scalar(b: seq<byte>): int
    requires 1 <= |b| <= 4
  {
    var lead: int := b[0];
    if |b| == 1 then lead
    else if |b| == 2 then (lead - 0xC0) * 64 + Payload(b[1])
    else if |b| == 3 then (lead - 0xE0) * 4096 + Payload(b[1]) * 64 + Payload(b[2])
    else (lead - 0xF0) * 262144 + Payload(b[1]) * 4096 + Payload(b[2]) * 64 + Payload(b[3])
  }

  lemma ScalarOfChar(c: char)
    ensures Scalar(EncodeChar(c)) == c as int
  {
    var n := c as int;
    if 0x80 <= n {
      assert n == n / 64 * 64 + n % 64;
      assert n / 64 == n / 4096 * 64 + n / 64 % 64;
      assert n / 4096 == n / 262144 * 64 + n / 4096 % 64;
    }
  }

  /** The scalar values of a text, read byte by byte; reading stops at a cut character. */
  function Scalars(b: seq<byte>): seq<int>
    decreases |b|
  {
    if b == [] || Width(b[0]) > |b| then [] else [Scalar(b[..Width(b[0])])] + Scalars(b[Width(b[0])..])
  }

  /** Decoding gives back exactly the characters that were encoded. */
  lemma {:induction false} DecodeInvertsEncode(s: string)
    ensures Scalars(Encode(s)) == seq(|s|, i requires 0 <= i < |s| => s[i] as int)
  {
    if s != "" {
      var e, b := EncodeChar(s[0]), Encode(s);
      EncodedCharIsChar(s[0]);
      ScalarOfChar(s[0]);
      DecodeInvertsEncode(s[1..]);
      assert b[..|e|] == e && b[|e|..] == Encode(s[1..]) && b[0] == e[0];
    }
  }
}
