/** The base64 diagnosis of an XDR string, against a codec for section 4 of RFC 4648. */
module XdrDiagnostics {
  import opened Seqs

  // ---- The reference codec ----

  const PAD := '='

  predicate InAlphabet(c: char) {
    'A' <= c <= 'Z' || 'a' <= c <= 'z' || '0' <= c <= '9' || c == '+' || c == '/'
  }

  /** The 6-bit value of an alphabet character. */
  function ValueOf(c: char): (v: int)
    requires InAlphabet(c)
    ensures 0 <= v < 64
  {
    if 'A' <= c <= 'Z' then (c - 'A') as int
    else if 'a' <= c <= 'z' then (c - 'a') as int + 26
    else if '0' <= c <= '9' then (c - '0') as int + 52
    else if c == '+' then 62 else 63
  }

  function CharOf(v: int): (c: char)
    requires 0 <= v < 64
    ensures InAlphabet(c) && ValueOf(c) == v
  {
    if v < 26 then 'A' + v as char
    else if v < 52 then 'a' + (v - 26) as char
    else if v < 62 then '0' + (v - 52) as char
    else if v == 62 then '+' else '/'
  }

  type Byte = b: int | 0 <= b < 256

  ghost predicate AllInAlphabet(s: string) {
    forall i :: 0 <= i < |s| ==> InAlphabet(s[i])
  }

  /** A final quantum: three bytes, or two or one with padding. */
  ghost predicate FinalQuantum(q: string)
    requires |q| == 4
  {
    InAlphabet(q[0]) && InAlphabet(q[1]) &&
    ((InAlphabet(q[2]) && (InAlphabet(q[3]) || q[3] == PAD)) || (q[2] == PAD && q[3] == PAD))
  }

  /** Padded base64 text: full quanta of four characters and one final quantum. */
  ghost predicate WellFormed(s: string) {
    |s| >= 4 &&
    if |s| == 4 then FinalQuantum(s) else AllInAlphabet(s[..4]) && WellFormed(s[4..])
  }

  /** The bytes of one quantum; padding characters end it early. */
  function DecodeQuantum(q: string): seq<Byte>
    requires |q| == 4 && InAlphabet(q[0]) && InAlphabet(q[1])
  {
    var a, b := ValueOf(q[0]), ValueOf(q[1]);
    [a * 4 + b / 16] +
    if !InAlphabet(q[2]) then []
    else
      var c := ValueOf(q[2]);
      [b % 16 * 16 + c / 4] + if !InAlphabet(q[3]) then [] else [c % 4 * 64 + ValueOf(q[3])]
  }

  ghost function Decode(s: string): seq<Byte>
    requires WellFormed(s)
  {
    if |s| == 4 then DecodeQuantum(s) else DecodeQuantum(s[..4]) + Decode(s[4..])
  }

  /** One to three bytes as a quantum, padded to four characters. */
  function EncodeQuantum(b: seq<Byte>): (q: string)
    requires 1 <= |b| <= 3
    ensures |q| == 4
  {
    var x, y, z := b[0], if |b| > 1 then b[1] else 0, if |b| > 2 then b[2] else 0;
    [CharOf(x / 4), CharOf(x % 4 * 16 + y / 16),
     if |b| > 1 then CharOf(y % 16 * 4 + z / 64) else PAD,
     if |b| > 2 then CharOf(z % 64) else PAD]
  }

  function Encode(b: seq<Byte>): string {
    if b == [] then "" else if |b| <= 3 then EncodeQuantum(b) else EncodeQuantum(b[..3]) + Encode(b[3..])
  }

  lemma SplitBytes(x: Byte, y: Byte, z: Byte)
    ensures x / 4 * 4 + (x % 4 * 16 + y / 16) / 16 == x
    ensures (x % 4 * 16 + y / 16) % 16 * 16 + (y % 16 * 4 + z / 64) / 4 == y
    ensures (y % 16 * 4 + z / 64) % 4 * 64 + z % 64 == z
  {
  }

  lemma QuantumRoundTrip(b: seq<Byte>)
    requires 1 <= |b| <= 3
    ensures FinalQuantum(EncodeQuantum(b)) && DecodeQuantum(EncodeQuantum(b)) == b
    ensures |b| == 3 ==> AllInAlphabet(EncodeQuantum(b))
  {
    SplitBytes(b[0], if |b| > 1 then b[1] else 0, if |b| > 2 then b[2] else 0);
  }

  /** The codec is sound: what is encoded is well formed and decodes to itself. */
  lemma {:induction false} CodecRoundTrip(b: seq<Byte>)
    requires b != []
    ensures WellFormed(Encode(b)) && Decode(Encode(b)) == b
    decreases |b|
  {
    if |b| <= 3 {
      QuantumRoundTrip(b);
    } else {
      QuantumRoundTrip(b[..3]);
      CodecRoundTrip(b[3..]);
      var q, rest := EncodeQuantum(b[..3]), Encode(b[3..]);
      assert Encode(b)[..4] == q && Encode(b)[4..] == rest;
      assert b == b[..3] + b[3..];
    }
  }

  // ---- The diagnosis ----

  datatype Problem = EmptyInput | InvalidCharacter(index: nat) | Truncated(length: nat)

  datatype Diagnostic = Diagnostic(
    valid: bool,
    inputLength: nat,
    decodedByteLength: Option<int>,
    invalidCharIndex: Option<nat>,
    invalidByteOffset: Option<int>,
    problem: Option<Problem>)

  /** Where the trailing padding, at most two characters, begins. */
  function PaddingStart(s: string): (p: nat)
    ensures p <= |s|
  {
    if |s| >= 2 && s[|s| - 2] == PAD && s[|s| - 1] == PAD then |s| - 2
    else if |s| >= 1 && s[|s| - 1] == PAD then |s| - 1
    else |s|
  }

  predicate Allowed(s: string, i: nat)
    requires i < |s|
  {
    if i < PaddingStart(s) then InAlphabet(s[i]) else s[i] == PAD
  }

  /** `describeXdrEncoding`. */
  method Describe(s: string) returns (d: Diagnostic)
    ensures d.inputLength == |s|
    // valid means exactly: padded base64 text, and then the length is the decoder's
    ensures d.valid <==> WellFormed(s)
    ensures d.valid ==> d == Diagnostic(true, |s|, Some(|Decode(s)|), None, None, None)
    // otherwise the first offending character, with the byte its 6-bit group starts in
    ensures !d.valid ==> d.decodedByteLength.None? && d.problem.Some?
    ensures s == "" <==> d.problem == Some(EmptyInput)
    ensures d.invalidCharIndex.Some? <==> exists i: nat :: i < |s| && !Allowed(s, i)
    ensures d.invalidCharIndex.Some? ==>
      var i := d.invalidCharIndex.value;
      d.problem == Some(InvalidCharacter(i)) && i < |s| && !Allowed(s, i) && (forall j: nat :: j < i ==> Allowed(s, j)) &&
      d.invalidByteOffset.Some? && 8 * d.invalidByteOffset.value <= 6 * i < 8 * (d.invalidByteOffset.value + 1)
    // or a length that is not a multiple of four
    ensures !d.valid && d.invalidCharIndex.None? && s != "" ==>
      |s| % 4 != 0 && d.problem == Some(Truncated(|s|)) && d.invalidByteOffset == Some(3 * |s| / 4)
  {
    var inputLength := |s|;
    if inputLength == 0 {
      return Diagnostic(false, inputLength, None, None, None, Some(EmptyInput));
    }
    var paddingStart := PaddingStart(s);
    var invalidCharIndex: Option<nat> := None;
    var i := 0;
    while i < inputLength
      invariant i <= inputLength && invalidCharIndex.None?
      invariant forall j: nat :: j < i ==> Allowed(s, j)
    {
      var allowed := if i < paddingStart then InAlphabet(s[i]) else s[i] == PAD;
      if !allowed {
        assert !Allowed(s, i);
        invalidCharIndex := Some(i);
        break;
      }
      i := i + 1;
    }
    WellFormedIff(s);
    if invalidCharIndex.Some? {
      return Diagnostic(false, inputLength, None, invalidCharIndex, Some(invalidCharIndex.value * 3 / 4),
        Some(InvalidCharacter(invalidCharIndex.value)));
    }
    if inputLength % 4 != 0 {
      return Diagnostic(false, inputLength, None, None, Some(inputLength * 3 / 4), Some(Truncated(inputLength)));
    }
    DecodedLength(s);
    var paddingCount := inputLength - paddingStart;
    return Diagnostic(true, inputLength, Some(inputLength * 3 / 4 - paddingCount), None, None, None);
  }

  lemma PaddingTail(s: string)
    requires |s| > 4
    ensures |s[4..]| >= 2 ==> PaddingStart(s) == PaddingStart(s[4..]) + 4
  {
  }

  /** Well-formedness, character by character. */
  lemma {:induction false} WellFormedIff(s: string)
    requires s != ""
    ensures WellFormed(s) <==> |s| % 4 == 0 && forall i: nat :: i < |s| ==> Allowed(s, i)
    decreases |s|
  {
    if |s| >= 8 {
      var t := s[4..];
      WellFormedIff(t);
      PaddingTail(s);
      assert forall i: nat :: i < |t| ==> s[i + 4] == t[i] && (Allowed(s, i + 4) <==> Allowed(t, i));
      assert forall i: nat :: 4 <= i < |s| ==> (Allowed(s, i) <==> Allowed(t, i - 4));
      assert forall i: nat :: i < 4 ==> (Allowed(s, i) <==> InAlphabet(s[..4][i]));
    } else if |s| == 4 {
      assert (forall i: nat :: i < |s| ==> Allowed(s, i)) <==>
        Allowed(s, 0) && Allowed(s, 1) && Allowed(s, 2) && Allowed(s, 3);
    }
  }

  lemma {:induction false} DecodedLength(s: string)
    requires WellFormed(s)
    ensures |s| % 4 == 0 && |Decode(s)| == |s| / 4 * 3 - (|s| - PaddingStart(s))
    decreases |s|
  {
    if |s| > 4 {
      var t := s[4..];
      DecodedLength(t);
      PaddingTail(s);
      assert |DecodeQuantum(s[..4])| == 3;
      assert |s| / 4 == |t| / 4 + 1;
    }
  }

  /** Every encoding of a non-empty byte string passes, with its length reported. */
  method DescribeEncoded(b: seq<Byte>) returns (d: Diagnostic)
    requires b != []
    ensures d.valid && d.decodedByteLength == Some(|b|)
  {
    CodecRoundTrip(b);
    d := Describe(Encode(b));
  }

  /** Bytes that whole 6-bit groups of the data characters of a truncated text make up. */
  function DecodableBytes(s: string): int { PaddingStart(s) * 6 / 8 }

  /** The offset reported for a truncated text is the number of bytes that can still be decoded exactly
      when it has no padding, or one padding character and a length of one more than a multiple of four. */
  lemma TruncatedOffset(s: string)
    requires |s| % 4 != 0
    ensures 3 * |s| / 4 == DecodableBytes(s) <==>
      (PaddingStart(s) == |s| || (PaddingStart(s) == |s| - 1 && |s| % 4 == 1))
  {
    var n, m, r := |s|, |s| / 4, |s| % 4;
    assert n == 4 * m + r;
    assert 3 * n / 4 == 3 * m + 3 * r / 4;
  }

  /** It can be more than can be decoded: here every character is allowed, two bytes are reported, and one decodes. */
  lemma TruncatedOffsetExample()
    ensures var s := "AA=";
      (forall i :: 0 <= i < |s| ==> Allowed(s, i)) && |s| % 4 != 0 && 3 * |s| / 4 == 2 && DecodableBytes(s) == 1
  {
    var s := "AA=";
    assert s[2] == PAD && s[1] != PAD && s[0] == 'A' && s[1] == 'A';
    assert PaddingStart(s) == 2;
  }
}
