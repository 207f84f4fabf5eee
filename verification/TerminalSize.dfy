/** The terminal size in pty-req and window-change requests (sections 6.2 and 6.7 of RFC 4254). */
module TerminalSize {
  type Byte = b: int | 0 <= b < 256
  type Uint32 = n: int | 0 <= n < 0x1_0000_0000

  datatype Size = Ignored | Size(cols: Uint32, rows: Uint32)

  function Uint32At(b: seq<Byte>, i: nat): Uint32
    requires i + 4 <= |b|
  {
    var b0: int, b1: int, b2: int, b3: int := b[i], b[i + 1], b[i + 2], b[i + 3];
    ((b0 * 256 + b1) * 256 + b2) * 256 + b3
  }

  /** parseDims. */
  function ParseDims(b: seq<Byte>): Size
    requires |b| >= 8
  {
    Size(Uint32At(b, 0), Uint32At(b, 4))
  }

  /** forwardRequest on a pty-req payload: only the low byte of the TERM length is looked at. */
  function DecodePtyReq(payload: seq<Byte>): Size {
    if |payload| > 4 then
      var termLen: int := payload[3];
      if |payload| >= 4 + termLen + 8 then ParseDims(payload[termLen + 4..]) else Ignored
    else Ignored
  }

  function DecodeWindowChange(payload: seq<Byte>): Size {
    if |payload| >= 8 then ParseDims(payload) else Ignored
  }

  function PutUint32(n: Uint32): (r: seq<Byte>)
    ensures |r| == 4
  {
    [n / 0x100_0000, n / 0x1_0000 % 256, n / 0x100 % 256, n % 256]
  }

  type Term = t: seq<Byte> | |t| < 0x1_0000_0000

  /** RFC 4254, section 6.2, from the TERM string on; `rest` is the pixel sizes and terminal modes. */
  function EncodePtyReq(term: Term, cols: Uint32, rows: Uint32, rest: seq<Byte>): seq<Byte> {
    PutUint32(|term|) + term + PutUint32(cols) + PutUint32(rows) + rest
  }

  /** RFC 4254, section 6.7; `rest` is the pixel sizes. */
  function EncodeWindowChange(cols: Uint32, rows: Uint32, rest: seq<Byte>): seq<Byte> {
    PutUint32(cols) + PutUint32(rows) + rest
  }

  lemma PutThenGet(n: Uint32, b: seq<Byte>, i: nat)
    requires i + 4 <= |b| && b[i..i + 4] == PutUint32(n)
    ensures Uint32At(b, i) == n
  {
    var p := PutUint32(n);
    assert b[i] == p[0] && b[i + 1] == p[1] && b[i + 2] == p[2] && b[i + 3] == p[3];
    assert n / 0x1_0000 == n / 0x100_0000 * 256 + n / 0x1_0000 % 256;
    assert n / 0x100 == n / 0x1_0000 * 256 + n / 0x100 % 256;
  }

  lemma DimsOfEncoding(cols: Uint32, rows: Uint32, rest: seq<Byte>, b: seq<Byte>)
    requires b == PutUint32(cols) + PutUint32(rows) + rest
    ensures ParseDims(b) == Size(cols, rows)
  {
    PutThenGet(cols, b, 0);
    PutThenGet(rows, b, 4);
  }

  lemma WindowChangeRoundTrip(cols: Uint32, rows: Uint32, rest: seq<Byte>)
    ensures DecodeWindowChange(EncodeWindowChange(cols, rows, rest)) == Size(cols, rows)
  {
    DimsOfEncoding(cols, rows, rest, EncodeWindowChange(cols, rows, rest));
  }

  lemma ShortTerm(term: Term, cols: Uint32, rows: Uint32, rest: seq<Byte>)
    requires |term| < 256
    ensures DecodePtyReq(EncodePtyReq(term, cols, rows, rest)) == Size(cols, rows)
  {
    var b := EncodePtyReq(term, cols, rows, rest);
    assert b[3] == |term|;
    var dims := b[|term| + 4..];
    assert dims == PutUint32(cols) + PutUint32(rows) + rest;
    DimsOfEncoding(cols, rows, rest, dims);
  }

  /** A longer TERM is read instead of the size: the result does not depend on the size at all. */
  lemma LongTerm(term: Term, cols: Uint32, rows: Uint32, rest: seq<Byte>)
    requires |term| >= 256
    ensures DecodePtyReq(EncodePtyReq(term, cols, rows, rest)) == ParseDims(term[|term| % 256..])
  {
    var b, low := EncodePtyReq(term, cols, rows, rest), |term| % 256;
    var tail := PutUint32(cols) + PutUint32(rows) + rest;
    assert b[3] == low && b[4..] == term + tail;
    assert b[low + 4..] == b[4..][low..] == term[low..] + tail;
    DimsOfPrefix(term[low..], tail);
  }

  lemma DimsOfPrefix(b: seq<Byte>, tail: seq<Byte>)
    requires |b| >= 8
    ensures ParseDims(b + tail) == ParseDims(b)
  {
  }

  /** Every size sent with a TERM is decoded exactly if and only if the TERM is shorter than 256 bytes. */
  lemma PtyReqRoundTrip(term: Term, rest: seq<Byte>)
    ensures (forall cols: Uint32, rows: Uint32 ::
               DecodePtyReq(EncodePtyReq(term, cols, rows, rest)) == Size(cols, rows))
       <==> |term| < 256
  {
    if |term| < 256 {
      forall cols: Uint32, rows: Uint32
        ensures DecodePtyReq(EncodePtyReq(term, cols, rows, rest)) == Size(cols, rows)
      {
        ShortTerm(term, cols, rows, rest);
      }
    } else {
      LongTerm(term, 0, 0, rest);
      LongTerm(term, 1, 0, rest);
      assert DecodePtyReq(EncodePtyReq(term, 0, 0, rest)) == DecodePtyReq(EncodePtyReq(term, 1, 0, rest));
    }
  }

  /** A window of 300 columns and 40 rows, byte by byte, and the same behind TERM "vt". */
  lemma Example(rest: seq<Byte>)
    ensures DecodeWindowChange([0, 0, 1, 44, 0, 0, 0, 40] + rest) == Size(300, 40)
    ensures DecodePtyReq([0, 0, 0, 2, 118, 116, 0, 0, 1, 44, 0, 0, 0, 40] + rest) == Size(300, 40)
  {
    assert ([0, 0, 0, 2, 118, 116, 0, 0, 1, 44, 0, 0, 0, 40] + rest)[6..] == [0, 0, 1, 44, 0, 0, 0, 40] + rest;
  }

  /** A payload too short for its size is ignored. */
  lemma ShortPayloads(payload: seq<Byte>)
    ensures DecodeWindowChange(payload) == Ignored <==> |payload| < 8
    ensures DecodePtyReq(payload) == Ignored <==> |payload| <= 4 || |payload| < 12 + (payload[3] as int)
  {
  }
}
