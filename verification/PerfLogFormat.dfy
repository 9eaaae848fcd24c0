/**
 * The binary record format of the performance log: fixed-width integers in
 * the byte order of a little-endian machine (the source uses memcpy on native
 * integers), two's complement for signed arguments, and NUL-terminated
 * strings.
 */
module PerfLogFormat {
  import opened Wrappers

  newtype u8 = x: int | 0 <= x < 256

  const TWO32: int := 0x1_0000_0000
  const TWO64: int := 0x1_0000_0000_0000_0000

  type uint16 = x: int | 0 <= x < 0x1_0000
  type uint32 = x: int | 0 <= x < 0x1_0000_0000
  type int32 = x: int | -0x8000_0000 <= x < 0x8000_0000
  type int64 = x: int | -0x8000_0000_0000_0000 <= x < 0x8000_0000_0000_0000

  /** A C string: no NUL among its characters. */
  type CString = s: seq<u8> | 0 !in s witness []

  /** The signatures define_event accepts: "", "s", "i" and "x". */
  datatype Signature = NoArgument | StringArgument | IntArgument | Int64Argument

  datatype Arg = Nothing | Str(s: CString) | Int(i: int32) | Int64(x: int64)
  {
    function Sig(): Signature {
      match this
      case Nothing => NoArgument
      case Str(_) => StringArgument
      case Int(_) => IntArgument
      case Int64(_) => Int64Argument
    }
  }

  function ParseSignature(signature: string): (r: Option<Signature>)
  {
    if signature == "" then Some(NoArgument)
    else if signature == "s" then Some(StringArgument)
    else if signature == "i" then Some(IntArgument)
    else if signature == "x" then Some(Int64Argument)
    else None
  }

  /** One record of a block: time delta, event id, argument bytes. */
  datatype Record = Record(delta: uint32, id: uint16, arg: Arg)

  // ---- Fixed-width integers -------------------------------------------------

  function Power256(k: nat): (p: nat)
    ensures p > 0
  {
    if k == 0 then 1 else 256 * Power256(k - 1)
  }

  /** The k low-order bytes of n, least significant first. */
  function ToLE(n: nat, k: nat): (b: seq<u8>)
    ensures |b| == k
  {
    if k == 0 then [] else [(n % 256) as u8] + ToLE(n / 256, k - 1)
  }

  function FromLE(b: seq<u8>): (n: nat)
    ensures n < Power256(|b|)
  {
    if b == [] then 0 else (b[0] as nat) + 256 * FromLE(b[1..])
  }

  lemma {:induction false} LERoundTrip(n: nat, k: nat)
    requires n < Power256(k)
    ensures FromLE(ToLE(n, k)) == n
  {
    if k > 0 {
      LERoundTrip(n / 256, k - 1);
      assert ToLE(n, k)[1..] == ToLE(n / 256, k - 1);
    }
  }

  lemma Power256Values()
    ensures Power256(2) == 0x1_0000
    ensures Power256(4) == TWO32
    ensures Power256(8) == TWO64
  {
    assert Power256(1) == 256;
    assert Power256(3) == 256 * 0x1_0000;
    assert Power256(5) == 256 * TWO32;
    assert Power256(6) == 0x1_0000 * TWO32;
    assert Power256(7) == 256 * 0x1_0000 * TWO32;
  }

  /** Two's complement: the unsigned pattern of a signed value, and back. */
  function Unsigned(x: int, modulus: nat): (u: int)
  {
    if x < 0 then x + modulus else x
  }

  function Signed(u: nat, modulus: nat): (x: int)
  {
    if 2 * u >= modulus then u - modulus else u
  }

  // ---- Records --------------------------------------------------------------

  /** The bytes_len that shell_perf_log_event and its variants pass for an argument. */
  function ArgSize(a: Arg): nat {
    match a
    case Nothing => 0
    case Str(s) => |s| + 1
    case Int(_) => 4
    case Int64(_) => 8
  }

  /** sizeof (gint32) + sizeof (gint16) + bytes_len */
  function RecordSize(a: Arg): nat {
    6 + ArgSize(a)
  }

  function BlockSize(rs: seq<Record>): nat {
    if rs == [] then 0 else BlockSize(rs[..|rs| - 1]) + RecordSize(rs[|rs| - 1].arg)
  }

  function EncodeArg(a: Arg): (b: seq<u8>)
    ensures |b| == ArgSize(a)
  {
    match a
    case Nothing => []
    case Str(s) => s + [0]
    case Int(i) => ToLE(Unsigned(i, TWO32), 4)
    case Int64(x) => ToLE(Unsigned(x, TWO64), 8)
  }

  function EncodeRecord(r: Record): (b: seq<u8>)
    ensures |b| == RecordSize(r.arg)
  {
    ToLE(r.delta, 4) + ToLE(r.id, 2) + EncodeArg(r.arg)
  }

  function EncodeBlock(rs: seq<Record>): (b: seq<u8>)
    ensures |b| == BlockSize(rs)
  {
    if rs == [] then [] else EncodeBlock(rs[..|rs| - 1]) + EncodeRecord(rs[|rs| - 1])
  }

  lemma EncodeBlockAppend(rs: seq<Record>, r: Record)
    ensures EncodeBlock(rs + [r]) == EncodeBlock(rs) + EncodeRecord(r)
  {
    assert (rs + [r])[..|rs|] == rs;
  }

  lemma {:induction false} EncodeBlockPrefix(rs: seq<Record>, k: nat)
    requires k <= |rs|
    ensures EncodeBlock(rs[..k]) <= EncodeBlock(rs)
  {
    if k == |rs| {
      assert rs[..k] == rs;
    } else {
      var front := rs[..|rs| - 1];
      EncodeBlockPrefix(front, k);
      assert front[..k] == rs[..k];
    }
  }

  /** Record k of a block occupies exactly its own slice of the encoding. */
  lemma RecordSlice(rs: seq<Record>, k: nat) returns (rest: seq<u8>)
    requires k < |rs|
    ensures EncodeBlock(rs) == EncodeBlock(rs[..k]) + EncodeRecord(rs[k]) + rest
    ensures EncodeBlock(rs[..k + 1]) == EncodeBlock(rs[..k]) + EncodeRecord(rs[k])
  {
    hide EncodeRecord;
    hide EncodeBlock;
    assert rs[..k + 1] == rs[..k] + [rs[k]];
    EncodeBlockAppend(rs[..k], rs[k]);
    EncodeBlockPrefix(rs, k + 1);
    rest := EncodeBlock(rs)[|EncodeBlock(rs[..k + 1])|..];
  }

  // ---- Reading back ---------------------------------------------------------

  /** What a reader that knows the event's signature takes from the bytes that follow the id. */
  function DecodeArg(sig: Signature, b: seq<u8>): (r: Option<(Arg, nat)>)
  {
    match sig
    case NoArgument => Some((Nothing, 0))
    case IntArgument =>
      if |b| < 4 then None else Some((Int(AsInt32(b[..4])), 4))
    case Int64Argument =>
      if |b| < 8 then None else Some((Int64(AsInt64(b[..8])), 8))
    case StringArgument =>
      var n := StringLength(b);
      if n == |b| then None else Some((Str(b[..n]), n + 1))
  }

  function AsInt32(b: seq<u8>): (x: int32)
    requires |b| == 4
  {
    Power256Values();
    Signed(FromLE(b), TWO32)
  }

  function AsInt64(b: seq<u8>): (x: int64)
    requires |b| == 8
  {
    Power256Values();
    Signed(FromLE(b), TWO64)
  }

  /** strlen, or the number of bytes left when there is no terminator. */
  function StringLength(b: seq<u8>): (n: nat)
    ensures n <= |b|
    ensures 0 !in b[..n]
    ensures n < |b| ==> b[n] == 0
  {
    if b == [] || b[0] == 0 then 0
    else
      var m := StringLength(b[1..]);
      assert b[..m + 1] == [b[0]] + b[1..][..m];
      m + 1
  }

  lemma {:induction false} StringLengthIs(b: seq<u8>, n: nat)
    requires n < |b| && b[n] == 0 && 0 !in b[..n]
    ensures StringLength(b) == n
  {
    if n > 0 {
      assert b[0] == b[..n][0] && b[1..][..n - 1] == b[..n][1..];
      StringLengthIs(b[1..], n - 1);
    }
  }

  /** Decoding inverts encoding, whatever bytes follow the argument. */
  lemma ArgRoundTrip(a: Arg, rest: seq<u8>)
    ensures DecodeArg(a.Sig(), EncodeArg(a) + rest) == Some((a, |EncodeArg(a)|))
  {
    var b := EncodeArg(a) + rest;
    Power256Values();
    match a
    case Nothing =>
    case Int(i) =>
      assert b[..4] == EncodeArg(a);
      LERoundTrip(Unsigned(i, TWO32), 4);
    case Int64(x) =>
      assert b[..8] == EncodeArg(a);
      LERoundTrip(Unsigned(x, TWO64), 8);
    case Str(s) =>
      assert b[..|s|] == s;
      StringLengthIs(b, |s|);
  }

  lemma HeaderSlices(b: seq<u8>, before: seq<u8>, x: seq<u8>, y: seq<u8>, after: seq<u8>)
    requires b == before + (x + y + after) && |x| == 4 && |y| == 2
    ensures var pos := |before|;
            b[pos..pos + 4] == x && b[pos + 4..pos + 6] == y && b[pos + 6..] == after
  {
  }

  /** What a reader finds at the offset of record k: the header fields and then the argument. */
  predicate ReadsAs(b: seq<u8>, pos: nat, r: Record)
  {
    && pos + RecordSize(r.arg) <= |b|
    && FromLE(b[pos..pos + 4]) == r.delta
    && FromLE(b[pos + 4..pos + 6]) == r.id
    && DecodeArg(r.arg.Sig(), b[pos + 6..]) == Some((r.arg, ArgSize(r.arg)))
  }

  lemma HeaderReadsAs(before: seq<u8>, r: Record, rest: seq<u8>)
    ensures ReadsAs(before + EncodeRecord(r) + rest, |before|, r)
  {
    hide ToLE;
    hide FromLE;
    hide EncodeArg;
    hide DecodeArg;
    var b := before + EncodeRecord(r) + rest;
    HeaderSlices(b, before, ToLE(r.delta, 4), ToLE(r.id, 2), EncodeArg(r.arg) + rest);
    Power256Values();
    LERoundTrip(r.delta, 4);
    LERoundTrip(r.id, 2);
    ArgRoundTrip(r.arg, rest);
  }

  lemma ReadRecord(rs: seq<Record>, k: nat)
    requires k < |rs|
    ensures ReadsAs(EncodeBlock(rs), BlockSize(rs[..k]), rs[k])
    ensures BlockSize(rs[..k + 1]) == BlockSize(rs[..k]) + RecordSize(rs[k].arg) <= BlockSize(rs)
  {
    hide ReadsAs;
    hide BlockSize;
    hide EncodeRecord;
    hide EncodeBlock;
    hide RecordSize;
    var rest := RecordSlice(rs, k);
    HeaderReadsAs(EncodeBlock(rs[..k]), rs[k], rest);
  }
}
