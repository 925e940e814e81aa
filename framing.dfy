/**
 * The OSI binary trace format: every record is the 4-byte little-endian
 * length of its payload (struct.pack("<L", n)) followed by the payload, and a
 * trace file is the concatenation of its records.  An output file is a byte
 * sequence that writes extend.
 */
module Framing {
  import opened Common

  /** struct.pack("<L", n) accepts 0 <= n < 2^32 and raises struct.error otherwise. */
  const LENGTH_LIMIT: nat := 0x1_0000_0000

  function PackLength(n: nat): (r: Result<Bytes>)
    ensures r.Ok? <==> n < LENGTH_LIMIT
    ensures r.Err? ==> r.error == StructError
    ensures r.Ok? ==> |r.value| == 4
  {
    if n < LENGTH_LIMIT then
      Ok([(n % 0x100) as byte, (n / 0x100 % 0x100) as byte, (n / 0x1_0000 % 0x100) as byte, (n / 0x100_0000) as byte])
    else Err(StructError)
  }

  /** The reader's side: the unsigned little-endian value of four bytes. */
  function UnpackLength(b: Bytes): (n: nat)
    requires |b| == 4
    ensures n < LENGTH_LIMIT
  {
    b[0] as nat + 0x100 * b[1] as nat + 0x1_0000 * b[2] as nat + 0x100_0000 * b[3] as nat
  }

  /** Reading a packed length back yields the length that was packed. */
  lemma UnpackPack(n: nat)
    requires n < LENGTH_LIMIT
    ensures UnpackLength(PackLength(n).value) == n
  {
    var b := PackLength(n).value;
    var q1, q2 := n / 0x100, n / 0x1_0000;
    assert q2 == q1 / 0x100;
    assert n / 0x100_0000 == q2 / 0x100;
    assert b[0] as nat + 0x100 * q1 == n;
    assert b[1] as nat + 0x100 * q2 == q1;
    assert b[2] as nat + 0x100 * b[3] as nat == q2;
  }

  predicate Fits(payload: Bytes) { |payload| < LENGTH_LIMIT }

  predicate AllFit(payloads: seq<Bytes>) { forall i :: 0 <= i < |payloads| ==> Fits(payloads[i]) }

  /** One record: the packed payload length, then the payload. */
  function Record(payload: Bytes): (r: Bytes)
    requires Fits(payload)
    ensures |r| == 4 + |payload| && r[4..] == payload
  {
    PackLength(|payload|).value + payload
  }

  /** The bytes of a trace holding the given payloads in order. */
  function Framed(payloads: seq<Bytes>): Bytes
    requires AllFit(payloads)
  {
    if payloads == [] then [] else Record(payloads[0]) + Framed(payloads[1..])
  }

  lemma {:induction false} FramedAppend(payloads: seq<Bytes>, p: Bytes)
    requires AllFit(payloads) && Fits(p)
    ensures AllFit(payloads + [p])
    ensures Framed(payloads + [p]) == Framed(payloads) + Record(p)
  {
    if payloads != [] {
      assert (payloads + [p])[1..] == payloads[1..] + [p];
      FramedAppend(payloads[1..], p);
    }
  }

  /** How a trace reader splits a byte sequence into payloads; None on a truncated record. */
  function ParseFrames(b: Bytes): Option<seq<Bytes>>
    decreases |b|
  {
    if b == [] then Some([])
    else if |b| < 4 then None
    else
      var n := UnpackLength(b[..4]);
      if |b| - 4 < n then None
      else match ParseFrames(b[4 + n..])
        case None => None
        case Some(rest) => Some([b[4..4 + n]] + rest)
  }

  /** Reading a written trace gives back exactly the payloads written, in order. */
  lemma {:induction false} ParseFramed(payloads: seq<Bytes>)
    requires AllFit(payloads)
    ensures ParseFrames(Framed(payloads)) == Some(payloads)
  {
    if payloads != [] {
      var p := payloads[0];
      var b := Framed(payloads);
      var rec := Record(p);
      assert b == rec + Framed(payloads[1..]);
      assert b[..4] == PackLength(|p|).value;
      UnpackPack(|p|);
      assert b[4..4 + |p|] == p;
      assert b[4 + |p|..] == Framed(payloads[1..]);
      ParseFramed(payloads[1..]);
      assert [p] + payloads[1..] == payloads;
    }
  }

  /**
   * One more record on a file that holds some records after a prefix: the
   * file then holds those records and the new one, or nothing is written
   * when the payload is too long.
   */
  method AppendRecord(out: OutputFile, ghost prefix: Bytes, ghost written: seq<Bytes>, payload: Bytes)
    returns (r: Result<()>)
    requires AllFit(written) && out.content == prefix + Framed(written)
    modifies out
    ensures r.Ok? <==> Fits(payload)
    ensures r.Err? ==> r.error == StructError && out.content == old(out.content)
    ensures r.Ok? ==> AllFit(written + [payload]) && out.content == prefix + Framed(written + [payload])
  {
    r := out.WriteRecord(payload);
    if r.Ok? {
      FramedAppend(written, payload);
    }
  }

  /** An open output file; its content is everything written so far. */
  class OutputFile {
    var content: Bytes

    /** open(path, "ab"): existing bytes are kept and writes go after them. */
    constructor OpenAppend(existing: Bytes)
      ensures content == existing
    {
      content := existing;
    }

    /** open(path, "wb"): the file starts empty. */
    constructor OpenTruncate()
      ensures content == []
    {
      content := [];
    }

    method Write(b: Bytes)
      modifies this
      ensures content == old(content) + b
    {
      content := content + b;
    }

    /**
     * file.write(struct.pack("<L", len(buf))); file.write(buf): the packing
     * fails before anything is written when the payload is too long.
     */
    method WriteRecord(payload: Bytes) returns (r: Result<()>)
      modifies this
      ensures r.Ok? <==> Fits(payload)
      ensures r.Err? ==> r.error == StructError && content == old(content)
      ensures r.Ok? ==> content == old(content) + Record(payload)
    {
      var header := PackLength(|payload|);
      if header.Err? {
        return Err(header.error);
      }
      Write(header.value);
      Write(payload);
      assert content == old(content) + (header.value + payload);
      return Ok(());
    }
  }
}
