/**
 The unprotected part of a QUIC long header (section 17.2 of RFC 9000), as far as
 the DIRECT UDP race reads it: first byte, version and the two connection IDs.
 */
module QuicHeader {
  import opened NetTypes

  const MAX_CID := 20

  predicate ZeroVersion(p: seq<byte>)
    requires |p| >= 5
  {
    p[1] == 0 && p[2] == 0 && p[3] == 0 && p[4] == 0
  }

  /** Destination and source connection IDs of a long-header packet, if `p` is one. */
  function LongHeaderIds(p: seq<byte>): (r: Option<(seq<byte>, seq<byte>)>) {
    // The two top bits of the first byte are set exactly from 0xc0 upwards.
    if |p| < 7 || p[0] < 0xc0 || ZeroVersion(p) then None
    else
      var dstLen := p[5] as int;
      if dstLen > MAX_CID || 6 + dstLen >= |p| then None
      else
        var srcLen := p[6 + dstLen] as int;
        var srcStart := 6 + dstLen + 1;
        if srcLen > MAX_CID || srcStart + srcLen > |p| then None
        else Some((p[6..6 + dstLen], p[srcStart..srcStart + srcLen]))
  }

  /** The packet layout of section 17.2, written as a printer. */
  function LongHeader(first: byte, version: seq<byte>, dst: seq<byte>, src: seq<byte>, rest: seq<byte>): (p: seq<byte>)
    requires |dst| <= MAX_CID && |src| <= MAX_CID
  {
    [first] + version + [|dst| as byte] + dst + [|src| as byte] + src + rest
  }

  /** What a sender may put in a long header: form bits, a real version, short IDs. */
  predicate WellFormed(first: byte, version: seq<byte>, dst: seq<byte>, src: seq<byte>) {
    && first >= 0xc0
    && |version| == 4 && version != [0, 0, 0, 0]
    && |dst| <= MAX_CID && |src| <= MAX_CID
  }

  /** Every well-formed long header is read back exactly, whatever follows it. */
  lemma ReadsWhatWasPrinted(first: byte, version: seq<byte>, dst: seq<byte>, src: seq<byte>, rest: seq<byte>)
    requires WellFormed(first, version, dst, src)
    ensures LongHeaderIds(LongHeader(first, version, dst, src, rest)) == Some((dst, src))
  {
    var p := LongHeader(first, version, dst, src, rest);
    assert p[1..5] == version;
    assert p[5] == |dst| as byte;
    assert p[6..6 + |dst|] == dst;
    assert p[6 + |dst|] == |src| as byte;
    assert p[7 + |dst|..7 + |dst| + |src|] == src;
  }

  /** And nothing else is accepted: an accepted packet is a printed well-formed header. */
  lemma AcceptsOnlyPrinted(p: seq<byte>)
    returns (first: byte, version: seq<byte>, dst: seq<byte>, src: seq<byte>, rest: seq<byte>)
    requires LongHeaderIds(p).Some?
    ensures WellFormed(first, version, dst, src)
    ensures p == LongHeader(first, version, dst, src, rest)
    ensures LongHeaderIds(p) == Some((dst, src))
  {
    var ids := LongHeaderIds(p).value;
    first, version, dst, src := p[0], p[1..5], ids.0, ids.1;
    rest := p[7 + |dst| + |src|..];
    assert ZeroVersion(p) <==> version == [0, 0, 0, 0];
    assert |dst| == p[5] as int && |src| == p[6 + |dst|] as int;
    assert p == p[..1] + p[1..5] + p[5..6] + p[6..6 + |dst|] + p[6 + |dst|..7 + |dst|]
                + p[7 + |dst|..7 + |dst| + |src|] + rest;
  }
}
