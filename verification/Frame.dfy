/** Datagram padding: a four-byte length, the frame, and zeros (internal/p2p/udp.go:321-349). */
module Frames {
  import opened Base

  const MAX_DATAGRAM: nat := 61440

  /** The length of a padded datagram: the wanted one, or just enough. */
  function PaddedSize(length: nat, size: int): nat { if size < 4 + length then 4 + length else size }

  /** The low 32 bits of a length, as four shifted bytes. */
  function Prefix(n: nat): Bytes {
    [n / 0x100_0000 % 256, n / 0x1_0000 % 256, n / 0x100 % 256, n % 256]
  }

  /** d is raw behind its length prefix, filled up with zeros. */
  ghost predicate IsPadded(d: Bytes, raw: Bytes, size: int) {
    && |d| == PaddedSize(|raw|, size)
    && d[..4] == Prefix(|raw|)
    && d[4..4 + |raw|] == raw
    && forall i :: 4 + |raw| <= i < |d| ==> d[i] == 0
  }

  method FramePad(raw: Bytes, wanted: int) returns (out: array<byte>)
    ensures fresh(out) && IsPadded(out[..], raw, wanted)
  {
    var size := wanted;
    if size < 4 + |raw| {
      size := 4 + |raw|;
    }
    out := new byte[size](_ => 0);
    out[0] := |raw| / 0x100_0000 % 256;
    out[1] := |raw| / 0x1_0000 % 256;
    out[2] := |raw| / 0x100 % 256;
    out[3] := |raw| % 256;
    assert out[..4] == Prefix(|raw|);
    forall i | 0 <= i < |raw| {
      out[4 + i] := raw[i];
    }
    assert out[4..4 + |raw|] == raw;
    assert out[..4] == Prefix(|raw|);
  }

  /** The length a prefix spells, if its first byte is zero. */
  function PrefixLength(b: Bytes): int
    requires |b| >= 4
  {
    (b[1] as int) * 0x1_0000 + (b[2] as int) * 0x100 + (b[3] as int)
  }

  function Unframe(data: Bytes): Bytes {
    if |data| < 5 || data[0] != 0 then data else
    var n := PrefixLength(data);
    if 0 < n && n + 4 <= |data| && n < MAX_DATAGRAM then data[4..4 + n] else data
  }

  /** Removing the padding gives a frame back exactly when it is neither empty nor as long as the
      largest datagram; a frame that does not begin with a zero byte may also go unpadded. */
  lemma PaddingIsUndone(d: Bytes, raw: Bytes, size: int)
    requires IsPadded(d, raw, size)
    ensures Unframe(d) == raw <==> 0 < |raw| < MAX_DATAGRAM
    ensures raw != [] && raw[0] != 0 ==> Unframe(raw) == raw
  {
    var n := |raw|;
    assert d[0] == d[..4][0] && d[1] == d[..4][1] && d[2] == d[..4][2] && d[3] == d[..4][3];
    if 0 < n < MAX_DATAGRAM {
      PrefixValue(n);
    }
  }

  lemma PrefixValue(n: nat)
    requires n < MAX_DATAGRAM
    ensures Prefix(n)[0] == 0 && PrefixLength(Prefix(n)) == n
  {
  }
}
