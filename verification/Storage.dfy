/** Bytes, sectors and the plain disk that the buffer cache speeds up. */
module Storage {
  const SECTOR_SIZE: nat := 512
  const PAGE_SIZE: nat := 4096

  datatype Option<+T> = None | Some(value: T)

  type Byte = b: int | 0 <= b < 256

  /** The contents of one 512-byte sector. */
  type Data = d: seq<Byte> | |d| == SECTOR_SIZE witness seq(SECTOR_SIZE, _ => 0)

  /** `d` with the bytes from `start` on replaced by `bytes`. */
  function Patch(d: Data, start: nat, bytes: seq<Byte>): (r: Data)
    requires start + |bytes| <= SECTOR_SIZE
  {
    d[..start] + bytes + d[start + |bytes|..]
  }

  // ---------- 32-bit little-endian words ----------

  const WORD: nat := 0x1_0000_0000

  function Encode(w: nat): (b: seq<Byte>)
    requires w < WORD
    ensures |b| == 4
  {
    var w1: int := w / 256;
    var w2: int := w1 / 256;
    var w3: int := w2 / 256;
    [w % 256, w1 % 256, w2 % 256, w3]
  }

  function Decode(b: seq<Byte>): (w: nat)
    requires |b| == 4
    ensures w < WORD
  {
    var b0: int, b1: int, b2: int, b3: int := b[0], b[1], b[2], b[3];
    b0 + 256 * b1 + 65536 * b2 + 16777216 * b3
  }

  lemma DecodeEncode(w: nat)
    requires w < WORD
    ensures Decode(Encode(w)) == w
  {
  }
}
