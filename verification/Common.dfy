/** Bytes and options, shared by every component. */
module Common {
  newtype byte = x: int | 0 <= x < 256
  type Bytes = seq<byte>

  datatype Option<+T> = None | Some(value: T)

  /** The largest value of a 64-bit size. */
  const SIZE_MAX: int := 0xFFFF_FFFF_FFFF_FFFF

  function Min(a: int, b: int): int { if a < b then a else b }

  /** The 32-bit FNV-1a checksum that completions and read responses carry. */
  function Checksum32(data: Bytes): bv32 {
    if data == [] then 2166136261 else Mix(Checksum32(data[..|data| - 1]), data[|data| - 1])
  }

  function Mix(hash: bv32, b: byte): bv32 { (hash ^ (b as bv32)) * 16777619 }

  lemma ChecksumNext(data: Bytes, b: byte)
    ensures Checksum32(data + [b]) == Mix(Checksum32(data), b)
  {
    assert (data + [b])[..|data|] == data;
  }

  /** Published values of the 32-bit FNV-1a hash: of the empty string, "a" and "fo". */
  lemma ChecksumVectors()
    ensures Checksum32([]) == 0x811C_9DC5
    ensures Checksum32([97]) == 0xE40C_292C
    ensures Checksum32([102, 111]) == 0x6222_E842
  {
    ChecksumNext([], 97);
    ChecksumNext([], 102);
    ChecksumNext([102], 111);
    assert [] + [97 as byte] == [97] && [] + [102 as byte] == [102] && [102 as byte] + [111] == [102, 111];
    MixVectors();
  }

  lemma MixVectors()
    ensures Mix(0x811C_9DC5, 97) == 0xE40C_292C && Mix(0x811C_9DC5, 102) == 0xE30C_2799
    ensures Mix(0xE30C_2799, 111) == 0x6222_E842
  {
  }

  /** The checksum as a number, for the wire. */
  function ChecksumWord(data: Bytes): (r: nat)
    ensures r < 0x1_0000_0000
  {
    Checksum32(data) as nat
  }

  /** `data` written over `target` at `offset`. */
  function Overwrite(target: Bytes, offset: nat, data: Bytes): (r: Bytes)
    requires offset + |data| <= |target|
    ensures |r| == |target|
    ensures r[offset..offset + |data|] == data
    ensures forall i :: 0 <= i < |target| && (i < offset || offset + |data| <= i) ==> r[i] == target[i]
  {
    target[..offset] + data + target[offset + |data|..]
  }
}
