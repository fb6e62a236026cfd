/** What one NAND chunk holds once it has been written: a data chunk of a file
    or an object header, together with the tags that yaffs reads back. */
module Records {

  type Byte = bv8

  datatype Option<+T> = None | Some(value: T)

  datatype Kind = FileKind | DirKind | OtherKind

  /** A chunk in NAND: block number and page within the block. */
  datatype Addr = Addr(blk: nat, page: nat)

  datatype Record =
    | Data(obj: nat, chunk: nat, nbytes: nat, payload: seq<Byte>)
    | Header(obj: nat, kind: Kind, parent: nat, name: string, size: nat, isShrink: bool, shadows: nat)

  datatype Entry = Entry(addr: Addr, rec: Record)

  /** Whether the allocator will find room for a write that may not use the reserve. */
  datatype Space = Plenty | Short | Unknown

  // Object ids of the special directories (yaffs_guts.h)
  const ROOT: nat := 1
  const LOSTNFOUND: nat := 2
  const UNLINKED: nat := 3
  const DELETED: nat := 4

  /** File offset of the first byte of chunk c, for chunks of n data bytes; chunks count from 1. */
  function Base(n: nat, c: nat): int {
    (c - 1) * n
  }

  /** File offset just past the valid bytes of a data record. */
  function End(n: nat, d: Record): int
    requires d.Data?
  {
    Base(n, d.chunk) + d.nbytes
  }

  predicate IsData(r: Record, f: nat, c: nat) {
    r.Data? && r.obj == f && r.chunk == c
  }

  predicate IsHeader(r: Record, f: nat) {
    r.Header? && r.obj == f
  }

  /** A header under deleted or unlinked is read as a truncation to zero. */
  predicate Gone(r: Record)
    requires r.Header?
  {
    r.parent == DELETED || r.parent == UNLINKED
  }

  /** The headers that cut older data of f even when they are not the newest header of f. */
  predicate IsCut(r: Record, f: nat) {
    IsHeader(r, f) && (r.isShrink || Gone(r))
  }

  function CutSize(r: Record): nat
    requires r.Header?
  {
    if Gone(r) then 0 else r.size
  }

  function Max(a: int, b: int): int {
    if a < b then b else a
  }

  function Min(a: int, b: int): int {
    if a < b then a else b
  }
}
